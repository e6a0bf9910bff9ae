/** The meaning of characters to the CSV parser, and the flag encoding that gets by with one table. */
module CsvFlags {
  /** The separator and the quote character. */
  datatype Format = Format(delim: char, quote: char) {
    predicate Proper() {
      delim != quote && !IsNewline(delim) && !IsNewline(quote)
    }
  }

  predicate IsNewline(c: char) {
    c == '\r' || c == '\n'
  }

  // ---- Flags ----

  const QUOTE_ESCAPE_QUOTE: bv8 := 0
  const QUOTE: bv8 := 3
  const NOT_SPECIAL: bv8 := 4
  const DELIMITER: bv8 := 6
  const NEWLINE: bv8 := 7

  /** The table entry of a character; the quote is entered last. */
  function ParseFlag(fmt: Format, c: char): bv8 {
    if c == fmt.quote then QUOTE else if c == fmt.delim then DELIMITER else if IsNewline(c) then NEWLINE else NOT_SPECIAL
  }

  function QuoteEscapeFlag(flag: bv8, quoteEscape: bool): bv8 {
    flag & !(QUOTE * (if quoteEscape then 1 else 0))
  }

  // ---- Meanings ----

  /** What a character means inside and outside of quotes. */
  datatype Kind = Ordinary | Separator | Newline | Opening | Inner

  function KindOf(fmt: Format, c: char, quoted: bool): Kind {
    if c == fmt.quote then (if quoted then Inner else Opening)
    else if quoted then Ordinary
    else if c == fmt.delim then Separator
    else if IsNewline(c) then Newline
    else Ordinary
  }

  function FlagOf(k: Kind): bv8 {
    match k
    case Ordinary => NOT_SPECIAL
    case Separator => DELIMITER
    case Newline => NEWLINE
    case Opening => QUOTE
    case Inner => QUOTE_ESCAPE_QUOTE
  }

  /** Masking the table entry gives the meaning, and different meanings have different flags. */
  lemma FlagIsKind(fmt: Format, c: char, quoted: bool, k: Kind)
    ensures QuoteEscapeFlag(ParseFlag(fmt, c), quoted) == FlagOf(k) <==> KindOf(fmt, c, quoted) == k
  {
    assert QuoteEscapeFlag(QUOTE, true) == QUOTE_ESCAPE_QUOTE && QuoteEscapeFlag(DELIMITER, true) == NOT_SPECIAL;
    assert QuoteEscapeFlag(NEWLINE, true) == NOT_SPECIAL && QuoteEscapeFlag(NOT_SPECIAL, true) == NOT_SPECIAL;
    assert QuoteEscapeFlag(ParseFlag(fmt, c), false) == ParseFlag(fmt, c);
  }

  /** One comparison tells separators and newlines from the rest. */
  lemma EndsFieldFlag(fmt: Format, c: char)
    ensures ParseFlag(fmt, c) >= DELIMITER <==> KindOf(fmt, c, false).Separator? || KindOf(fmt, c, false).Newline?
  {
  }
}
