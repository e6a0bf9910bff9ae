/** The CSV parser: a state machine over one block of text, the fields and rows it records as offsets,
    and the lazy unescaping of fields. */
module CsvParser {
  import opened CsvFlags

  const Uninitialized: int := -1

  datatype RawField = RawField(start: nat, length: nat, hasDoubleQuote: bool)

  datatype Row = Row(dataStart: nat, fieldsStart: nat, rowLength: nat)

  /** The state of the parser within one block. */
  datatype State = State(
    pos: nat, fieldStart: int, fieldLength: nat, quoteEscape: bool, hasDoubleQuote: bool,
    fields: seq<RawField>, rowStart: nat, fieldsStart: nat, rows: seq<Row>)

  /** The difference of two offsets; it is never negative in a reachable state. */
  function Less(a: int, b: int): nat {
    if a > b then a - b else 0
  }

  // ---- One step, as a function ----

  function PushField(s: State): State {
    s.(fields := s.fields + [RawField(Less(s.fieldStart, 0), s.fieldLength, s.hasDoubleQuote)],
       hasDoubleQuote := false, fieldStart := Uninitialized, fieldLength := 0)
  }

  function PushRow(s: State): State {
    s.(rows := s.rows + [Row(s.rowStart, s.fieldsStart, Less(|s.fields|, s.fieldsStart))])
  }

  function NewRow(s: State): State {
    s.(rowStart := s.pos, fieldsStart := |s.fields|)
  }

  function EndField(s: State): State {
    PushField(s).(pos := s.pos + 1)
  }

  /** Where to go on behind the newline at `p`: a second one is skipped. */
  function PastNewline(fmt: Format, text: string, p: nat): nat {
    if p + 1 < |text| && KindOf(fmt, text[p + 1], false).Newline? then p + 2 else p + 1
  }

  function EndRow(s: State, p: nat): State {
    NewRow(PushRow(PushField(s.(pos := p))))
  }

  /** The end of the run of ordinary characters at `p`. */
  function RunEnd(fmt: Format, text: string, p: nat, quoted: bool): (e: nat)
    requires p <= |text|
    ensures p <= e <= |text|
    decreases |text| - p
  {
    if p < |text| && KindOf(fmt, text[p], quoted).Ordinary? then RunEnd(fmt, text, p + 1, quoted) else p
  }

  function ParseField(fmt: Format, text: string, s: State): State
    requires s.pos <= |text|
  {
    var start := if s.fieldStart == Uninitialized then s.pos - s.rowStart else s.fieldStart;
    var e := RunEnd(fmt, text, s.pos, s.quoteEscape);
    s.(fieldStart := start, pos := e, fieldLength := Less(e, start + s.rowStart))
  }

  /** A quote at the very end of the block may be either kind: the parser gives up. */
  predicate GivesUp(fmt: Format, text: string, s: State) {
    s.pos + 1 == |text| && KindOf(fmt, text[s.pos], s.quoteEscape).Inner?
  }

  function Next(fmt: Format, text: string, s: State): (s': State)
    requires s.pos < |text| && !GivesUp(fmt, text, s)
    ensures s.pos < s'.pos <= |text|
  {
    match KindOf(fmt, text[s.pos], s.quoteEscape)
    case Separator => EndField(s)
    case Newline => EndRow(s, PastNewline(fmt, text, s.pos))
    case Ordinary => ParseField(fmt, text, s)
    case Inner =>
      var next := KindOf(fmt, text[s.pos + 1], false);
      if next.Separator? || next.Newline? then s.(quoteEscape := false, pos := s.pos + 1)
      else if next.Opening? then s.(pos := s.pos + 2, fieldLength := s.fieldLength + 2, hasDoubleQuote := true)
      else s.(pos := s.pos + 1, fieldLength := s.fieldLength + 1)
    case Opening =>
      if s.fieldLength == 0 then
        s.(quoteEscape := true, pos := s.pos + 1,
           fieldStart := if s.fieldStart == Uninitialized && s.pos + 1 < |text| then s.pos + 1 - s.rowStart else s.fieldStart)
      else s.(pos := s.pos + 1, fieldLength := s.fieldLength + 1)
  }

  /** The state at the end of the block. */
  function Run(fmt: Format, text: string, s: State): State
    decreases |text| - s.pos
  {
    if s.pos >= |text| || GivesUp(fmt, text, s) then s else Run(fmt, text, Next(fmt, text, s))
  }

  predicate HasBom(text: string) {
    |text| >= 3 && text[..3] == "\U{00EF}\U{00BB}\U{00BF}"
  }

  /** The state after `end_feed`. */
  function EndFeed(fmt: Format, text: string, s: State): State {
    var s1 := if s.fieldLength > 0 || (text != [] && KindOf(fmt, text[|text| - 1], false).Separator?) then PushField(s) else s;
    if |s1.fields| > s1.fieldsStart then PushRow(s1) else s1
  }

  // ---- Reading fields ----

  function Unescape(fmt: Format, s: string, prevQuote: bool): string {
    if s == [] then []
    else if s[0] == fmt.quote then
      if prevQuote then Unescape(fmt, s[1..], false) else [s[0]] + Unescape(fmt, s[1..], true)
    else [s[0]] + Unescape(fmt, s[1..], prevQuote)
  }

  function FieldValue(fmt: Format, text: string, dataStart: nat, f: RawField): string
    requires dataStart + f.start + f.length <= |text|
  {
    var raw := text[dataStart + f.start..dataStart + f.start + f.length];
    if f.hasDoubleQuote then Unescape(fmt, raw, false) else raw
  }
}
