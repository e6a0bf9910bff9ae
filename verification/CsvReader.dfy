/** The parser as an object that changes step by step, and the reader of its rows. */
module CsvReader {
  import opened CsvFlags
  import opened CsvParser

  class Parser {
    const fmt: Format
    var pos: nat
    var fieldStart: int
    var fieldLength: nat
    var quoteEscape: bool
    var hasDoubleQuote: bool
    var fields: seq<RawField>
    var rowStart: nat
    var fieldsStart: nat
    var records: seq<Row>
    var bomScanned: bool

    ghost function Snapshot(): State
      reads this
    {
      State(pos, fieldStart, fieldLength, quoteEscape, hasDoubleQuote, fields, rowStart, fieldsStart, records)
    }

    constructor (fmt: Format)
      ensures this.fmt == fmt && Snapshot() == State(0, Uninitialized, 0, false, false, [], 0, 0, []) && !bomScanned
    {
      this.fmt := fmt;
      pos, fieldStart, fieldLength, quoteEscape, hasDoubleQuote := 0, Uninitialized, 0, false, false;
      fields, rowStart, fieldsStart, records, bomScanned := [], 0, 0, [], false;
    }

    method RecordField()
      modifies this
      ensures Snapshot() == PushField(old(Snapshot())) && bomScanned == old(bomScanned)
    {
      fields := fields + [RawField(if fieldStart == Uninitialized then 0 else Less(fieldStart, 0), fieldLength, hasDoubleQuote)];
      if hasDoubleQuote {
        hasDoubleQuote := false;
      }
      fieldStart, fieldLength := Uninitialized, 0;
    }

    method RecordRow()
      modifies this
      ensures Snapshot() == PushRow(old(Snapshot())) && bomScanned == old(bomScanned)
    {
      records := records + [Row(rowStart, fieldsStart, Less(|fields|, fieldsStart))];
    }

    /** Over a run of ordinary characters. */
    method ReadField(text: string)
      requires pos <= |text|
      modifies this
      ensures Snapshot() == ParseField(fmt, text, old(Snapshot())) && bomScanned == old(bomScanned)
    {
      if fieldStart == Uninitialized {
        fieldStart := pos - rowStart;
      }
      ghost var s := Snapshot();
      while pos < |text| && QuoteEscapeFlag(ParseFlag(fmt, text[pos]), quoteEscape) == NOT_SPECIAL
        invariant s.pos <= pos <= |text| && Snapshot() == s.(pos := pos) && bomScanned == old(bomScanned)
        invariant RunEnd(fmt, text, s.pos, s.quoteEscape) == RunEnd(fmt, text, pos, s.quoteEscape)
      {
        FlagIsKind(fmt, text[pos], quoteEscape, Ordinary);
        pos := pos + 1;
      }
      if pos < |text| {
        FlagIsKind(fmt, text[pos], quoteEscape, Ordinary);
      }
      fieldLength := Less(pos, fieldStart + rowStart);
    }

    /** A quote inside of a quoted field. */
    method ReadInner(text: string) returns (stop: bool)
      requires pos < |text| && KindOf(fmt, text[pos], quoteEscape).Inner?
      modifies this
      ensures stop == GivesUp(fmt, text, old(Snapshot())) && bomScanned == old(bomScanned)
      ensures stop ==> Snapshot() == old(Snapshot())
      ensures !stop ==> Snapshot() == Next(fmt, text, old(Snapshot()))
    {
      if pos + 1 == |text| {
        return true;
      }
      var next := ParseFlag(fmt, text[pos + 1]);
      EndsFieldFlag(fmt, text[pos + 1]);
      FlagIsKind(fmt, text[pos + 1], false, Opening);
      if next >= DELIMITER {
        quoteEscape := false;
        pos := pos + 1;
      } else if next == QUOTE {
        pos := pos + 2;
        fieldLength := fieldLength + 2;
        hasDoubleQuote := true;
      } else {
        fieldLength := fieldLength + 1;
        pos := pos + 1;
      }
      return false;
    }

    /** A quote outside of a quoted field: it opens one, unless something was read of the field already. */
    method ReadOpening(text: string)
      requires pos < |text| && KindOf(fmt, text[pos], quoteEscape).Opening?
      modifies this
      ensures Snapshot() == Next(fmt, text, old(Snapshot())) && bomScanned == old(bomScanned)
    {
      if fieldLength == 0 {
        quoteEscape := true;
        pos := pos + 1;
        if fieldStart == Uninitialized && pos < |text| {
          fieldStart := pos - rowStart;
        }
      } else {
        fieldLength := fieldLength + 1;
        pos := pos + 1;
      }
    }

    method ReadNewline(text: string)
      requires pos < |text| && KindOf(fmt, text[pos], quoteEscape).Newline?
      modifies this
      ensures Snapshot() == Next(fmt, text, old(Snapshot())) && bomScanned == old(bomScanned)
    {
      pos := pos + 1;
      if pos < |text| {
        FlagIsKind(fmt, text[pos], false, Newline);
        if QuoteEscapeFlag(ParseFlag(fmt, text[pos]), false) == NEWLINE {
          pos := pos + 1;
        }
      }
      RecordField();
      RecordRow();
      rowStart, fieldsStart := pos, |fields|;
    }

    /** The switch on the masked flag. */
    method Advance(text: string) returns (stop: bool)
      requires pos < |text|
      modifies this
      ensures stop == GivesUp(fmt, text, old(Snapshot())) && bomScanned == old(bomScanned)
      ensures stop ==> Snapshot() == old(Snapshot())
      ensures !stop ==> Snapshot() == Next(fmt, text, old(Snapshot()))
    {
      var flag := QuoteEscapeFlag(ParseFlag(fmt, text[pos]), quoteEscape);
      Meanings(fmt, text[pos], quoteEscape);
      stop := false;
      if flag == DELIMITER {
        RecordField();
        pos := pos + 1;
      } else if flag == NEWLINE {
        ReadNewline(text);
      } else if flag == NOT_SPECIAL {
        ReadField(text);
      } else if flag == QUOTE_ESCAPE_QUOTE {
        stop := ReadInner(text);
      } else {
        ReadOpening(text);
      }
    }

    /** Parse one block; the result is the length of its complete rows. */
    method Parse(text: string) returns (remainder: nat)
      modifies this
      ensures Snapshot() == Run(fmt, text, Start(fmt, text, old(Snapshot()), old(bomScanned)))
      ensures remainder == rowStart
      ensures bomScanned == (old(bomScanned) || |text| >= 3)
    {
      quoteEscape, pos, rowStart := false, 0, 0;
      if !bomScanned && |text| >= 3 {
        if text[0] == '\U{00EF}' && text[1] == '\U{00BB}' && text[2] == '\U{00BF}' {
          pos := pos + 3;
        }
        bomScanned := true;
      }
      ghost var s := Snapshot();
      ghost var scanned := bomScanned;
      assert s == Start(fmt, text, old(Snapshot()), old(bomScanned)) by {
        BomIs(text);
      }
      var stop := false;
      while pos < |text| && !stop
        invariant bomScanned == scanned && Run(fmt, text, Snapshot()) == Run(fmt, text, s)
        invariant stop ==> pos < |text| && GivesUp(fmt, text, Snapshot())
        decreases |text| - pos, !stop
      {
        stop := Advance(text);
      }
      remainder := rowStart;
    }

    method Finish(text: string)
      modifies this
      ensures Snapshot() == EndFeed(fmt, text, old(Snapshot())) && bomScanned == old(bomScanned)
    {
      if text != [] {
        FlagIsKind(fmt, text[|text| - 1], false, Separator);
      }
      if fieldLength > 0 || (text != [] && QuoteEscapeFlag(ParseFlag(fmt, text[|text| - 1]), false) == DELIMITER) {
        RecordField();
      }
      if |fields| > fieldsStart {
        RecordRow();
      }
    }
  }

  lemma Meanings(fmt: Format, c: char, quoted: bool)
    ensures var flag, kind := QuoteEscapeFlag(ParseFlag(fmt, c), quoted), KindOf(fmt, c, quoted);
            && (flag == DELIMITER <==> kind.Separator?) && (flag == NEWLINE <==> kind.Newline?)
            && (flag == NOT_SPECIAL <==> kind.Ordinary?) && (flag == QUOTE_ESCAPE_QUOTE <==> kind.Inner?)
  {
    FlagIsKind(fmt, c, quoted, Separator);
    FlagIsKind(fmt, c, quoted, Newline);
    FlagIsKind(fmt, c, quoted, Ordinary);
    FlagIsKind(fmt, c, quoted, Inner);
  }

  lemma BomIs(text: string)
    ensures HasBom(text) <==> |text| >= 3 && text[0] == '\U{00EF}' && text[1] == '\U{00BB}' && text[2] == '\U{00BF}'
  {
    if |text| >= 3 {
      assert text[..3] == [text[0], text[1], text[2]];
    }
  }

  /** The state in which the parser enters a block. */
  function Start(fmt: Format, text: string, s: State, bomScanned: bool): State {
    s.(quoteEscape := false, rowStart := 0, pos := if !bomScanned && HasBom(text) then 3 else 0)
  }

  // ---- Reading a field ----

  datatype Result<T> = Ok(value: T) | Error(message: string)

  method UnescapeField(fmt: Format, raw: string) returns (value: string)
    ensures value == Unescape(fmt, raw, false)
  {
    value := [];
    var prevQuote, i := false, 0;
    assert raw[0..] == raw;
    while i < |raw|
      invariant 0 <= i <= |raw| && value + Unescape(fmt, raw[i..], prevQuote) == Unescape(fmt, raw, false)
    {
      assert raw[i..][1..] == raw[i + 1..];
      if ParseFlag(fmt, raw[i]) == QUOTE {
        if prevQuote {
          prevQuote := false;
          i := i + 1;
          continue;
        } else {
          prevQuote := true;
        }
      }
      value := value + [raw[i]];
      i := i + 1;
    }
  }

  method GetField(fmt: Format, text: string, fields: seq<RawField>, row: Row, index: nat) returns (r: Result<string>)
    requires row.fieldsStart + row.rowLength <= |fields|
    requires forall i :: row.fieldsStart <= i < row.fieldsStart + row.rowLength ==>
               row.dataStart + fields[i].start + fields[i].length <= |text|
    ensures r.Ok? <==> index < row.rowLength
    ensures r.Ok? ==> r.value == FieldValue(fmt, text, row.dataStart, fields[row.fieldsStart + index])
  {
    if index >= row.rowLength {
      return Error("Index out of bounds.");
    }
    var f := fields[row.fieldsStart + index];
    var raw := text[row.dataStart + f.start..row.dataStart + f.start + f.length];
    if f.hasDoubleQuote {
      var value := UnescapeField(fmt, raw);
      return Ok(value);
    }
    return Ok(raw);
  }
}
