/** Writing records as CSV text, and what reading it back gives. */
module CsvWriter {
  import opened CsvFlags
  import opened CsvParser
  import opened CsvText
  import opened CsvTable
  import opened CsvBom
  import opened CsvReader
  import opened CsvWindow
  import opened CsvMmap
  import opened CsvBounds

  // ---- The writer ----

  predicate NeedsQuotes(fmt: Format, s: string) {
    exists i :: 0 <= i < |s| && !KindOf(fmt, s[i], false).Ordinary?
  }

  /** The form in which the writer puts a field. */
  function FormOf(fmt: Format, s: string): (f: Field)
    ensures f.value == s && ValidField(fmt, f)
  {
    if NeedsQuotes(fmt, s) then Quoted(s) else Plain(s)
  }

  method Escape(fmt: Format, s: string) returns (r: string)
    ensures r == FieldText(fmt, FormOf(fmt, s))
  {
    var quoteEscape, i := false, 0;
    while i < |s|
      invariant 0 <= i <= |s| && !quoteEscape
      invariant forall k :: 0 <= k < i ==> KindOf(fmt, s[k], false).Ordinary?
    {
      if s[i] == fmt.quote || s[i] == fmt.delim || s[i] == '\r' || s[i] == '\n' {
        quoteEscape := true;
        break;
      }
      i := i + 1;
    }
    if !quoteEscape {
      return s;
    }
    assert NeedsQuotes(fmt, s);
    r := [fmt.quote];
    i := 0;
    assert s[..0] == [];
    while i < |s|
      invariant 0 <= i <= |s| && r == [fmt.quote] + Double(fmt, s[..i])
    {
      assert s[..i + 1] == s[..i] + [s[i]];
      DoubleConcat(fmt, s[..i], [s[i]]);
      if s[i] == fmt.quote {
        r := r + [fmt.quote, fmt.quote];
      } else {
        r := r + [s[i]];
      }
      i := i + 1;
    }
    assert s[..i] == s;
    r := r + [fmt.quote];
  }

  function Forms(fmt: Format, record: seq<string>): (row: seq<Field>)
    ensures |row| == |record| && forall i :: 0 <= i < |row| ==> row[i] == FormOf(fmt, record[i])
  {
    seq(|record|, i requires 0 <= i < |record| => FormOf(fmt, record[i]))
  }

  /** The first `i` fields, each followed by the separator. */
  function Begun(fmt: Format, record: seq<string>, i: nat): string
    requires i <= |record|
  {
    if i == 0 then "" else Begun(fmt, record, i - 1) + (FieldText(fmt, FormOf(fmt, record[i - 1])) + [fmt.delim])
  }

  lemma {:induction false} BegunText(fmt: Format, record: seq<string>, i: nat)
    requires i < |record|
    ensures RowText(fmt, Forms(fmt, record)) == Begun(fmt, record, i) + RowText(fmt, Forms(fmt, record[i..]))
  {
    if i == 0 {
      assert record[0..] == record;
    } else {
      BegunText(fmt, record, i - 1);
      assert Forms(fmt, record[i - 1..])[1..] == Forms(fmt, record[i..]);
      var f, tail := FieldText(fmt, FormOf(fmt, record[i - 1])), RowText(fmt, Forms(fmt, record[i..]));
      Join3(f, [fmt.delim], tail);
      Join3(Begun(fmt, record, i - 1), f + [fmt.delim], tail);
    }
  }

  lemma LastText(fmt: Format, record: seq<string>)
    requires record != []
    ensures var i := |record| - 1;
            RowText(fmt, Forms(fmt, record)) == (Begun(fmt, record, i) + FieldText(fmt, FormOf(fmt, record[i]))) + "\n"
  {
    var i := |record| - 1;
    BegunText(fmt, record, i);
    assert Forms(fmt, record[i..]) == [FormOf(fmt, record[i])];
    Join3(Begun(fmt, record, i), FieldText(fmt, FormOf(fmt, record[i])), "\n");
  }

  method WriteRecord(fmt: Format, record: seq<string>) returns (out: string)
    ensures out == RowText(fmt, Forms(fmt, record))
  {
    out := "";
    var i := 0;
    while i < |record|
      invariant 0 <= i <= |record|
      invariant i < |record| ==> out == Begun(fmt, record, i)
      invariant 0 < i == |record| ==> out == Begun(fmt, record, i - 1) + FieldText(fmt, FormOf(fmt, record[i - 1]))
      invariant |record| == 0 ==> out == ""
    {
      var field := Escape(fmt, record[i]);
      if i + 1 != |record| {
        Join3(out, field, [fmt.delim]);
      }
      out := out + field;
      if i + 1 != |record| {
        out := out + [fmt.delim];
      }
      i := i + 1;
    }
    if record != [] {
      LastText(fmt, record);
    }
    out := out + "\n";
  }

  /** The row a record is written as; a record without fields looks like one with an empty field. */
  function RowOf(fmt: Format, record: seq<string>): (row: seq<Field>)
    ensures ValidRow(fmt, row)
  {
    if record == [] then [Plain("")] else Forms(fmt, record)
  }

  function Table(fmt: Format, records: seq<seq<string>>): (rows: seq<seq<Field>>)
    ensures |rows| == |records| && forall i :: 0 <= i < |rows| ==> rows[i] == RowOf(fmt, records[i])
  {
    seq(|records|, i requires 0 <= i < |records| => RowOf(fmt, records[i]))
  }

  lemma {:induction false} RowsTextConcat(fmt: Format, a: seq<seq<Field>>, b: seq<seq<Field>>)
    ensures RowsText(fmt, a + b) == RowsText(fmt, a) + RowsText(fmt, b)
  {
    if a == [] {
      assert a + b == b;
    } else {
      assert (a + b)[1..] == a[1..] + b;
      RowsTextConcat(fmt, a[1..], b);
    }
  }

  lemma TableText(fmt: Format, records: seq<seq<string>>, i: nat)
    requires i < |records|
    ensures RowsText(fmt, Table(fmt, records[..i + 1]))
            == RowsText(fmt, Table(fmt, records[..i])) + RowText(fmt, Forms(fmt, records[i]))
  {
    var row := RowOf(fmt, records[i]);
    assert Table(fmt, records[..i + 1]) == Table(fmt, records[..i]) + [row];
    RowsTextConcat(fmt, Table(fmt, records[..i]), [row]);
    assert RowsText(fmt, [row]) == RowText(fmt, row) by {
      assert [row][1..] == [];
    }
  }

  method WriteAll(fmt: Format, records: seq<seq<string>>) returns (out: string)
    ensures out == RowsText(fmt, Table(fmt, records))
  {
    out := "";
    var i := 0;
    assert records[..0] == [];
    while i < |records|
      invariant 0 <= i <= |records| && out == RowsText(fmt, Table(fmt, records[..i]))
    {
      TableText(fmt, records, i);
      var line := WriteRecord(fmt, records[i]);
      out := out + line;
      i := i + 1;
    }
    assert records[..i] == records;
  }

  // ---- Reading a text in one go ----

  /** Parse the whole text at once. */
  method ReadText(fmt: Format, text: string, ghost rows: seq<seq<Field>>) returns (table: seq<seq<string>>)
    requires Ascii(fmt) && ValidRows(fmt, rows) && text == RowsText(fmt, rows)
    ensures table == TableValues(Delivered(Trimmed(rows)))
  {
    var p := new Parser(fmt);
    ghost var s := Start(fmt, text, p.Snapshot(), false);
    var remainder := p.Parse(text);
    TextParsed(fmt, text, s, rows);
    p.Finish(text);
    RecordsInside(fmt, text, s);
    table := ReadRecords(fmt, text, p.fields, p.records);
    TableRead(fmt, text, p.fields, p.records, Delivered(Trimmed(rows)));
  }

  lemma TextParsed(fmt: Format, text: string, s: State, rows: seq<seq<Field>>)
    requires Ascii(fmt) && ValidRows(fmt, rows) && text == RowsText(fmt, rows)
    requires Between(s) && s.rowStart == 0 && s.pos == (if HasBom(text) then 3 else 0) && s.rows == []
    ensures var e := EndFeed(fmt, text, Run(fmt, text, s));
            RowsHold(fmt, text, e.fields, e.rows, Delivered(Trimmed(rows)))
  {
    BomIsFirst(fmt, rows);
    TrimmedValid(fmt, rows);
    SliceAt(text, 0, text);
    if BomFirst(rows) {
      TrimmedText(fmt, rows);
      AtSplit(text, 0, Bom, RowsText(fmt, Trimmed(rows)));
    }
    TextLeaves(fmt, text, s.pos, Trimmed(rows));
    RowsParsed(fmt, text, s, Trimmed(rows), rows);
  }

  lemma RowsParsed(fmt: Format, text: string, s: State, table: seq<seq<Field>>, rows: seq<seq<Field>>)
    requires fmt.Proper() && ValidRows(fmt, table) && text == RowsText(fmt, rows)
    requires Between(s) && (table == [] ==> AtBoundary(s)) && s.rows == []
    requires LeavesAt(fmt, text, s.pos, table, |text|)
    ensures var e := EndFeed(fmt, text, Run(fmt, text, s));
            RowsHold(fmt, text, e.fields, e.rows, Delivered(table))
  {
    TextIsTable(fmt, text, s.pos, table, |text|);
    AllRecorded(fmt, text, s, table, rows);
    RunToEnd(fmt, text, s, table);
  }

  lemma TextEndsWithNewline(fmt: Format, text: string, rows: seq<seq<Field>>)
    requires text == RowsText(fmt, rows)
    ensures text == [] || text[|text| - 1] == '\n'
  {
    var lines := TextsOf(fmt, rows);
    RowsTextIsJoin(fmt, rows, lines);
    if rows != [] {
      TextsEnded(fmt, rows, lines);
      JoinEnds(lines);
    }
  }

  lemma {:induction false} JoinEnds(lines: seq<string>)
    requires lines != [] && Ended(lines)
    ensures Join(lines) != [] && Join(lines)[|Join(lines)| - 1] == '\n'
  {
    if |lines| > 1 {
      JoinEnds(lines[1..]);
    } else {
      assert Join(lines[1..]) == "";
    }
  }

  lemma AllRecorded(fmt: Format, text: string, s: State, table: seq<seq<Field>>, rows: seq<seq<Field>>)
    requires fmt.Proper() && text == RowsText(fmt, rows) && TableAt(fmt, text, s.pos, table, |text|)
    requires Between(s) && (table == [] ==> AtBoundary(s)) && s.rows == []
    ensures var e := AfterRows(fmt, text, s, table);
            && e.pos == |text| && EndFeed(fmt, text, e) == e && RowsHold(fmt, text, e.fields, e.rows, Delivered(table))
  {
    var recorded := RowsAreDone(fmt, text, s, table, |text|);
    TextEndsWithNewline(fmt, text, rows);
    EndFeedNothing(fmt, text, AfterRows(fmt, text, s, table));
  }

  lemma RunToEnd(fmt: Format, text: string, s: State, table: seq<seq<Field>>)
    requires fmt.Proper() && Between(s) && TableAt(fmt, text, s.pos, table, |text|)
    requires AfterRows(fmt, text, s, table).pos == |text|
    ensures Run(fmt, text, s) == AfterRows(fmt, text, s, table)
  {
    OverRows(fmt, text, s, table, |text|);
  }

  // ---- The round trip ----

  /** What a caller can check before writing: no record without fields, no lone empty field except in the
      first record, and no byte-order mark at the start of the first field. */
  predicate Readable(fmt: Format, records: seq<seq<string>>) {
    && (forall i :: 0 <= i < |records| ==> records[i] != [])
    && (forall i :: 1 <= i < |records| ==> records[i] != [""])
    && !(records != [] && records[0] != [] && |records[0][0]| >= 3 && records[0][0][..3] == Bom && !NeedsQuotes(fmt, records[0][0]))
  }

  lemma TableKeeps(fmt: Format, records: seq<seq<string>>)
    requires Readable(fmt, records)
    ensures Trimmed(Table(fmt, records)) == Table(fmt, records) && NoBlankLater(Table(fmt, records))
    ensures TableValues(Table(fmt, records)) == records
  {
    var rows := Table(fmt, records);
    forall i | 0 <= i < |records|
      ensures Values(rows[i]) == records[i]
      ensures i >= 1 ==> !Blank(rows[i])
    {
      assert rows[i] == Forms(fmt, records[i]);
      assert Blank(rows[i]) ==> records[i] == [""];
    }
  }

  lemma BomDiffers(fmt: Format, records: seq<seq<string>>)
    requires BomFirst(Table(fmt, records))
    ensures TableValues(Delivered(Trimmed(Table(fmt, records)))) != records
  {
    var rows := Table(fmt, records);
    var first := Trimmed(rows)[0];
    assert Delivered(Trimmed(rows))[0] == first;
    assert Values(first)[0] == records[0][0][3..];
  }

  lemma BlankDiffers(fmt: Format, records: seq<seq<string>>, i: nat)
    requires 1 <= i < |records| && (records[i] == [] || records[i] == [""])
    ensures |Delivered(Table(fmt, records))| < |records|
  {
    BlankOne(fmt, records[i]);
    assert Blank(Table(fmt, records)[i]);
    DeliveredAtMost(Table(fmt, records));
  }

  lemma EmptyDiffers(fmt: Format, records: seq<seq<string>>)
    requires records != [] && records[0] == []
    ensures TableValues(Delivered(Table(fmt, records))) != records
  {
    var rows := Table(fmt, records);
    assert Delivered(rows)[0] == rows[0];
    assert |Values(rows[0])| == 1;
  }

  lemma UnreadableDiffers(fmt: Format, records: seq<seq<string>>)
    requires !Readable(fmt, records)
    ensures TableValues(Delivered(Trimmed(Table(fmt, records)))) != records
  {
    if BomFirst(Table(fmt, records)) {
      BomDiffers(fmt, records);
    } else if i :| 1 <= i < |records| && (records[i] == [] || records[i] == [""]) {
      BlankDiffers(fmt, records, i);
    } else {
      EmptyDiffers(fmt, records);
    }
  }

  lemma BlankOne(fmt: Format, record: seq<string>)
    requires record == [] || record == [""]
    ensures Blank(RowOf(fmt, record))
  {
  }

  /** Reading what was written gives back the records if and only if they are readable. */
  method RoundTrip(fmt: Format, records: seq<seq<string>>) returns (table: seq<seq<string>>)
    requires Ascii(fmt)
    ensures table == records <==> Readable(fmt, records)
  {
    var text := WriteAll(fmt, records);
    table := ReadText(fmt, text, Table(fmt, records));
    if Readable(fmt, records) {
      TableKeeps(fmt, records);
      DeliveredAtMost(Table(fmt, records));
    } else {
      UnreadableDiffers(fmt, records);
    }
  }
}
