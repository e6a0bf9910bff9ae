/** Text without a newline at its end: what the parser records of the last row when it is told that this is the end. */
module CsvOpen {
  import opened CsvFlags
  import opened CsvParser
  import opened CsvText
  import opened CsvRows
  import opened CsvTable
  import opened CsvWindow

  /** A row without its newline. */
  function OpenText(fmt: Format, row: seq<Field>): string
    requires row != []
  {
    FieldText(fmt, row[0]) + (if |row| == 1 then "" else [fmt.delim] + OpenText(fmt, row[1..]))
  }

  lemma {:induction false} OpenTextIs(fmt: Format, row: seq<Field>)
    requires row != []
    ensures RowText(fmt, row) == OpenText(fmt, row) + "\n"
  {
    var f := FieldText(fmt, row[0]);
    if |row| > 1 {
      OpenTextIs(fmt, row[1..]);
      var tail := OpenText(fmt, row[1..]);
      assert f + ([fmt.delim] + (tail + "\n")) == (f + ([fmt.delim] + tail)) + "\n";
    } else {
      assert f + "" == f;
    }
  }

  // ---- The last field ----

  /** An empty field in quotes is not noticed at the end of the text. */
  predicate Unnoticed(f: Field) {
    f == Quoted("")
  }

  /** What is read of the last field before the end: all of it but a closing quote. */
  lemma LastFieldRead(fmt: Format, text: string, s: State, f: Field)
    requires fmt.Proper() && Fresh(s) && ValidField(fmt, f) && At(text, s.pos, FieldText(fmt, f)) && s.pos + |FieldText(fmt, f)| == |text|
    ensures var e, a := Run(fmt, text, s), AfterField(fmt, s, f);
            e == a.(pos := e.pos, quoteEscape := e.quoteEscape)
  {
    if f.Plain? {
      PlainToEnd(fmt, text, s, f);
    } else {
      QuotedText(fmt, text, s.pos, f.value);
      OverOpening(fmt, text, s);
      QuotedToEnd(fmt, text, Begun(s), f.value);
    }
  }

  lemma PlainToEnd(fmt: Format, text: string, s: State, f: Field)
    requires fmt.Proper() && Fresh(s) && f.Plain? && ValidField(fmt, f) && At(text, s.pos, f.value) && s.pos + |f.value| == |text|
    ensures Run(fmt, text, s) == AfterField(fmt, s, f)
  {
    if f.value != "" {
      forall i | s.pos <= i < |text|
        ensures KindOf(fmt, text[i], false).Ordinary?
      {
        AtIndex(text, s.pos, f.value, i - s.pos);
      }
      RunEndIs(fmt, text, s.pos, |text|, false);
      assert KindOf(fmt, text[s.pos], false).Ordinary?;
    }
  }

  /** A separator stands before the position if and only if fields of the row have been read already. */
  predicate Behind(fmt: Format, text: string, p: nat, some: bool) {
    p <= |text| && (some <==> p > 0 && KindOf(fmt, text[p - 1], false).Separator?)
  }

  /** Whether there is anything to record of the last field. */
  predicate Flushes(fmt: Format, text: string, f: Field) {
    FieldLength(fmt, f) > 0 || (text != [] && KindOf(fmt, text[|text| - 1], false).Separator?)
  }

  function FieldLength(fmt: Format, f: Field): nat {
    if f.Plain? then |f.value| else |Double(fmt, f.value)|
  }

  lemma FlushesIf(fmt: Format, text: string, p: nat, f: Field, some: bool)
    requires fmt.Proper() && ValidField(fmt, f) && At(text, p, FieldText(fmt, f)) && p + |FieldText(fmt, f)| == |text| && Behind(fmt, text, p, some)
    ensures Flushes(fmt, text, f) <==> !Unnoticed(f) && (f == Plain("") ==> some)
  {
    if f.Quoted? {
      DoubleStarts(fmt, f.value);
      QuotedText(fmt, text, p, f.value);
      AtSplit(text, p + 1, Double(fmt, f.value), [fmt.quote]);
      AtIndex(text, |text| - 1, [fmt.quote], 0);
    }
  }

  // ---- The last row ----

  /** The fields that are recorded of it. */
  function Flushed(row: seq<Field>): seq<Field>
    requires row != []
  {
    if Unnoticed(row[|row| - 1]) then row[..|row| - 1]
    else if Blank(row) then []
    else row
  }

  /** From `s` to the end `all` fields of the row are recorded, and the row if there are any. */
  ghost predicate RowFlushed(fmt: Format, text: string, s: State, e: State, all: seq<string>) {
    && s.fields <= e.fields && e.rows == (if all == [] then s.rows else s.rows + [Row(s.rowStart, s.fieldsStart, |all|)])
    && Holds(fmt, text, s.rowStart, e.fields, s.fieldsStart, all)
  }

  /** `end_feed` after the field. */
  lemma EndFeedIs(fmt: Format, text: string, s: State, e: State, f: Field)
    requires Fresh(s) && var a := AfterField(fmt, s, f); e == a.(pos := e.pos, quoteEscape := e.quoteEscape)
    ensures var r := EndFeed(fmt, text, e);
            var fields := if Flushes(fmt, text, f) then s.fields + [Recorded(AfterField(fmt, s, f))] else s.fields;
            && r.fields == fields
            && r.rows == if |fields| > s.fieldsStart then s.rows + [Row(s.rowStart, s.fieldsStart, |fields| - s.fieldsStart)] else s.rows
  {
  }

  lemma RowFlushedIs(fmt: Format, text: string, s: State, r: State, raw: RawField, v: string, done: seq<string>, flushes: bool)
    requires InRow(fmt, text, s, done) && ReadsAs(fmt, text, s.rowStart, raw, v)
    requires r.fields == if flushes then s.fields + [raw] else s.fields
    requires r.rows == if |r.fields| > s.fieldsStart then s.rows + [Row(s.rowStart, s.fieldsStart, |r.fields| - s.fieldsStart)] else s.rows
    ensures RowFlushed(fmt, text, s, r, if flushes then done + [v] else done)
  {
    HoldsMore(fmt, text, s.rowStart, s.fields, s.fieldsStart, done, raw, v);
  }

  lemma LastFieldFlushed(fmt: Format, text: string, s: State, f: Field, done: seq<string>)
    requires fmt.Proper() && InRow(fmt, text, s, done) && ValidField(fmt, f)
    requires At(text, s.pos, FieldText(fmt, f)) && s.pos + |FieldText(fmt, f)| == |text| && Behind(fmt, text, s.pos, done != [])
    ensures var all := if Unnoticed(f) || (f == Plain("") && done == []) then done else done + [f.value];
            RowFlushed(fmt, text, s, EndFeed(fmt, text, Run(fmt, text, s)), all)
  {
    LastFieldRead(fmt, text, s, f);
    FlushesIf(fmt, text, s.pos, f, done != []);
    LastRead(fmt, text, s, Run(fmt, text, s), f, done);
  }

  lemma LastRead(fmt: Format, text: string, s: State, e: State, f: Field, done: seq<string>)
    requires InRow(fmt, text, s, done) && ValidField(fmt, f) && At(text, s.pos, FieldText(fmt, f))
    requires var a := AfterField(fmt, s, f); e == a.(pos := e.pos, quoteEscape := e.quoteEscape)
    ensures RowFlushed(fmt, text, s, EndFeed(fmt, text, e), if Flushes(fmt, text, f) then done + [f.value] else done)
  {
    FieldReadsBack(fmt, text, s, f);
    EndFeedIs(fmt, text, s, e, f);
    RowFlushedIs(fmt, text, s, EndFeed(fmt, text, e), Recorded(AfterField(fmt, s, f)), f.value, done, Flushes(fmt, text, f));
  }

  lemma OpenTextSplits(fmt: Format, text: string, p: nat, row: seq<Field>)
    requires fmt.Proper() && |row| > 1 && At(text, p, OpenText(fmt, row))
    ensures var e := p + |FieldText(fmt, row[0])|;
            && At(text, p, FieldText(fmt, row[0])) && e < |text| && text[e] == fmt.delim && At(text, e + 1, OpenText(fmt, row[1..]))
            && e + 1 + |OpenText(fmt, row[1..])| == p + |OpenText(fmt, row)|
  {
    var f, tail := FieldText(fmt, row[0]), OpenText(fmt, row[1..]);
    AtSplit(text, p, f, [fmt.delim] + tail);
    AtSplit(text, p + |f|, [fmt.delim], tail);
    AtIndex(text, p + |f|, [fmt.delim], 0);
  }

  /** `all` are the values of the fields that are recorded of the whole row. */
  lemma {:induction false} RowIsFlushed(fmt: Format, text: string, s: State, row: seq<Field>, done: seq<string>, all: seq<string>)
    requires fmt.Proper() && ValidRow(fmt, row) && InRow(fmt, text, s, done) && Behind(fmt, text, s.pos, done != [])
    requires At(text, s.pos, OpenText(fmt, row)) && s.pos + |OpenText(fmt, row)| == |text|
    requires all == done + (if done != [] && Blank(row) then [""] else Values(Flushed(row)))
    ensures RowFlushed(fmt, text, s, EndFeed(fmt, text, Run(fmt, text, s)), all)
    decreases |row|
  {
    if |row| == 1 {
      assert FieldText(fmt, row[0]) + "" == FieldText(fmt, row[0]);
      LastFieldFlushed(fmt, text, s, row[0], done);
      LastValues(row, done, all);
    } else {
      var s' := NextOpen(fmt, text, s, row, done);
      NextValues(row, done, all);
      RowIsFlushed(fmt, text, s', row[1..], done + [row[0].value], all);
      FlushedFrom(fmt, text, s, row[0], EndFeed(fmt, text, Run(fmt, text, s')), all);
    }
  }

  /** Behind the first field. */
  lemma NextOpen(fmt: Format, text: string, s: State, row: seq<Field>, done: seq<string>) returns (s': State)
    requires fmt.Proper() && ValidRow(fmt, row) && InRow(fmt, text, s, done) && |row| > 1
    requires At(text, s.pos, OpenText(fmt, row)) && s.pos + |OpenText(fmt, row)| == |text|
    ensures s' == EndField(AfterField(fmt, s, row[0])) && InRow(fmt, text, s', done + [row[0].value]) && Behind(fmt, text, s'.pos, true)
    ensures At(text, s'.pos, OpenText(fmt, row[1..])) && s'.pos + |OpenText(fmt, row[1..])| == |text|
    ensures Run(fmt, text, s) == Run(fmt, text, s')
  {
    OpenTextSplits(fmt, text, s.pos, row);
    s' := PastFirst(fmt, text, s, row[0], done);
  }

  lemma PastFirst(fmt: Format, text: string, s: State, f: Field, done: seq<string>) returns (s': State)
    requires fmt.Proper() && ValidField(fmt, f) && InRow(fmt, text, s, done) && At(text, s.pos, FieldText(fmt, f))
    requires s.pos + |FieldText(fmt, f)| < |text| && text[s.pos + |FieldText(fmt, f)|] == fmt.delim
    ensures s' == EndField(AfterField(fmt, s, f)) && InRow(fmt, text, s', done + [f.value]) && Behind(fmt, text, s'.pos, true)
    ensures s'.pos == s.pos + |FieldText(fmt, f)| + 1 && Run(fmt, text, s) == Run(fmt, text, s')
  {
    FieldDone(fmt, text, s, f, done);
    AfterFieldIs(fmt, s, f);
    OverSeparator(fmt, text, s, f);
    s' := EndField(AfterField(fmt, s, f));
  }

  lemma LastValues(row: seq<Field>, done: seq<string>, all: seq<string>)
    requires |row| == 1 && all == done + (if done != [] && Blank(row) then [""] else Values(Flushed(row)))
    ensures all == if Unnoticed(row[0]) || (row[0] == Plain("") && done == []) then done else done + [row[0].value]
  {
    assert row == [row[0]];
    assert done + [] == done;
  }

  lemma NextValues(row: seq<Field>, done: seq<string>, all: seq<string>)
    requires |row| > 1 && all == done + (if done != [] && Blank(row) then [""] else Values(Flushed(row)))
    ensures var done' := done + [row[0].value];
            all == done' + (if done' != [] && Blank(row[1..]) then [""] else Values(Flushed(row[1..])))
  {
    if Unnoticed(row[|row| - 1]) {
      assert row[1..][..|row| - 2] == row[..|row| - 1][1..];
      ValuesCons(row[..|row| - 1], done);
    } else {
      ValuesCons(row, done);
    }
  }

  lemma FlushedFrom(fmt: Format, text: string, s: State, f: Field, e: State, all: seq<string>)
    requires Fresh(s) && RowFlushed(fmt, text, EndField(AfterField(fmt, s, f)), e, all)
    ensures RowFlushed(fmt, text, s, e, all)
  {
    AfterFieldIs(fmt, s, f);
  }

  // ---- The whole text ----

  /** A table whose last row is read without its newline: an empty field in quotes at the end is lost, and the row if
      it has no other fields. */
  function Open(table: seq<seq<Field>>): seq<seq<Field>> {
    if table == [] then []
    else
      var n := |table| - 1;
      table[..n] + if table[n] == [] || Flushed(table[n]) == [] then [] else [Flushed(table[n])]
  }

  /** A row that does not look like an empty line, or is the first, is delivered whatever stands before it. */
  lemma {:induction false} DeliveredLast(rows: seq<seq<Field>>)
    requires rows != [] && (Blank(rows[|rows| - 1]) ==> |rows| == 1)
    ensures Delivered(rows) == Delivered(rows[..|rows| - 1]) + [rows[|rows| - 1]]
    decreases |rows|
  {
    var n, t := |rows| - 1, Taken(rows);
    if n > 0 {
      DeliveredLast(rows[t..]);
      assert rows[t..][..|rows[t..]| - 1] == rows[..n][t..];
    }
  }

  lemma OpenClear(fmt: Format, text: string, p: nat, row: seq<Field>)
    requires fmt.Proper() && ValidRow(fmt, row) && At(text, p, OpenText(fmt, row)) && p + |OpenText(fmt, row)| == |text|
    ensures !Blank(row) || p == |text| ==> ClearAt(fmt, text, p)
  {
    OpenTextIs(fmt, row);
    RowBegins(fmt, row);
    if p < |text| {
      AtIndex(text, p, OpenText(fmt, row), 0);
    }
  }

  /** The last row, behind others or alone. */
  lemma LastRowFlushed(fmt: Format, text: string, s: State, row: seq<Field>, table: seq<seq<Field>>)
    requires fmt.Proper() && ValidRow(fmt, row) && Between(s) && Behind(fmt, text, s.pos, false)
    requires At(text, s.pos, OpenText(fmt, row)) && s.pos + |OpenText(fmt, row)| == |text|
    requires RowsHold(fmt, text, s.fields, s.rows, table)
    ensures var e := EndFeed(fmt, text, Run(fmt, text, s));
            RowsHold(fmt, text, e.fields, e.rows, Open(table + [row]))
  {
    var all := Values(Flushed(row));
    WholeRowFlushed(fmt, text, s, row, all);
    OneRowMore(fmt, text, s, EndFeed(fmt, text, Run(fmt, text, s)), row, all, table);
  }

  lemma WholeRowFlushed(fmt: Format, text: string, s: State, row: seq<Field>, all: seq<string>)
    requires fmt.Proper() && ValidRow(fmt, row) && Between(s) && Behind(fmt, text, s.pos, false) && all == Values(Flushed(row))
    requires At(text, s.pos, OpenText(fmt, row)) && s.pos + |OpenText(fmt, row)| == |text|
    ensures RowFlushed(fmt, text, s, EndFeed(fmt, text, Run(fmt, text, s)), all)
  {
    assert [] + all == all;
    RowIsFlushed(fmt, text, s, row, [], all);
  }

  lemma OneRowMore(fmt: Format, text: string, s: State, e: State, row: seq<Field>, all: seq<string>, table: seq<seq<Field>>)
    requires row != [] && all == Values(Flushed(row)) && RowFlushed(fmt, text, s, e, all) && RowsHold(fmt, text, s.fields, s.rows, table)
    ensures RowsHold(fmt, text, e.fields, e.rows, Open(table + [row]))
  {
    RowsHoldPrefix(fmt, text, s.fields, e.fields, s.rows, table);
    assert (table + [row])[..|table|] == table && table + [] == table;
  }

  /** The state behind the rows before the last. */
  lemma BeforeLast(fmt: Format, text: string, s: State, rows: seq<seq<Field>>, m: nat) returns (s': State)
    requires fmt.Proper() && ValidRows(fmt, rows) && rows != [] && LeavesAt(fmt, text, s.pos, rows, m) && ClearAt(fmt, text, m)
    requires Between(s) && s.rows == []
    ensures AtBoundary(s') && s'.pos == m && RowsHold(fmt, text, s'.fields, s'.rows, Delivered(rows))
    ensures Run(fmt, text, s) == Run(fmt, text, s')
  {
    TextIsTable(fmt, text, s.pos, rows, m);
    var recorded := RowsAreDone(fmt, text, s, rows, m);
    OverRows(fmt, text, s, rows, m);
    s' := AfterRows(fmt, text, s, rows);
  }

  lemma BehindNewline(fmt: Format, text: string, q: nat, rows: seq<seq<Field>>, e: nat)
    requires fmt.Proper() && rows != [] && LeavesAt(fmt, text, q, rows, e)
    ensures Behind(fmt, text, e, false)
  {
    var lines := TextsOf(fmt, rows);
    StandsAlike(fmt, text, q, rows, lines, e);
    TextsEnded(fmt, rows, lines);
    EndsWithNewline(text, q, lines, e);
  }

  /** What is recorded of a text whose last row lacks the newline. */
  lemma OpenParsed(fmt: Format, text: string, s: State, rows: seq<seq<Field>>, m: nat)
    requires fmt.Proper() && ValidRows(fmt, rows) && rows != [] && (Blank(rows[|rows| - 1]) ==> |rows| == 1)
    requires Between(s) && s.rows == [] && (|rows| == 1 ==> Behind(fmt, text, s.pos, false))
    requires LeavesAt(fmt, text, s.pos, rows[..|rows| - 1], m)
    requires At(text, m, OpenText(fmt, rows[|rows| - 1])) && m + |OpenText(fmt, rows[|rows| - 1])| == |text|
    ensures var e := EndFeed(fmt, text, Run(fmt, text, s));
            RowsHold(fmt, text, e.fields, e.rows, Open(Delivered(rows)))
  {
    var n := |rows| - 1;
    DeliveredLast(rows);
    if n == 0 {
      assert rows[..0] == [] && Delivered(rows[..0]) == [];
      LastRowFlushed(fmt, text, s, rows[0], []);
    } else {
      OpenClear(fmt, text, m, rows[n]);
      BehindNewline(fmt, text, s.pos, rows[..n], m);
      var s' := BeforeLast(fmt, text, s, rows[..n], m);
      LastRowFlushed(fmt, text, s', rows[n], Delivered(rows[..n]));
    }
  }
}
