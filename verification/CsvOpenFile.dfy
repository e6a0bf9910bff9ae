/** Reading files that do not end in a newline. */
module CsvOpenFile {
  import opened CsvFlags
  import opened CsvParser
  import opened CsvText
  import opened CsvTable
  import opened CsvBom
  import opened CsvReader
  import opened CsvBounds
  import opened CsvWindow
  import opened CsvMmap
  import opened CsvWriter
  import opened CsvOpen

  // ---- What is delivered ----

  /** The rows that are read when the newline behind the last one is missing. */
  function Unended(rows: seq<seq<Field>>): seq<seq<Field>>
    requires rows != []
  {
    if Blank(rows[|rows| - 1]) then Delivered(rows[..|rows| - 1]) else Open(Delivered(rows))
  }

  /** Nothing is lost: the last field is not an empty one in quotes, and the last row is not an empty line that would
      have been delivered. */
  predicate Safe(rows: seq<seq<Field>>)
    requires rows != []
  {
    var row := rows[|rows| - 1];
    row != [] && !Unnoticed(row[|row| - 1]) && (Blank(row) ==> Delivered(rows) == Delivered(rows[..|rows| - 1]))
  }

  lemma {:induction false} DeliveredOrNot(rows: seq<seq<Field>>)
    requires rows != []
    ensures var d, n := Delivered(rows[..|rows| - 1]), |rows| - 1;
            Delivered(rows) == d || Delivered(rows) == d + [rows[n]]
    decreases |rows|
  {
    var n, t := |rows| - 1, Taken(rows);
    if t <= n {
      DeliveredOrNot(rows[t..]);
      assert rows[t..][..|rows[t..]| - 1] == rows[..n][t..];
    } else if n == 1 {
      assert rows[..1] == [rows[0]] && rows[2..] == [] && [rows[0]][1..] == [];
    }
  }

  /** The missing newline does not matter if and only if nothing is lost. */
  lemma UnendedIsWhole(rows: seq<seq<Field>>)
    requires rows != [] && rows[|rows| - 1] != []
    ensures TableValues(Unended(rows)) == TableValues(Delivered(rows)) <==> Safe(rows)
  {
    var n := |rows| - 1;
    if Blank(rows[n]) {
      DeliveredOrNot(rows);
      assert |Delivered(rows)| == |Delivered(rows[..n])| ==> Delivered(rows) == Delivered(rows[..n]);
    } else {
      DeliveredLast(rows);
      OpenOrNot(Delivered(rows[..n]), rows[n]);
    }
  }

  lemma OpenOrNot(table: seq<seq<Field>>, row: seq<Field>)
    requires row != [] && !Blank(row)
    ensures TableValues(Open(table + [row])) == TableValues(table + [row]) <==> !Unnoticed(row[|row| - 1])
  {
    var whole := table + [row];
    assert whole[..|table|] == table;
    if Unnoticed(row[|row| - 1]) {
      if Flushed(row) != [] {
        assert Open(whole)[|table|] == Flushed(row) && |Values(Flushed(row))| < |Values(row)|;
        assert TableValues(Open(whole))[|table|] != TableValues(whole)[|table|];
      }
    } else {
      assert Open(whole) == whole;
    }
  }

  // ---- In one go ----

  lemma OpenRowsText(fmt: Format, rows: seq<seq<Field>>)
    requires rows != [] && rows[|rows| - 1] != []
    ensures var n := |rows| - 1;
            RowsText(fmt, rows) == RowsText(fmt, rows[..n]) + OpenText(fmt, rows[n]) + "\n"
  {
    var n := |rows| - 1;
    assert rows == rows[..n] + [rows[n]];
    RowsTextConcat(fmt, rows[..n], [rows[n]]);
    assert RowsText(fmt, [rows[n]]) == RowText(fmt, rows[n]) + RowsText(fmt, []) by {
      assert [rows[n]][1..] == [];
    }
    OpenTextIs(fmt, rows[n]);
    Join3(RowsText(fmt, rows[..n]), OpenText(fmt, rows[n]), "\n");
  }

  lemma SameBom(text: string)
    ensures HasBom(text + "\n") <==> HasBom(text)
  {
    if |text| >= 3 {
      assert (text + "\n")[..3] == text[..3];
    } else {
      assert |text| == 2 ==> (text + "\n")[..3][2] == '\n';
    }
  }

  /** Where the rows stand, behind a byte-order mark perhaps. */
  lemma OpenStands(fmt: Format, text: string, b: nat, rows: seq<seq<Field>>) returns (m: nat)
    requires ValidRows(fmt, rows) && rows != [] && b <= |text| && text[b..] + "\n" == RowsText(fmt, rows)
    ensures var n := |rows| - 1;
            && LeavesAt(fmt, text, b, rows[..n], m)
            && At(text, m, OpenText(fmt, rows[n])) && m + |OpenText(fmt, rows[n])| == |text|
  {
    var n := |rows| - 1;
    assert ValidRow(fmt, rows[n]);
    OpenRowsText(fmt, rows);
    m := OpenPlaces(fmt, text, b, rows[..n], rows[n], RowsText(fmt, rows[..n]), OpenText(fmt, rows[n]));
  }

  lemma OpenPlaces(fmt: Format, text: string, b: nat, rows: seq<seq<Field>>, row: seq<Field>, front: string, last: string) returns (m: nat)
    requires row != [] && b <= |text| && front == RowsText(fmt, rows) && last == OpenText(fmt, row) && text[b..] + "\n" == front + last + "\n"
    ensures LeavesAt(fmt, text, b, rows, m) && At(text, m, last) && m + |last| == |text|
  {
    TwoParts(text, b, front, last);
    FrontLeaves(fmt, text, b, rows, front);
    m := b + |front|;
  }

  lemma FrontLeaves(fmt: Format, text: string, b: nat, rows: seq<seq<Field>>, front: string)
    requires front == RowsText(fmt, rows) && At(text, b, front)
    ensures LeavesAt(fmt, text, b, rows, b + |front|)
  {
    TextLeaves(fmt, text, b, rows);
  }

  lemma TwoParts(text: string, b: nat, front: string, last: string)
    requires b <= |text| && text[b..] + "\n" == front + last + "\n"
    ensures At(text, b, front) && At(text, b + |front|, last) && b + |front| + |last| == |text|
  {
    SameStart(text[b..], front + last);
    SuffixAt(text, b, front + last);
    AtSplit(text, b, front, last);
  }

  lemma SuffixAt(text: string, b: nat, t: string)
    requires b <= |text| && text[b..] == t
    ensures At(text, b, t) && b + |t| == |text|
  {
    assert text[b..b + |t|] == t;
    SliceAt(text, b, t);
  }

  lemma SameStart(a: string, b: string)
    requires a + "\n" == b + "\n"
    ensures a == b
  {
    assert a == (a + "\n")[..|a|] && b == (b + "\n")[..|b|];
  }

  /** The text begins with a byte-order mark if and only if it does with the newline. */
  lemma OpenBom(fmt: Format, text: string, rows: seq<seq<Field>>)
    requires Ascii(fmt) && ValidRows(fmt, rows) && rows != [] && text + "\n" == RowsText(fmt, rows)
    ensures HasBom(text) <==> BomFirst(rows)
    ensures ValidRows(fmt, Trimmed(rows)) && |Trimmed(rows)| == |rows|
    ensures var b := if HasBom(text) then 3 else 0;
            && b <= |text| && text[b..] + "\n" == RowsText(fmt, Trimmed(rows)) && Behind(fmt, text, b, false)
  {
    SameBom(text);
    BomIsFirst(fmt, rows);
    TrimmedValid(fmt, rows);
    if BomFirst(rows) {
      TrimmedText(fmt, rows);
      BehindBomMark(fmt, text);
      StripThree(text, RowsText(fmt, Trimmed(rows)));
    } else {
      assert text[0..] == text;
    }
  }

  lemma BehindBomMark(fmt: Format, text: string)
    requires Ascii(fmt) && HasBom(text)
    ensures Behind(fmt, text, 3, false)
  {
    assert text[2] == text[..3][2];
  }

  lemma StripThree(text: string, rest: string)
    requires HasBom(text) && text + "\n" == Bom + rest
    ensures text[3..] + "\n" == rest
  {
    assert text[3..] + "\n" == (text + "\n")[3..] == (Bom + rest)[3..] == rest;
  }

  /** What is recorded of a text without its last newline. */
  lemma UnendedParsed(fmt: Format, text: string, s: State, rows: seq<seq<Field>>)
    requires Ascii(fmt) && ValidRows(fmt, rows) && rows != [] && text + "\n" == RowsText(fmt, rows)
    requires Between(s) && s.rowStart == 0 && s.pos == (if HasBom(text) then 3 else 0) && s.rows == []
    ensures ValidRows(fmt, Trimmed(rows)) && Trimmed(rows) != []
    ensures var e := EndFeed(fmt, text, Run(fmt, text, s));
            RowsHold(fmt, text, e.fields, e.rows, Unended(Trimmed(rows)))
  {
    OpenBom(fmt, text, rows);
    if |rows| > 1 && Blank(rows[|rows| - 1]) {
      BlankEnd(fmt, text, rows);
      BlankParsed(fmt, text, s, rows);
    } else {
      NotBlankParsed(fmt, text, s, rows);
    }
  }

  lemma BlankParsed(fmt: Format, text: string, s: State, rows: seq<seq<Field>>)
    requires Ascii(fmt) && ValidRows(fmt, rows) && |rows| > 1 && Blank(rows[|rows| - 1]) && text == RowsText(fmt, rows[..|rows| - 1])
    requires Between(s) && s.rowStart == 0 && s.pos == (if HasBom(text) then 3 else 0) && s.rows == []
    ensures var e := EndFeed(fmt, text, Run(fmt, text, s));
            RowsHold(fmt, text, e.fields, e.rows, Unended(Trimmed(rows)))
  {
    TextParsed(fmt, text, s, rows[..|rows| - 1]);
    TrimmedFront(rows);
  }

  lemma NotBlankParsed(fmt: Format, text: string, s: State, rows: seq<seq<Field>>)
    requires Ascii(fmt) && ValidRows(fmt, rows) && rows != [] && (Blank(rows[|rows| - 1]) ==> |rows| == 1) && text + "\n" == RowsText(fmt, rows)
    requires Between(s) && s.rowStart == 0 && s.pos == (if HasBom(text) then 3 else 0) && s.rows == []
    ensures Trimmed(rows) != []
    ensures var e := EndFeed(fmt, text, Run(fmt, text, s));
            RowsHold(fmt, text, e.fields, e.rows, Unended(Trimmed(rows)))
  {
    OpenBom(fmt, text, rows);
    RestParsed(fmt, text, s, Trimmed(rows));
  }

  /** The same behind the byte-order mark. */
  lemma RestParsed(fmt: Format, text: string, s: State, rows: seq<seq<Field>>)
    requires fmt.Proper() && ValidRows(fmt, rows) && rows != [] && (Blank(rows[|rows| - 1]) ==> |rows| == 1)
    requires Between(s) && s.rows == [] && s.pos <= |text| && text[s.pos..] + "\n" == RowsText(fmt, rows) && Behind(fmt, text, s.pos, false)
    ensures var e := EndFeed(fmt, text, Run(fmt, text, s));
            RowsHold(fmt, text, e.fields, e.rows, Unended(rows))
  {
    var m := OpenStands(fmt, text, s.pos, rows);
    OpenParsed(fmt, text, s, rows, m);
    if Blank(rows[|rows| - 1]) {
      OpenBlank(rows);
    }
  }

  lemma TrimmedFront(rows: seq<seq<Field>>)
    requires |rows| > 1
    ensures Trimmed(rows[..|rows| - 1]) == Trimmed(rows)[..|rows| - 1] && Trimmed(rows)[|rows| - 1] == rows[|rows| - 1]
  {
  }

  lemma OpenBlank(rows: seq<seq<Field>>)
    requires |rows| == 1 && Blank(rows[0])
    ensures Open(Delivered(rows)) == Unended(rows)
  {
    assert rows[1..] == [] && rows[..0] == [];
  }

  /** An empty line without its newline is not there at all. */
  lemma BlankEnd(fmt: Format, text: string, rows: seq<seq<Field>>)
    requires rows != [] && Blank(rows[|rows| - 1]) && text + "\n" == RowsText(fmt, rows)
    ensures text == RowsText(fmt, rows[..|rows| - 1])
  {
    var n := |rows| - 1;
    OpenRowsText(fmt, rows);
    assert OpenText(fmt, rows[n]) == "";
    SameStart(text, RowsText(fmt, rows[..n]) + "");
  }

  /** Parse a whole text that lacks its last newline.  It reads as with the newline if and only if nothing is lost. */
  method ReadUnended(fmt: Format, text: string, ghost rows: seq<seq<Field>>) returns (table: seq<seq<string>>)
    requires Ascii(fmt) && ValidRows(fmt, rows) && rows != [] && text + "\n" == RowsText(fmt, rows)
    ensures Trimmed(rows) != [] && table == TableValues(Unended(Trimmed(rows)))
    ensures table == TableValues(Delivered(Trimmed(rows))) <==> Safe(Trimmed(rows))
  {
    var p := new Parser(fmt);
    ghost var s := Start(fmt, text, p.Snapshot(), false);
    var remainder := p.Parse(text);
    UnendedParsed(fmt, text, s, rows);
    p.Finish(text);
    RecordsInside(fmt, text, s);
    table := ReadRecords(fmt, text, p.fields, p.records);
    TableRead(fmt, text, p.fields, p.records, Unended(Trimmed(rows)));
    assert ValidRow(fmt, Trimmed(rows)[|rows| - 1]);
    UnendedIsWhole(Trimmed(rows));
  }

  // ---- In windows ----

  /** All lines but the last fit into the part of the file that lacks one character. */
  lemma {:induction false} AllButOneFit(source: string, pos: nat, lines: seq<string>)
    requires lines != [] && pos < |source| && LinesAt(source, pos, lines, |source|) && lines[|lines| - 1] != []
    ensures var n := |source| - pos - 1;
            Fit(lines, n) == |lines| - 1 && FitLength(lines, n) + |lines[|lines| - 1]| == n + 1
    decreases |lines|
  {
    AtFits(source, pos, lines[0]);
    if |lines| == 1 {
      assert lines[1..] == [];
    } else {
      var q := pos + |lines[0]|;
      assert lines[1..] != [] && lines[1..][|lines| - 2] == lines[|lines| - 1];
      NotAtEnd(source, q, lines[1..]);
      AllButOneFit(source, q, lines[1..]);
    }
  }

  lemma {:induction false} NotAtEnd(source: string, pos: nat, lines: seq<string>)
    requires lines != [] && LinesAt(source, pos, lines, |source|) && lines[|lines| - 1] != []
    ensures pos < |source|
    decreases |lines|
  {
    AtFits(source, pos, lines[0]);
    if |lines| > 1 {
      assert lines[1..][|lines| - 2] == lines[|lines| - 1];
      NotAtEnd(source, pos + |lines[0]|, lines[1..]);
    }
  }

  /** The last window: whole lines, and one without its newline. */
  lemma LastIsOpen(source: string, pos: nat, data: string, lines: seq<string>)
    requires lines != [] && pos <= |source| && data == source[pos..] && LinesAt(source + "\n", pos, lines, |source| + 1)
    requires lines[|lines| - 1] != []
    ensures WindowOf(data, 0, lines, |lines| - 1, FitLength(lines, |data|))
    ensures FitLength(lines, |data|) + |lines[|lines| - 1]| == |data| + 1
  {
    AllButOneFit(source + "\n", pos, lines);
    assert data == (source + "\n")[pos..pos + |data|];
    WindowSplits(source + "\n", pos, data, 0, lines);
  }

  /** The same for the rows; at `b` a byte-order mark may have been passed. */
  lemma OpenWindow(fmt: Format, data: string, rows: seq<seq<Field>>, lines: seq<string>, bom: bool, m: nat)
    requires fmt.Proper() && ValidRows(fmt, rows) && rows != [] && Lined(fmt, rows, lines, bom)
    requires |lines| == |rows| && WindowOf(data, 0, lines, |lines| - 1, m) && m + |lines[|lines| - 1]| == |data| + 1
    ensures var n, b, m' := |rows| - 1, if bom then 3 else 0, if bom && |rows| == 1 then 3 else m;
            && LeavesAt(fmt, data, b, rows[..n], m')
            && At(data, m', OpenText(fmt, rows[n])) && m' + |OpenText(fmt, rows[n])| == |data|
  {
    var n := |rows| - 1;
    assert ValidRow(fmt, rows[n]);
    OpenTextIs(fmt, rows[n]);
    if !bom {
      assert lines[n] == RowText(fmt, rows[n]);
      StandsAlike(fmt, data, 0, rows[..n], lines[..n], m);
      CutOpen(data, m, OpenText(fmt, rows[n]));
    } else {
      var texts := Stripped(lines);
      assert texts[n] == RowText(fmt, rows[n]);
      if n > 0 {
        BehindBom(data, lines, n, m);
        StandsAlike(fmt, data, 3, rows[..n], texts[..n], m);
        CutOpen(data, m, OpenText(fmt, rows[n]));
      } else {
        assert lines[..0] == [] && rows[..0] == [];
        assert lines[0] == lines[0][..3] + RowText(fmt, rows[0]);
        CutSplit(data, 0, lines[0][..3], RowText(fmt, rows[0]));
        CutOpen(data, 3, OpenText(fmt, rows[0]));
      }
    }
  }

  lemma CutOpen(data: string, m: nat, t: string)
    requires CutAt(data, m, t + "\n") && m + |t| == |data|
    ensures At(data, m, t)
  {
    CutSplit(data, m, t, "\n");
  }

  /** What the last window delivers. */
  lemma OpenWindowDone(fmt: Format, data: string, s: State, bomScanned: bool, rows: seq<seq<Field>>, lines: seq<string>, bom: bool, m: nat)
    requires fmt.Proper() && ValidRows(fmt, rows) && rows != [] && Lined(fmt, rows, lines, bom)
    requires |lines| == |rows| && WindowOf(data, 0, lines, |lines| - 1, m) && m + |lines[|lines| - 1]| == |data| + 1
    requires (bom <==> !bomScanned && HasBom(data)) && (bom ==> Ascii(fmt)) && (Blank(rows[|rows| - 1]) ==> |rows| == 1)
    ensures var e := Parsed(fmt, data, s, bomScanned, true);
            RowsHold(fmt, data, e.fields, e.rows, Open(Delivered(rows))) && RowsInside(data, e.fields, e.rows)
  {
    var s', m' := Start(fmt, data, Cleared(s), bomScanned), if bom && |rows| == 1 then 3 else m;
    StartsClear(fmt, data, s, bomScanned);
    RecordsInside(fmt, data, s');
    OpenWindow(fmt, data, rows, lines, bom, m);
    if bom {
      BehindBomMark(fmt, data);
    }
    OpenParsed(fmt, data, s', rows, m');
  }

  /** All rows but the last end with a newline, and every line fits into the window as it stands. */
  ghost predicate OpenJob(fmt: Format, source: string, bytes: nat, rows: seq<seq<Field>>, lines: seq<string>) {
    && Job(fmt, source + "\n", rows, lines) && |lines| == |rows| >= 1 && (HasBom(source) ==> Ascii(fmt))
    && (Blank(rows[|rows| - 1]) ==> |rows| == 1)
    && (forall i {:trigger lines[i]} :: 0 <= i < |rows| - 1 ==> |lines[i]| <= bytes) && |lines[|rows| - 1]| <= bytes + 1
  }

  /** What a call delivers: rows, or the rest of them. */
  ghost predicate CalledOpen(source: string, bytes: nat, rows: seq<seq<Field>>, lines: seq<string>, pos: nat, pos': nat,
                             scanned': bool, j: nat, j': nat, more: seq<seq<string>>, ends: bool) {
    && j < |rows|
    && if pos + bytes < |source| then
         Called(source + "\n", if ends then |source| + 2 else 0, bytes, rows, lines, pos, pos', scanned', j, j', more, ends)
       else ends && more == TableValues(Open(Delivered(rows[j..])))
  }

  /** The rest of the lines, when the window reaches the end. */
  lemma LastCall(fmt: Format, source: string, pos: nat, bytes: nat, data: string, s: State, scanned: bool,
                 rows: seq<seq<Field>>, lines: seq<string>, j: nat)
    requires OpenJob(fmt, source, bytes, rows, lines) && j < |rows| && Reached(source + "\n", pos, bytes, scanned, lines, j)
    requires pos <= |source| && data == source[pos..] && |data| <= bytes
    ensures var e := Parsed(fmt, data, s, scanned, true);
            RowsHold(fmt, data, e.fields, e.rows, Open(Delivered(rows[j..]))) && RowsInside(data, e.fields, e.rows)
  {
    var bom := HasBom(source) && j == 0;
    SameBom(source);
    RowsFrom(fmt, rows, lines, HasBom(source), j);
    assert lines[|lines| - 1] != [];
    LastIsOpen(source, pos, data, lines[j..]);
    if j == 0 {
      assert source[0..] == source;
    }
    OpenWindowDone(fmt, data, s, scanned, rows[j..], lines[j..], bom, FitLength(lines[j..], |data|));
  }

  /** There is a whole line left as long as the window does not reach the end. */
  lemma WholeLineLeft(source: string, pos: nat, bytes: nat, lines: seq<string>, j: nat)
    requires j < |lines| && LinesAt(source + "\n", pos, lines[j..], |source| + 1) && pos + bytes < |source|
    requires |lines[|lines| - 1]| <= bytes + 1
    ensures j < |lines| - 1
  {
    assert lines[j..][1..] == lines[j + 1..];
  }

  /** What the parser has recorded at the end of the window. */
  ghost predicate Opened(fmt: Format, source: string, bytes: nat, rows: seq<seq<Field>>, lines: seq<string>, pos: nat, data: string,
                         e: State, complete: nat, ends: bool, j: nat, j': nat) {
    && RowsInside(data, e.fields, e.rows) && j < |rows| == |lines|
    && if pos + bytes < |source| then
         && j <= j' <= |rows| && j' == j + Fit(lines[j..], |data|) && complete == FitLength(lines[j..], |data|)
         && WindowDone(fmt, data, e, rows[j..], j' - j) && (!ends ==> |e.rows| == |Delivered(rows[j..][..j' - j])|)
         && Ended(lines[j..]) && NextWithin(lines[j..], bytes)
       else RowsHold(fmt, data, e.fields, e.rows, Open(Delivered(rows[j..])))
  }

  lemma WindowOpened(fmt: Format, source: string, bytes: nat, rows: seq<seq<Field>>, lines: seq<string>, pos: nat, data: string,
                     s: State, scanned: bool, ends: bool, j: nat) returns (j': nat)
    requires OpenJob(fmt, source, bytes, rows, lines) && j < |rows| && pos <= |source|
    requires Reached(source + "\n", pos, bytes, scanned, lines, j) && data == WindowAt(source, pos, bytes)
    requires pos + bytes >= |source| ==> ends
    ensures Opened(fmt, source, bytes, rows, lines, pos, data, Parsed(fmt, data, s, scanned, ends), Complete(fmt, data, s, scanned), ends, j, j')
  {
    j' := j;
    if pos + bytes < |source| {
      WholeLineLeft(source, pos, bytes, lines, j);
      assert data == WindowAt(source + "\n", pos, bytes);
      assert lines[j..][0] == lines[j];
      j' := WindowAfter(fmt, source + "\n", pos, bytes, data, s, scanned, ends, rows, lines, j);
    } else {
      LastCall(fmt, source, pos, bytes, data, s, scanned, rows, lines, j);
    }
  }

  lemma OpenedRead(fmt: Format, source: string, bytes: nat, rows: seq<seq<Field>>, lines: seq<string>, pos: nat, data: string,
                   e: State, complete: nat, ends: bool, scanned: bool, scanned': bool, j: nat, j': nat, more: seq<seq<string>>)
    requires Opened(fmt, source, bytes, rows, lines, pos, data, e, complete, ends, j, j') && more == RecordValues(fmt, data, e.fields, e.rows)
    requires Reached(source + "\n", pos, bytes, scanned, lines, j) && pos <= |source| && data == WindowAt(source, pos, bytes)
    requires scanned' == (scanned || |data| >= 3) && (pos + bytes >= |source| ==> ends)
    ensures CalledOpen(source, bytes, rows, lines, pos, pos + complete, scanned', j, j', more, ends)
  {
    if pos + bytes < |source| {
      assert data == WindowAt(source + "\n", pos, bytes);
      WindowRead(fmt, data, e, rows, j, j', more);
      CallDone(fmt, source + "\n", if ends then |source| + 2 else 0, bytes, rows, lines, pos, data, pos + complete, scanned', j, j', more, ends);
    } else {
      ReadsWhole(fmt, data, e.fields, e.rows, Open(Delivered(rows[j..])), more);
    }
  }

  lemma ReadsWhole(fmt: Format, data: string, fields: seq<RawField>, records: seq<Row>, table: seq<seq<Field>>, more: seq<seq<string>>)
    requires RowsHold(fmt, data, fields, records, table) && RowsInside(data, fields, records) && more == RecordValues(fmt, data, fields, records)
    ensures more == TableValues(table)
  {
    assert records[..|table|] == records;
    TableRead(fmt, data, fields, records, table);
  }

  method ReadOpenWindow(p: MmapParser, bytes: nat, ghost rows: seq<seq<Field>>, ghost lines: seq<string>, ghost j: nat)
    returns (more: seq<seq<string>>, ghost j': nat)
    requires OpenJob(p.parser.fmt, p.source, bytes, rows, lines) && j < |rows| && p.mmapPos <= |p.source|
    requires Reached(p.source + "\n", p.mmapPos, bytes, p.parser.bomScanned, lines, j) && !p.eof
    modifies p, p.parser
    ensures CalledOpen(p.source, bytes, rows, lines, old(p.mmapPos), p.mmapPos, p.parser.bomScanned, j, j', more, p.eof)
    ensures p.eof <==> old(p.mmapPos) + bytes >= |p.source| || |p.source| < p.chunk
  {
    ghost var fmt, pos, s, scanned := p.parser.fmt, p.mmapPos, p.parser.Snapshot(), p.parser.bomScanned;
    var data := p.Next(bytes);
    j' := WindowOpened(fmt, p.source, bytes, rows, lines, pos, data, s, scanned, p.eof, j);
    more := ReadRecords(p.parser.fmt, data, p.parser.fields, p.parser.records);
    OpenedRead(fmt, p.source, bytes, rows, lines, pos, data, p.parser.Snapshot(), Complete(fmt, data, s, scanned), p.eof, scanned,
               p.parser.bomScanned, j, j', more);
  }

  /** The state of the loop: `delivered` are the rows that the windows so far have delivered. */
  ghost predicate Reading(source: string, bytes: nat, rows: seq<seq<Field>>, lines: seq<string>, pos: nat, scanned: bool,
                          j: nat, delivered: seq<seq<Field>>, table: seq<seq<string>>) {
    && j < |rows| == |lines| && pos <= |source| && Reached(source + "\n", pos, bytes, scanned, lines, j)
    && Windowed(rows, lines, bytes) == delivered + Windowed(rows[j..], lines[j..], bytes) && table == TableValues(delivered)
  }

  lemma ReadsOn(source: string, bytes: nat, rows: seq<seq<Field>>, lines: seq<string>, pos: nat, scanned: bool, j: nat,
                delivered: seq<seq<Field>>, table: seq<seq<string>>, pos': nat, scanned': bool, j': nat, more: seq<seq<string>>)
    requires Reading(source, bytes, rows, lines, pos, scanned, j, delivered, table) && pos + bytes < |source|
    requires CalledOpen(source, bytes, rows, lines, pos, pos', scanned', j, j', more, false) && lines[|lines| - 1] != []
    ensures j <= j' <= |rows|
    ensures Reading(source, bytes, rows, lines, pos', scanned', j', delivered + Delivered(rows[j..j']), table + more) && pos' > pos
  {
    WindowedMore(rows, lines, bytes, j, j');
    ValuesOfBoth(delivered, Delivered(rows[j..j']));
    assert more == TableValues(Delivered(rows[j..j']));
    AppendMore(delivered, Delivered(rows[j..j']), Windowed(rows[j'..], lines[j'..], bytes));
    RestNotEmpty(source, pos', lines, j');
  }

  lemma RestNotEmpty(source: string, pos: nat, lines: seq<string>, j: nat)
    requires j < |lines| && LinesAt(source + "\n", pos, lines[j..], |source| + 1) && lines[|lines| - 1] != []
    ensures pos <= |source|
  {
    assert lines[j..][|lines[j..]| - 1] == lines[|lines| - 1];
    NotAtEnd(source + "\n", pos, lines[j..]);
  }

  /** When the window reaches the end, with the newline it would deliver all that is left. */
  lemma {:induction false} RestFits(source: string, pos: nat, lines: seq<string>, bytes: nat)
    requires lines != [] && LinesAt(source, pos, lines, |source|) && pos <= |source| <= pos + bytes + 1 && lines[|lines| - 1] != []
    ensures Fit(lines, bytes) >= |lines| - 1
    decreases |lines|
  {
    AtFits(source, pos, lines[0]);
    if |lines| > 1 {
      var q := pos + |lines[0]|;
      assert lines[1..][|lines| - 2] == lines[|lines| - 1];
      NotAtEnd(source, q, lines[1..]);
      RestFits(source, q, lines[1..], bytes - |lines[0]|);
    }
  }

  lemma WindowedRest(rows: seq<seq<Field>>, lines: seq<string>, bytes: nat)
    requires |lines| == |rows| >= 1 && Fit(lines, bytes) >= |lines| - 1 && (Blank(rows[|rows| - 1]) ==> |rows| == 1)
    ensures Windowed(rows, lines, bytes) == Delivered(rows)
  {
    var k := Fit(lines, bytes);
    if 0 < k < |rows| {
      DeliveredLast(rows);
      DeliveredLast(rows[k..]);
      assert rows[k..] == [rows[k]] && [rows[k]][..0] == [];
      assert lines[k..][1..] == [];
    }
  }

  lemma OpenBehind(a: seq<seq<Field>>, b: seq<seq<Field>>)
    requires b != []
    ensures Open(a + b) == a + Open(b)
  {
    assert (a + b)[..|a + b| - 1] == a + b[..|b| - 1];
  }

  lemma ReadsTheRest(source: string, bytes: nat, rows: seq<seq<Field>>, lines: seq<string>, pos: nat, scanned: bool, j: nat,
                     delivered: seq<seq<Field>>, table: seq<seq<string>>, more: seq<seq<string>>)
    requires Reading(source, bytes, rows, lines, pos, scanned, j, delivered, table) && pos + bytes >= |source|
    requires lines[|lines| - 1] != [] && (Blank(rows[|rows| - 1]) ==> |rows| == 1)
    requires more == TableValues(Open(Delivered(rows[j..])))
    ensures table + more == TableValues(Open(Windowed(rows, lines, bytes)))
  {
    assert lines[j..][|lines[j..]| - 1] == lines[|lines| - 1] && rows[j..][|rows[j..]| - 1] == rows[|rows| - 1];
    RestFits(source + "\n", pos, lines[j..], bytes);
    WindowedRest(rows[j..], lines[j..], bytes);
    DeliveredLast(rows[j..]);
    OpenBehind(delivered, Delivered(rows[j..]));
    ValuesOfBoth(delivered, Open(Delivered(rows[j..])));
  }

  /** Windowed reading of a file that lacks the newline behind its last row: if the windows reach the end before the parser
      reports it, the table is that of the file with the newline, but for what an open last row loses. */
  method ReadAllUnended(fmt: Format, source: string, chunk: nat, bytes: nat, ghost rows: seq<seq<Field>>) returns (table: seq<seq<string>>)
    requires fmt.Proper() && ValidRows(fmt, rows) && rows != [] && !Blank(rows[|rows| - 1]) && (Ascii(fmt) || !HasBom(source))
    requires source + "\n" == RowsText(fmt, rows)
    requires forall i :: 0 <= i < |rows| - 1 ==> |RowText(fmt, rows[i])| <= bytes
    requires |OpenText(fmt, rows[|rows| - 1])| <= bytes
    ensures Fair(source, chunk, bytes) ==> table == TableValues(Open(Windowed(Trimmed(rows), Lines(fmt, rows), bytes)))
    ensures Fair(source, chunk, bytes) ==> (table == TableValues(Windowed(Trimmed(rows), Lines(fmt, rows), bytes)) <==> Noticed(Trimmed(rows)))
    ensures !Fair(source, chunk, bytes) ==> exists j :: Partly(Trimmed(rows), j, table)
  {
    OpenJobHolds(fmt, source, rows);
    OpenWithin(fmt, rows, bytes);
    TrimmedLast(rows);
    FormOpenJob(fmt, source, bytes, Trimmed(rows), Lines(fmt, rows));
    table := ReadOpenWindows(fmt, source, chunk, bytes, Trimmed(rows), Lines(fmt, rows));
  }

  method ReadOpenWindows(fmt: Format, source: string, chunk: nat, bytes: nat, ghost rows: seq<seq<Field>>, ghost lines: seq<string>)
    returns (table: seq<seq<string>>)
    requires OpenJob(fmt, source, bytes, rows, lines) && lines[|lines| - 1] != [] && rows[|rows| - 1] != []
    ensures Fair(source, chunk, bytes) ==> table == TableValues(Open(Windowed(rows, lines, bytes)))
    ensures Fair(source, chunk, bytes) ==> (table == TableValues(Windowed(rows, lines, bytes)) <==> Noticed(rows))
    ensures !Fair(source, chunk, bytes) ==> exists j :: Partly(rows, j, table)
  {
    StartsReading(fmt, source, bytes, rows, lines);
    var p := new MmapParser(fmt, source, chunk);
    table := [];
    ghost var j: nat, delivered: seq<seq<Field>> := 0, [];
    while !p.eof
      invariant p.source == source && p.chunk == chunk && p.parser.fmt == fmt
      invariant Progress(source, chunk, bytes, rows, lines, p.mmapPos, p.parser.bomScanned, p.eof, j, delivered, table)
      decreases !p.eof, |source| - p.mmapPos
    {
      ghost var pos, scanned := p.mmapPos, p.parser.bomScanned;
      var more, j' := ReadOpenWindow(p, bytes, rows, lines, j);
      delivered := Progresses(source, chunk, bytes, rows, lines, pos, scanned, j, delivered, table, p.mmapPos, p.parser.bomScanned, p.eof, j', more);
      table := table + more;
      j := j';
    }
    WindowedNoticed(rows, lines, bytes);
  }

  /** The last row is not lost, and none of its fields. */
  predicate Noticed(rows: seq<seq<Field>>) {
    && rows != [] && rows[|rows| - 1] != []
    && var row := rows[|rows| - 1];
       !Unnoticed(row[|row| - 1]) && !Blank(row)
  }

  lemma {:induction false} WindowedLast(rows: seq<seq<Field>>, lines: seq<string>, bytes: nat)
    requires |lines| == |rows| >= 1 && (Blank(rows[|rows| - 1]) ==> |rows| == 1)
    ensures var w := Windowed(rows, lines, bytes);
            w != [] && w[|w| - 1] == rows[|rows| - 1]
    decreases |rows|
  {
    var k := Fit(lines, bytes);
    DeliveredLast(rows);
    if 0 < k < |rows| {
      assert rows[k..][|rows| - k - 1] == rows[|rows| - 1];
      WindowedLast(rows[k..], lines[k..], bytes);
    }
  }

  lemma WindowedNoticed(rows: seq<seq<Field>>, lines: seq<string>, bytes: nat)
    requires |lines| == |rows| >= 1 && (Blank(rows[|rows| - 1]) ==> |rows| == 1) && rows[|rows| - 1] != []
    ensures TableValues(Open(Windowed(rows, lines, bytes))) == TableValues(Windowed(rows, lines, bytes)) <==> Noticed(rows)
  {
    var w, row := Windowed(rows, lines, bytes), rows[|rows| - 1];
    WindowedLast(rows, lines, bytes);
    assert w == w[..|w| - 1] + [row];
    if Blank(row) {
      assert |Open(w)| < |w|;
    } else {
      OpenOrNot(w[..|w| - 1], row);
    }
  }

  ghost predicate Progress(source: string, chunk: nat, bytes: nat, rows: seq<seq<Field>>, lines: seq<string>, pos: nat, scanned: bool,
                           eof: bool, j: nat, delivered: seq<seq<Field>>, table: seq<seq<string>>) {
    && |rows| == |lines| >= 1 && lines[|lines| - 1] != [] && rows[|rows| - 1] != [] && (Blank(rows[|rows| - 1]) ==> |rows| == 1)
    && if !eof then
         && Reading(source, bytes, rows, lines, pos, scanned, j, delivered, table)
         && (!Fair(source, chunk, bytes) ==> pos == 0 && j == 0 && table == [])
       else if Fair(source, chunk, bytes) then table == TableValues(Open(Windowed(rows, lines, bytes)))
       else Partly(rows, j, table)
  }

  lemma Progresses(source: string, chunk: nat, bytes: nat, rows: seq<seq<Field>>, lines: seq<string>, pos: nat, scanned: bool, j: nat,
                   delivered: seq<seq<Field>>, table: seq<seq<string>>, pos': nat, scanned': bool, eof': bool, j': nat, more: seq<seq<string>>)
    returns (delivered': seq<seq<Field>>)
    requires Progress(source, chunk, bytes, rows, lines, pos, scanned, false, j, delivered, table)
    requires CalledOpen(source, bytes, rows, lines, pos, pos', scanned', j, j', more, eof')
    requires eof' <==> pos + bytes >= |source| || |source| < chunk
    ensures Progress(source, chunk, bytes, rows, lines, pos', scanned', eof', j', delivered', table + more) && (!eof' ==> pos' > pos)
  {
    delivered' := delivered;
    if pos + bytes >= |source| {
      ReadsTheRest(source, bytes, rows, lines, pos, scanned, j, delivered, table, more);
    } else if !eof' {
      ReadsOn(source, bytes, rows, lines, pos, scanned, j, delivered, table, pos', scanned', j', more);
      delivered' := delivered + Delivered(rows[j..j']);
    } else {
      FirstOnly(source, bytes, rows, lines, pos, pos', scanned', j', more);
    }
  }

  lemma FirstOnly(source: string, bytes: nat, rows: seq<seq<Field>>, lines: seq<string>, pos: nat, pos': nat, scanned': bool, j': nat,
                  more: seq<seq<string>>)
    requires pos + bytes < |source| && CalledOpen(source, bytes, rows, lines, pos, pos', scanned', 0, j', more, true)
    ensures Partly(rows, j', [] + more)
  {
    assert rows[0..j'] == rows[..j'] && [] + more == more;
  }

  lemma FormOpenJob(fmt: Format, source: string, bytes: nat, rows: seq<seq<Field>>, lines: seq<string>)
    requires Job(fmt, source + "\n", rows, lines) && |lines| == |rows| >= 1 && (HasBom(source) ==> Ascii(fmt))
    requires Blank(rows[|rows| - 1]) ==> |rows| == 1
    requires (forall i {:trigger lines[i]} :: 0 <= i < |rows| - 1 ==> |lines[i]| <= bytes) && |lines[|rows| - 1]| <= bytes + 1
    ensures OpenJob(fmt, source, bytes, rows, lines)
  {
  }

  lemma OpenJobHolds(fmt: Format, source: string, rows: seq<seq<Field>>)
    requires fmt.Proper() && ValidRows(fmt, rows) && (Ascii(fmt) || !HasBom(source)) && source + "\n" == RowsText(fmt, rows)
    ensures Job(fmt, source + "\n", Trimmed(rows), Lines(fmt, rows)) && LinesAt(source + "\n", 0, Lines(fmt, rows), |source| + 1)
    ensures HasBom(source + "\n") <==> HasBom(source)
  {
    var whole := source + "\n";
    SameBom(source);
    StartJob(fmt, whole, rows);
  }

  lemma StartsReading(fmt: Format, source: string, bytes: nat, rows: seq<seq<Field>>, lines: seq<string>)
    requires OpenJob(fmt, source, bytes, rows, lines)
    ensures Reading(source, bytes, rows, lines, 0, false, 0, [], [])
  {
    assert rows[0..] == rows && lines[0..] == lines;
    assert [] + Windowed(rows, lines, bytes) == Windowed(rows, lines, bytes);
  }

  lemma TrimmedLast(rows: seq<seq<Field>>)
    requires rows != [] && !Blank(rows[|rows| - 1])
    ensures |Trimmed(rows)| == |rows| && (rows[|rows| - 1] != [] ==> Trimmed(rows)[|rows| - 1] != []) && (Blank(Trimmed(rows)[|rows| - 1]) ==> |rows| == 1)
  {
  }

  lemma OpenWithin(fmt: Format, rows: seq<seq<Field>>, bytes: nat)
    requires rows != [] && rows[|rows| - 1] != []
    requires forall i :: 0 <= i < |rows| - 1 ==> |RowText(fmt, rows[i])| <= bytes
    requires |OpenText(fmt, rows[|rows| - 1])| <= bytes
    ensures var lines, n := Lines(fmt, rows), |rows| - 1;
            (forall i {:trigger lines[i]} :: 0 <= i < n ==> |lines[i]| <= bytes) && 1 <= |lines[n]| <= bytes + 1
  {
    var lines, n := Lines(fmt, rows), |rows| - 1;
    OpenTextIs(fmt, rows[n]);
    assert lines[n] == RowText(fmt, rows[n]);
    forall i | 0 <= i < n
      ensures |lines[i]| <= bytes
    {
      assert lines[i] == RowText(fmt, rows[i]);
    }
  }
}
