/** The memory-mapped parser, and the theorem that windows of any size deliver the same table. */
module CsvMmap {
  import opened CsvFlags
  import opened CsvParser
  import opened CsvText
  import opened CsvRows
  import opened CsvTable
  import opened CsvBom
  import opened CsvReader
  import opened CsvBounds
  import opened CsvWindow

  /** A new block: nothing is recorded yet.  Whether the last field of the previous block had a doubled
      quote is not forgotten. */
  function Cleared(s: State): State {
    s.(fieldStart := Uninitialized, fieldLength := 0, fields := [], rowStart := 0, fieldsStart := 0, rows := [])
  }

  /** The window at `p`: `bytes` characters, or what is left. */
  function WindowAt(source: string, p: nat, bytes: nat): (data: string)
    requires p <= |source|
    ensures |data| == if |source| - p < bytes then |source| - p else bytes
    ensures p + |data| <= |source| && data == source[p..p + |data|]
  {
    source[p..p + if |source| - p < bytes then |source| - p else bytes]
  }

  /** The state at the end of a window. */
  function Scanned(fmt: Format, data: string, s: State, bomScanned: bool): State {
    Run(fmt, data, Start(fmt, data, Cleared(s), bomScanned))
  }

  function Parsed(fmt: Format, data: string, s: State, bomScanned: bool, ends: bool): State {
    if ends then EndFeed(fmt, data, Scanned(fmt, data, s, bomScanned)) else Scanned(fmt, data, s, bomScanned)
  }

  /** The length of its complete rows. */
  function Complete(fmt: Format, data: string, s: State, bomScanned: bool): nat {
    Scanned(fmt, data, s, bomScanned).rowStart
  }

  class MmapParser {
    const source: string
    const chunk: nat          // files below this size are not read in windows
    const parser: Parser
    var mmapPos: nat
    var eof: bool

    constructor (fmt: Format, source: string, chunk: nat)
      ensures this.source == source && this.chunk == chunk && mmapPos == 0 && !eof
      ensures fresh(parser) && parser.fmt == fmt && !parser.bomScanned
    {
      this.source := source;
      this.chunk := chunk;
      parser := new Parser(fmt);
      mmapPos := 0;
      eof := false;
    }

    /** Parse the next window and go back to the end of its last complete row. */
    method Next(bytes: nat) returns (data: string)
      requires mmapPos <= |source|
      modifies this, parser
      ensures data == WindowAt(source, old(mmapPos), bytes)
      ensures var ends := old(mmapPos) + |data| == |source| || |source| < chunk;
              && parser.Snapshot() == Parsed(parser.fmt, data, old(parser.Snapshot()), old(parser.bomScanned), ends)
              && eof == (old(eof) || ends)
      ensures mmapPos == Less(old(mmapPos) + |data|, Less(|data|, Complete(parser.fmt, data, old(parser.Snapshot()), old(parser.bomScanned))))
      ensures parser.bomScanned == (old(parser.bomScanned) || |data| >= 3)
    {
      parser.fieldStart, parser.fieldLength := Uninitialized, 0;
      parser.fields, parser.records := [], [];
      parser.rowStart, parser.fieldsStart := 0, 0;
      var length := if |source| - mmapPos < bytes then |source| - mmapPos else bytes;
      data := WindowAt(source, mmapPos, bytes);
      mmapPos := mmapPos + length;
      assert parser.Snapshot() == Cleared(old(parser.Snapshot()));
      var remainder := parser.Parse(data);
      if mmapPos == |source| || |source| < chunk {
        eof := true;
        parser.Finish(data);
      }
      mmapPos := Less(mmapPos, Less(length, remainder));
    }
  }

  // ---- Reading the rows of a window ----

  function RowValues(fmt: Format, text: string, fields: seq<RawField>, row: Row): (v: seq<string>)
    requires RowInside(text, fields, row)
    ensures |v| == row.rowLength
  {
    seq(row.rowLength, i requires 0 <= i < row.rowLength => FieldValue(fmt, text, row.dataStart, fields[row.fieldsStart + i]))
  }

  /** What the recorded offsets lead to. */
  function RecordValues(fmt: Format, text: string, fields: seq<RawField>, rows: seq<Row>): (v: seq<seq<string>>)
    requires RowsInside(text, fields, rows)
    ensures |v| == |rows|
  {
    seq(|rows|, i requires 0 <= i < |rows| => assert RowInside(text, fields, rows[i]); RowValues(fmt, text, fields, rows[i]))
  }

  method ReadRow(fmt: Format, text: string, fields: seq<RawField>, row: Row) returns (r: seq<string>)
    requires RowInside(text, fields, row)
    ensures r == RowValues(fmt, text, fields, row)
  {
    r := [];
    while |r| < row.rowLength
      invariant |r| <= row.rowLength && r == RowValues(fmt, text, fields, row)[..|r|]
      decreases row.rowLength - |r|
    {
      var i := |r|;
      assert FieldInside(text, row.dataStart, fields[row.fieldsStart + i]);
      var field := GetField(fmt, text, fields, row, i);
      r := r + [field.value];
    }
  }

  method ReadRecords(fmt: Format, text: string, fields: seq<RawField>, rows: seq<Row>) returns (r: seq<seq<string>>)
    requires RowsInside(text, fields, rows)
    ensures r == RecordValues(fmt, text, fields, rows)
  {
    r := [];
    while |r| < |rows|
      invariant |r| <= |rows| && r == RecordValues(fmt, text, fields, rows)[..|r|]
      decreases |rows| - |r|
    {
      var i := |r|;
      assert RowInside(text, fields, rows[i]);
      var row := ReadRow(fmt, text, fields, rows[i]);
      r := r + [row];
    }
  }

  function TableValues(table: seq<seq<Field>>): (v: seq<seq<string>>)
    ensures |v| == |table| && forall i :: 0 <= i < |v| ==> v[i] == Values(table[i])
  {
    seq(|table|, i requires 0 <= i < |table| => Values(table[i]))
  }

  lemma HoldsRead(fmt: Format, text: string, fields: seq<RawField>, row: Row, values: seq<string>)
    requires row.rowLength == |values| && Holds(fmt, text, row.dataStart, fields, row.fieldsStart, values) && RowInside(text, fields, row)
    ensures RowValues(fmt, text, fields, row) == values
  {
    forall i | 0 <= i < |values|
      ensures RowValues(fmt, text, fields, row)[i] == values[i]
    {
      assert ReadsAs(fmt, text, row.dataStart, fields[row.fieldsStart + i], values[i]);
    }
  }

  /** Rows that hold the values of a table read as the table. */
  lemma TableRead(fmt: Format, text: string, fields: seq<RawField>, rows: seq<Row>, table: seq<seq<Field>>)
    requires |table| <= |rows| && RowsHold(fmt, text, fields, rows[..|table|], table) && RowsInside(text, fields, rows)
    ensures TableValues(table) <= RecordValues(fmt, text, fields, rows)
  {
    forall i | 0 <= i < |table|
      ensures RecordValues(fmt, text, fields, rows)[i] == TableValues(table)[i]
    {
      assert RowInside(text, fields, rows[i]) && rows[..|table|][i] == rows[i];
      HoldsRead(fmt, text, fields, rows[i], Values(table[i]));
    }
  }

  // ---- The end of the file ----

  lemma EndFeedNothing(fmt: Format, data: string, s: State)
    requires fmt.Proper() && AtBoundary(s) && (data == [] || data[|data| - 1] == '\n')
    ensures EndFeed(fmt, data, s) == s
  {
    NothingLeft(fmt, data, s);
  }

  // ---- Windows of any size ----

  /** The lines are the texts of the rows; the first one may begin with a byte-order mark that the row does not have. */
  ghost predicate Lined(fmt: Format, rows: seq<seq<Field>>, lines: seq<string>, bom: bool) {
    if bom then lines != [] && |lines[0]| > 3 && lines[0][..3] == Bom && Texts(fmt, rows, Stripped(lines)) else Texts(fmt, rows, lines)
  }

  function Stripped(lines: seq<string>): seq<string>
    requires lines != [] && |lines[0]| >= 3
  {
    [lines[0][3..]] + lines[1..]
  }

  /** The file from `pos` on consists of the rows; `lines` are their texts. */
  ghost predicate Rest(fmt: Format, source: string, pos: nat, rows: seq<seq<Field>>, lines: seq<string>, bom: bool) {
    && fmt.Proper() && ValidRows(fmt, rows) && Lined(fmt, rows, lines, bom) && Ended(lines)
    && pos <= |source| && LinesAt(source, pos, lines, |source|)
  }

  /** A piece of the file, in which the parser finds a byte-order mark if and only if there is one. */
  ghost predicate Piece(source: string, pos: nat, data: string, lines: seq<string>, bomScanned: bool, bom: bool) {
    && pos + |data| <= |source| && data == source[pos..pos + |data|]
    && (bom <==> !bomScanned && HasBom(data)) && (bom ==> lines != [] && |lines[0]| <= |data|)
  }

  lemma StartsClear(fmt: Format, data: string, s: State, bomScanned: bool)
    ensures var s', bom := Start(fmt, data, Cleared(s), bomScanned), !bomScanned && HasBom(data);
            && Between(s') && (!bom ==> AtBoundary(s')) && s'.pos == (if bom then 3 else 0)
            && s'.rows == [] && s'.fields == [] && s'.fieldsStart == 0
  {
  }

  /** The same window, behind the byte-order mark. */
  lemma BehindBom(data: string, lines: seq<string>, k: nat, m: nat)
    requires WindowOf(data, 0, lines, k, m) && k >= 1 && |lines[0]| > 3
    ensures WindowOf(data, 3, Stripped(lines), k, m)
  {
    assert lines[..k][0] == lines[0];
    assert lines[0] == lines[0][..3] + lines[0][3..];
    AtSplit(data, 0, lines[0][..3], lines[0][3..]);
    assert Stripped(lines)[..k][1..] == lines[..k][1..] && Stripped(lines)[..k][0] == lines[0][3..];
  }

  /** The parser ends with the complete rows recorded. */
  lemma WindowScanned(fmt: Format, data: string, s: State, bomScanned: bool, rows: seq<seq<Field>>, lines: seq<string>, bom: bool, k: nat, m: nat)
    requires fmt.Proper() && ValidRows(fmt, rows) && Lined(fmt, rows, lines, bom) && WindowOf(data, 0, lines, k, m)
    requires (bom <==> !bomScanned && HasBom(data)) && (bom ==> k >= 1)
    ensures var e := Scanned(fmt, data, s, bomScanned);
            && e.rowStart == m && RowsHold(fmt, data, e.fields, e.rows, Delivered(rows[..k])) && (k == |rows| ==> AtBoundary(e))
            && RowsInside(data, e.fields, e.rows) && RowsInside(data, EndFeed(fmt, data, e).fields, EndFeed(fmt, data, e).rows)
  {
    var s' := Start(fmt, data, Cleared(s), bomScanned);
    StartsClear(fmt, data, s, bomScanned);
    RecordsInside(fmt, data, s');
    if bom {
      BehindBom(data, lines, k, m);
      WindowParsed(fmt, data, s', rows, Stripped(lines), 3, k, m);
    } else {
      WindowParsed(fmt, data, s', rows, lines, 0, k, m);
    }
  }

  /** At the end of the file all rows are there and nothing is left over. */
  lemma LastWindow(fmt: Format, source: string, pos: nat, data: string, e: State, lines: seq<string>)
    requires fmt.Proper() && Ended(lines) && pos <= |source| && LinesAt(source, pos, lines, |source|)
    requires pos + |data| == |source| && data == source[pos..]
    requires Fit(lines, |data|) == |lines| ==> AtBoundary(e)
    ensures Fit(lines, |data|) == |lines| && EndFeed(fmt, data, e) == e
  {
    AllFit(source, pos, lines);
    if lines != [] {
      EndsWithNewline(source, pos, lines, |source|);
    }
    EndFeedNothing(fmt, data, e);
  }

  /** What a window delivers: its `k` rows as they should be, and perhaps one made of a row that was cut off. */
  ghost predicate WindowDone(fmt: Format, data: string, e: State, rows: seq<seq<Field>>, k: nat) {
    && k <= |rows| && |Delivered(rows[..k])| <= |e.rows| <= |Delivered(rows[..k])| + 1
    && RowsInside(data, e.fields, e.rows) && RowsHold(fmt, data, e.fields, e.rows[..|Delivered(rows[..k])|], Delivered(rows[..k]))
  }

  lemma EndedWindow(fmt: Format, data: string, e: State, rows: seq<seq<Field>>, k: nat)
    requires k <= |rows| && RowsHold(fmt, data, e.fields, e.rows, Delivered(rows[..k]))
    requires RowsInside(data, e.fields, e.rows) && RowsInside(data, EndFeed(fmt, data, e).fields, EndFeed(fmt, data, e).rows)
    ensures WindowDone(fmt, data, e, rows, k) && WindowDone(fmt, data, EndFeed(fmt, data, e), rows, k)
  {
    var f, n := EndFeed(fmt, data, e), |e.rows|;
    EndFeedAdds(fmt, data, e);
    assert f.rows[..n] == e.rows && e.rows[..n] == e.rows;
    RowsHoldPrefix(fmt, data, e.fields, f.fields, e.rows, Delivered(rows[..k]));
  }

  lemma WindowResult(fmt: Format, source: string, pos: nat, data: string, s: State, bomScanned: bool, ends: bool,
                     rows: seq<seq<Field>>, lines: seq<string>, bom: bool)
    requires Rest(fmt, source, pos, rows, lines, bom) && Piece(source, pos, data, lines, bomScanned, bom)
    ensures var k, e := Fit(lines, |data|), Parsed(fmt, data, s, bomScanned, ends);
            && Complete(fmt, data, s, bomScanned) == FitLength(lines, |data|) && WindowDone(fmt, data, e, rows, k)
            && (!ends || pos + |data| == |source| ==> |e.rows| == |Delivered(rows[..k])|) && (pos + |data| == |source| ==> k == |rows|)
  {
    var e := Scanned(fmt, data, s, bomScanned);
    WindowSplits(source, pos, data, 0, lines);
    WindowScanned(fmt, data, s, bomScanned, rows, lines, bom, Fit(lines, |data|), FitLength(lines, |data|));
    EndedWindow(fmt, data, e, rows, Fit(lines, |data|));
    if pos + |data| == |source| {
      LastWindow(fmt, source, pos, data, e, lines);
    }
  }

  /** Every line fits into the window. */
  predicate AllWithin(lines: seq<string>, bytes: nat) {
    forall i {:trigger lines[i]} :: 0 <= i < |lines| ==> |lines[i]| <= bytes
  }

  predicate NextWithin(lines: seq<string>, bytes: nat) {
    lines != [] ==> |lines[0]| <= bytes
  }

  /** The window gets on, and where it ends. */
  lemma PlanWindow(source: string, pos: nat, data: string, bytes: nat, lines: seq<string>)
    requires pos <= |source| && data == WindowAt(source, pos, bytes) && LinesAt(source, pos, lines, |source|)
    requires Ended(lines) && NextWithin(lines, bytes)
    ensures var k, m := Fit(lines, |data|), FitLength(lines, |data|);
            && (lines != [] ==> m >= 1 && k >= 1) && (pos + |data| < |source| ==> k < |lines|)
            && pos + m <= |source| && LinesAt(source, pos + m, lines[k..], |source|)
  {
    LeftAfter(source, pos, lines, |data|);
    if lines != [] {
      assert lines[0] != [] && |lines[0]| <= bytes;
      AtFits(source, pos, lines[0]);
    }
    if pos + |data| < |source| {
      SomeLeft(source, pos + FitLength(lines, |data|), lines, Fit(lines, |data|));
    }
  }

  lemma SomeLeft(source: string, pos: nat, lines: seq<string>, k: nat)
    requires k <= |lines| && LinesAt(source, pos, lines[k..], |source|) && pos < |source|
    ensures k < |lines|
  {
    assert lines[k..] != [];
  }

  lemma {:induction false} FitMore(lines: seq<string>, n: nat, n': nat)
    requires Fit(lines, n) == |lines| && n <= n'
    ensures Fit(lines, n') == |lines|
  {
    if lines != [] {
      FitMore(lines[1..], n - |lines[0]|, n' - |lines[0]|);
    }
  }

  /** A window that is cut short by the end of the file takes as many lines. */
  lemma FitWindow(source: string, pos: nat, bytes: nat, lines: seq<string>)
    requires pos <= |source| && LinesAt(source, pos, lines, |source|)
    ensures Fit(lines, |WindowAt(source, pos, bytes)|) == Fit(lines, bytes)
  {
    if |source| - pos < bytes {
      AllFit(source, pos, lines);
      FitMore(lines, |source| - pos, bytes);
    }
  }

  // ---- The whole file ----

  /** What the windows deliver: an empty line is swallowed if a row stands before it in the same window. */
  function Windowed(rows: seq<seq<Field>>, lines: seq<string>, bytes: nat): seq<seq<Field>>
    requires |lines| == |rows|
    decreases |rows|
  {
    var k := Fit(lines, bytes);
    if k == 0 || k == |rows| then Delivered(rows) else Delivered(rows[..k]) + Windowed(rows[k..], lines[k..], bytes)
  }

  /** Where no line but the first is empty, it is the table. */
  lemma {:induction false} WindowedAll(rows: seq<seq<Field>>, lines: seq<string>, bytes: nat)
    requires |lines| == |rows| && NoBlankLater(rows)
    ensures Windowed(rows, lines, bytes) == rows
    decreases |rows|
  {
    var k := Fit(lines, bytes);
    DeliveredAtMost(rows);
    if 0 < k < |rows| {
      NoBlankParts(rows, k);
      DeliveredAtMost(rows[..k]);
      WindowedAll(rows[k..], lines[k..], bytes);
      assert rows[..k] + rows[k..] == rows;
    }
  }

  lemma NoBlankParts(rows: seq<seq<Field>>, k: nat)
    requires NoBlankLater(rows) && k <= |rows|
    ensures NoBlankLater(rows[..k]) && NoBlankLater(rows[k..])
  {
    forall i | 1 <= i < |rows| - k
      ensures !Blank(rows[k..][i])
    {
      assert rows[k..][i] == rows[k + i];
    }
  }

  /** Otherwise it depends on the size of the windows: here an empty line is delivered as a row, which is
      swallowed when the file is read in one. */
  lemma WindowsMatter(fmt: Format)
    ensures var rows := [[Plain("a")], [Plain("")], [Plain("b")]];
            && RowsText(fmt, rows) == "a\n\nb\n" && Lines(fmt, rows) == ["a\n", "\n", "b\n"]
            && Windowed(rows, Lines(fmt, rows), 2) == rows && Windowed(rows, Lines(fmt, rows), 5) == Delivered(rows) == [rows[0], rows[2]]
  {
    var rows := [[Plain("a")], [Plain("")], [Plain("b")]];
    assert RowText(fmt, rows[0]) == "a\n" && RowText(fmt, rows[1]) == "\n" && RowText(fmt, rows[2]) == "b\n";
    assert rows[1..] == [rows[1], rows[2]] && rows[1..][1..] == [rows[2]] && [rows[2]][1..] == [];
    assert RowsText(fmt, [rows[2]]) == "b\n" + RowsText(fmt, []);
    assert RowsText(fmt, rows[1..]) == "\n" + RowsText(fmt, [rows[2]]);
    assert Lines(fmt, rows) == ["a\n", "\n", "b\n"];
    WindowsDiffer(rows, Lines(fmt, rows));
  }

  lemma WindowsDiffer(rows: seq<seq<Field>>, lines: seq<string>)
    requires rows == [[Plain("a")], [Plain("")], [Plain("b")]] && lines == ["a\n", "\n", "b\n"]
    ensures Windowed(rows, lines, 2) == rows && Windowed(rows, lines, 5) == Delivered(rows) == [rows[0], rows[2]]
  {
    assert lines[1..] == ["\n", "b\n"] && lines[1..][1..] == ["b\n"] && lines[2..] == ["b\n"] && ["b\n"][1..] == [];
    assert rows[1..] == [rows[1], rows[2]] && rows[1..][1..] == [rows[2]] && rows[2..] == [rows[2]] && [rows[2]][1..] == [];
    assert rows[..1] == [rows[0]] && rows[1..][..1] == [rows[1]] && [rows[0]][1..] == [] && [rows[1]][1..] == [];
    assert Fit(["b\n"], 2) == 1 && Fit(lines[1..], 2) == 1 && Fit(lines, 2) == 1;
    assert Fit(["b\n"], 2) == 1 && Fit(lines[1..], 3) == 2 && Fit(lines, 5) == 3;
    assert Delivered([rows[2]]) == [rows[2]] && Delivered([rows[1]]) == [rows[1]] && Delivered([rows[0]]) == [rows[0]];
    assert Windowed([rows[2]], ["b\n"], 2) == [rows[2]];
    assert Windowed(rows[1..], lines[1..], 2) == [rows[1]] + [rows[2]];
    assert Blank(rows[1]) && Delivered(rows) == [rows[0]] + Delivered(rows[2..]);
  }

  function Lines(fmt: Format, rows: seq<seq<Field>>): (lines: seq<string>)
    ensures Texts(fmt, rows, lines)
  {
    seq(|rows|, i requires 0 <= i < |rows| => RowText(fmt, rows[i]))
  }

  /** Whether the windows reach the end before the parser reports it: a file of less than `chunk` characters is
      taken to be read completely with its first window. */
  predicate Fair(source: string, chunk: nat, bytes: nat) {
    |source| <= bytes || chunk <= |source|
  }

  /** A file of rows. */
  ghost predicate Job(fmt: Format, source: string, rows: seq<seq<Field>>, lines: seq<string>) {
    Rest(fmt, source, 0, rows, lines, HasBom(source))
  }

  /** Up to `pos` the first `j` rows have been read, and a byte-order mark has been looked for. */
  ghost predicate Reached(source: string, pos: nat, bytes: nat, scanned: bool, lines: seq<string>, j: nat) {
    && j <= |lines| && pos <= |source| && LinesAt(source, pos, lines[j..], |source|)
    && (if j == 0 then pos == 0 && !scanned else scanned || bytes < 3 || |source| < 3)
  }

  lemma RowsFrom(fmt: Format, rows: seq<seq<Field>>, lines: seq<string>, bom: bool, j: nat)
    requires Lined(fmt, rows, lines, bom) && j <= |rows|
    ensures |lines| == |rows| && Lined(fmt, rows[j..], lines[j..], bom && j == 0)
  {
    var texts := if bom then Stripped(lines) else lines;
    if j == 0 {
      assert rows[0..] == rows && lines[0..] == lines;
    } else {
      forall i | 0 <= i < |rows| - j
        ensures lines[j..][i] == RowText(fmt, rows[j..][i])
      {
        assert rows[j..][i] == rows[j + i];
        assert texts[j + i] == RowText(fmt, rows[j + i]);
      }
    }
  }

  lemma PieceFrom(source: string, pos: nat, bytes: nat, scanned: bool, lines: seq<string>, j: nat)
    requires Reached(source, pos, bytes, scanned, lines, j) && NextWithin(lines[j..], bytes)
    requires HasBom(source) ==> lines != [] && |lines[0]| > 3
    ensures Piece(source, pos, WindowAt(source, pos, bytes), lines[j..], scanned, HasBom(source) && j == 0)
  {
    var data := WindowAt(source, pos, bytes);
    if j == 0 {
      if HasBom(source) {
        assert lines[0..] == lines && |lines[0]| <= bytes;
        AtFits(source, 0, lines[0]);
      }
      if |data| >= 3 {
        assert data[..3] == source[..3];
      }
    }
  }

  lemma RestFrom(fmt: Format, source: string, bytes: nat, scanned: bool, pos: nat, rows: seq<seq<Field>>, lines: seq<string>, j: nat)
    requires Job(fmt, source, rows, lines) && Reached(source, pos, bytes, scanned, lines, j) && j <= |rows|
    requires NextWithin(lines[j..], bytes)
    ensures var bom := HasBom(source) && j == 0;
            && Rest(fmt, source, pos, rows[j..], lines[j..], bom)
            && Piece(source, pos, WindowAt(source, pos, bytes), lines[j..], scanned, bom)
  {
    RowsFrom(fmt, rows, lines, HasBom(source), j);
    PieceFrom(source, pos, bytes, scanned, lines, j);
  }

  /** What one call delivers, and where it leaves off. */
  ghost predicate Called(source: string, chunk: nat, bytes: nat, rows: seq<seq<Field>>, lines: seq<string>, pos: nat, pos': nat,
                         scanned': bool, j: nat, j': nat, more: seq<seq<string>>, ends: bool) {
    && j <= j' <= |rows| == |lines| && Reached(source, pos', bytes, scanned', lines, j')
    && j' == j + Fit(lines[j..], bytes) && (j < |rows| ==> j < j')
    && TableValues(Delivered(rows[j..j'])) <= more && |more| <= |Delivered(rows[j..j'])| + 1
    && (Fair(source, chunk, bytes) ==> |more| == |Delivered(rows[j..j'])| && (ends ==> j' == |rows|))
    && (pos + bytes < |source| ==> j' < |rows|)
    && (!ends ==> pos' > pos && chunk <= |source|)
  }

  method ReadWindow(p: MmapParser, bytes: nat, ghost rows: seq<seq<Field>>, ghost lines: seq<string>, ghost j: nat)
    returns (more: seq<seq<string>>, ghost j': nat)
    requires Job(p.parser.fmt, p.source, rows, lines) && Reached(p.source, p.mmapPos, bytes, p.parser.bomScanned, lines, j) && !p.eof
    requires j <= |rows| && NextWithin(lines[j..], bytes)
    modifies p, p.parser
    ensures Called(p.source, p.chunk, bytes, rows, lines, old(p.mmapPos), p.mmapPos, p.parser.bomScanned, j, j', more, p.eof)
  {
    ghost var fmt, pos, s, scanned := p.parser.fmt, p.mmapPos, p.parser.Snapshot(), p.parser.bomScanned;
    var data := p.Next(bytes);
    j' := WindowAfter(fmt, p.source, pos, bytes, data, s, scanned, p.eof, rows, lines, j);
    more := ReadRecords(p.parser.fmt, data, p.parser.fields, p.parser.records);
    WindowRead(fmt, data, p.parser.Snapshot(), rows, j, j', more);
    CallDone(fmt, p.source, p.chunk, bytes, rows, lines, pos, data, p.mmapPos, p.parser.bomScanned, j, j', more, p.eof);
  }

  lemma WindowAfter(fmt: Format, source: string, pos: nat, bytes: nat, data: string, s: State, scanned: bool, ends: bool,
                    rows: seq<seq<Field>>, lines: seq<string>, j: nat) returns (j': nat)
    requires Job(fmt, source, rows, lines) && Reached(source, pos, bytes, scanned, lines, j) && data == WindowAt(source, pos, bytes)
    requires j <= |rows| && NextWithin(lines[j..], bytes)
    ensures |lines| == |rows| && j <= j' <= |rows| && j' == j + Fit(lines[j..], |data|)
    ensures var e := Parsed(fmt, data, s, scanned, ends);
            && Complete(fmt, data, s, scanned) == FitLength(lines[j..], |data|) && WindowDone(fmt, data, e, rows[j..], j' - j)
            && (!ends || pos + |data| == |source| ==> |e.rows| == |Delivered(rows[j..][..j' - j])|) && (pos + |data| == |source| ==> j' == |rows|)
    ensures Ended(lines[j..])
  {
    RestFrom(fmt, source, bytes, scanned, pos, rows, lines, j);
    WindowResult(fmt, source, pos, data, s, scanned, ends, rows[j..], lines[j..], HasBom(source) && j == 0);
    j' := j + Fit(lines[j..], |data|);
  }

  lemma CallDone(fmt: Format, source: string, chunk: nat, bytes: nat, rows: seq<seq<Field>>, lines: seq<string>, pos: nat, data: string,
                 pos': nat, scanned': bool, j: nat, j': nat, more: seq<seq<string>>, ends: bool)
    requires j <= |rows| == |lines| && pos <= |source| && LinesAt(source, pos, lines[j..], |source|)
    requires data == WindowAt(source, pos, bytes) && pos' == pos + FitLength(lines[j..], |data|) && j' == j + Fit(lines[j..], |data|)
    requires ends <==> pos + |data| == |source| || |source| < chunk
    requires var d := Delivered(rows[j..j']);
             TableValues(d) <= more && |more| <= |d| + 1 && (!ends || pos + |data| == |source| ==> |more| == |d|)
    requires (pos + |data| == |source| ==> j' == |rows|) && (scanned' || |data| < 3)
    requires Ended(lines[j..]) && NextWithin(lines[j..], bytes)
    requires if j == 0 then pos == 0 && (scanned' ==> |data| >= 3) else !scanned' ==> bytes < 3 || |source| < 3
    ensures Called(source, chunk, bytes, rows, lines, pos, pos', scanned', j, j', more, ends)
  {
    FitWindow(source, pos, bytes, lines[j..]);
    ReachedAfter(source, pos, bytes, data, lines, pos', scanned', j, j');
  }

  lemma ReachedAfter(source: string, pos: nat, bytes: nat, data: string, lines: seq<string>, pos': nat, scanned': bool, j: nat, j': nat)
    requires j <= |lines| && pos <= |source| && LinesAt(source, pos, lines[j..], |source|) && data == WindowAt(source, pos, bytes)
    requires pos' == pos + FitLength(lines[j..], |data|) && j' == j + Fit(lines[j..], |data|)
    requires Ended(lines[j..]) && NextWithin(lines[j..], bytes) && (scanned' || |data| < 3)
    requires if j == 0 then pos == 0 && (scanned' ==> |data| >= 3) else !scanned' ==> bytes < 3 || |source| < 3
    ensures Reached(source, pos', bytes, scanned', lines, j') && (j < |lines| ==> j < j')
    ensures pos + |data| < |source| ==> pos' > pos && j' < |lines|
  {
    PlanWindow(source, pos, data, bytes, lines[j..]);
    assert lines[j..][j' - j..] == lines[j'..];
  }

  lemma WindowRead(fmt: Format, data: string, e: State, rows: seq<seq<Field>>, j: nat, j': nat, more: seq<seq<string>>)
    requires j <= j' <= |rows| && WindowDone(fmt, data, e, rows[j..], j' - j) && more == RecordValues(fmt, data, e.fields, e.rows)
    ensures rows[j..][..j' - j] == rows[j..j'] && TableValues(Delivered(rows[j..j'])) <= more && |more| == |e.rows|
  {
    assert rows[j..][..j' - j] == rows[j..j'];
    TableRead(fmt, data, e.fields, e.rows, Delivered(rows[j..j']));
  }

  /** The state of the loop. */
  ghost predicate Delivering(source: string, chunk: nat, bytes: nat, rows: seq<seq<Field>>, lines: seq<string>, pos: nat, scanned: bool,
                             eof: bool, j: nat, table: seq<seq<string>>) {
    && j <= |rows| == |lines| && Reached(source, pos, bytes, scanned, lines, j)
    && (if Fair(source, chunk, bytes) then
          && TableValues(Windowed(rows, lines, bytes)) == table + TableValues(Windowed(rows[j..], lines[j..], bytes))
          && (eof ==> j == |rows|)
        else if eof then Partly(rows, j, table) else pos == 0 && j == 0 && table == [])
  }

  /** Not all rows were read, and perhaps one was made of what was cut off. */
  ghost predicate Partly(rows: seq<seq<Field>>, j: nat, table: seq<seq<string>>) {
    j < |rows| && TableValues(Delivered(rows[..j])) <= table && |table| <= |Delivered(rows[..j])| + 1
  }

  lemma ValuesOfBoth(a: seq<seq<Field>>, b: seq<seq<Field>>)
    ensures TableValues(a + b) == TableValues(a) + TableValues(b)
  {
  }

  lemma WindowedMore(rows: seq<seq<Field>>, lines: seq<string>, bytes: nat, j: nat, j': nat)
    requires |lines| == |rows| && j <= j' <= |rows| && j' == j + Fit(lines[j..], bytes) && (j < |rows| ==> j < j')
    ensures Windowed(rows[j..], lines[j..], bytes) == Delivered(rows[j..j']) + Windowed(rows[j'..], lines[j'..], bytes)
  {
    assert rows[j..][..j' - j] == rows[j..j'] && rows[j..][j' - j..] == rows[j'..] && lines[j..][j' - j..] == lines[j'..];
    if j' == |rows| {
      assert rows[j..j'] == rows[j..];
    }
  }

  lemma DeliversMore(source: string, chunk: nat, bytes: nat, rows: seq<seq<Field>>, lines: seq<string>, pos: nat, scanned: bool, j: nat,
                     table: seq<seq<string>>, pos': nat, scanned': bool, eof': bool, j': nat, more: seq<seq<string>>)
    requires Delivering(source, chunk, bytes, rows, lines, pos, scanned, false, j, table)
    requires Called(source, chunk, bytes, rows, lines, pos, pos', scanned', j, j', more, eof')
    ensures Delivering(source, chunk, bytes, rows, lines, pos', scanned', eof', j', table + more)
  {
    if Fair(source, chunk, bytes) {
      WindowedMore(rows, lines, bytes, j, j');
      ValuesOfBoth(Delivered(rows[j..j']), Windowed(rows[j'..], lines[j'..], bytes));
      assert more == TableValues(Delivered(rows[j..j']));
      AppendMore(table, more, TableValues(Windowed(rows[j'..], lines[j'..], bytes)));
    } else {
      assert rows[0..j'] == rows[..j'] && [] + more == more;
    }
  }

  lemma AppendMore<T>(a: seq<T>, b: seq<T>, c: seq<T>)
    ensures a + (b + c) == (a + b) + c
  {
  }

  /** Windowed reading, whatever the size of the window, as long as every row fits into it: the windows deliver
      the table, without a byte-order mark, and the whole file is read if and only if the file fits into the first
      window or has at least `chunk` characters.  Otherwise the parser reports the end after the first window: the
      complete rows of that have been delivered, not all of them, and perhaps one row made of what was cut off. */
  method ReadAll(fmt: Format, source: string, chunk: nat, bytes: nat, ghost rows: seq<seq<Field>>) returns (table: seq<seq<string>>, end: nat)
    requires fmt.Proper() && ValidRows(fmt, rows) && source == RowsText(fmt, rows) && (Ascii(fmt) || !HasBom(source))
    requires forall i :: 0 <= i < |rows| ==> |RowText(fmt, rows[i])| <= bytes
    ensures table == TableValues(Windowed(Trimmed(rows), Lines(fmt, rows), bytes)) && end == |source| <==> Fair(source, chunk, bytes)
    ensures !Fair(source, chunk, bytes) ==> exists j :: Partly(Trimmed(rows), j, table)
  {
    ghost var lines := Lines(fmt, rows);
    StartJob(fmt, source, rows);
    LinesWithin(fmt, rows, bytes);
    var p := new MmapParser(fmt, source, chunk);
    table := [];
    ghost var j: nat := 0;
    while !p.eof
      invariant p.source == source && p.chunk == chunk && p.parser.fmt == fmt
      invariant Delivering(source, chunk, bytes, Trimmed(rows), lines, p.mmapPos, p.parser.bomScanned, p.eof, j, table)
      decreases |source| - p.mmapPos, !p.eof
    {
      ghost var pos, scanned := p.mmapPos, p.parser.bomScanned;
      var more, j' := ReadWindow(p, bytes, Trimmed(rows), lines, j);
      DeliversMore(source, chunk, bytes, Trimmed(rows), lines, pos, scanned, j, table, p.mmapPos, p.parser.bomScanned, p.eof, j', more);
      table := table + more;
      j := j';
    }
    end := p.mmapPos;
    AllOrNot(source, chunk, bytes, Trimmed(rows), lines, end, p.parser.bomScanned, j, table);
  }

  /** With windows of the size that is compared with, reading is always complete. */
  lemma WholeChunksAreFair(source: string, chunk: nat)
    ensures Fair(source, chunk, chunk)
  {
  }

  /** Two rows of two characters, in windows of two. */
  lemma SmallWindowsAreNot(fmt: Format)
    ensures var rows := [[Plain("a")], [Plain("b")]];
            && RowsText(fmt, rows) == "a\nb\n" && |RowText(fmt, rows[0])| == |RowText(fmt, rows[1])| == 2
            && !Fair(RowsText(fmt, rows), 10_000_000, 2)
  {
    var rows := [[Plain("a")], [Plain("b")]];
    assert RowText(fmt, rows[0]) == "a\n" && RowText(fmt, rows[1]) == "b\n";
    assert rows[1..] == [rows[1]] && [rows[1]][1..] == [];
    assert RowsText(fmt, [rows[1]]) == "b\n" + RowsText(fmt, []);
    assert RowsText(fmt, rows) == "a\n" + RowsText(fmt, [rows[1]]);
  }

  lemma StrippedTexts(fmt: Format, rows: seq<seq<Field>>, row: seq<Field>, lines: seq<string>)
    requires Texts(fmt, rows, lines) && rows != [] && lines[0] == Bom + RowText(fmt, row)
    ensures |lines[0]| >= 3 && lines[0][..3] == Bom && Texts(fmt, [row] + rows[1..], Stripped(lines))
  {
    forall i | 0 <= i < |rows|
      ensures Stripped(lines)[i] == RowText(fmt, ([row] + rows[1..])[i])
    {
      assert i > 0 ==> lines[i] == RowText(fmt, rows[i]);
    }
  }

  /** The lines of the file, the first one with its byte-order mark, and the rows without it. */
  lemma TrimmedLines(fmt: Format, rows: seq<seq<Field>>)
    requires fmt.Proper() && ValidRows(fmt, rows) && (Ascii(fmt) || !HasBom(RowsText(fmt, rows)))
    ensures Lined(fmt, Trimmed(rows), Lines(fmt, rows), HasBom(RowsText(fmt, rows)))
  {
    var lines := Lines(fmt, rows);
    if Ascii(fmt) {
      BomIsFirst(fmt, rows);
    }
    if BomFirst(rows) {
      BomFirstHas(fmt, rows);
      var row := Trimmed(rows)[0];
      TrimmedRow(fmt, rows[0], row);
      RowNotEmpty(fmt, row);
      assert lines[0] == RowText(fmt, rows[0]);
      StrippedTexts(fmt, rows, row, lines);
    }
  }

  lemma StartJob(fmt: Format, source: string, rows: seq<seq<Field>>)
    requires fmt.Proper() && ValidRows(fmt, rows) && source == RowsText(fmt, rows) && (Ascii(fmt) || !HasBom(source))
    ensures var lines := Lines(fmt, rows);
            Job(fmt, source, Trimmed(rows), lines) && lines[0..] == lines && Trimmed(rows)[0..] == Trimmed(rows)
  {
    var lines := Lines(fmt, rows);
    TrimmedValid(fmt, rows);
    TrimmedLines(fmt, rows);
    RowsTextIsJoin(fmt, rows, lines);
    SliceAt(source, 0, source);
    JoinedAt(source, 0, lines);
    TextsEnded(fmt, rows, lines);
  }

  lemma LinesWithin(fmt: Format, rows: seq<seq<Field>>, bytes: nat)
    requires forall i :: 0 <= i < |rows| ==> |RowText(fmt, rows[i])| <= bytes
    ensures AllWithin(Lines(fmt, rows), bytes)
  {
    var lines := Lines(fmt, rows);
    forall i | 0 <= i < |lines|
      ensures |lines[i]| <= bytes
    {
      assert lines[i] == RowText(fmt, rows[i]);
    }
  }

  lemma AllOrNot(source: string, chunk: nat, bytes: nat, rows: seq<seq<Field>>, lines: seq<string>, end: nat, scanned: bool, j: nat,
                 table: seq<seq<string>>)
    requires |lines| == |rows| && Delivering(source, chunk, bytes, rows, lines, end, scanned, true, j, table) && Ended(lines)
    ensures table == TableValues(Windowed(rows, lines, bytes)) && end == |source| <==> Fair(source, chunk, bytes)
    ensures !Fair(source, chunk, bytes) ==> Partly(rows, j, table)
  {
    if Fair(source, chunk, bytes) {
      assert lines[j..] == [] && rows[j..] == [];
    } else {
      EndsWithNewline(source, end, lines[j..], |source|);
    }
  }
}
