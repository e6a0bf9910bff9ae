/** What the parser makes of a whole text, and of a text cut off in the middle of a row. */
module CsvTable {
  import opened CsvFlags
  import opened CsvParser
  import opened CsvText
  import opened CsvRows

  // ---- Empty lines ----

  predicate Blank(row: seq<Field>) {
    row == [Plain("")]
  }

  /** The rows the parser delivers: an empty line right behind a row is swallowed with its newline. */
  function Delivered(rows: seq<seq<Field>>): seq<seq<Field>> {
    if rows == [] then []
    else if |rows| > 1 && Blank(rows[1]) then [rows[0]] + Delivered(rows[2..])
    else [rows[0]] + Delivered(rows[1..])
  }

  predicate NoBlankLater(rows: seq<seq<Field>>) {
    forall i :: 1 <= i < |rows| ==> !Blank(rows[i])
  }

  lemma {:induction false} DeliveredAtMost(rows: seq<seq<Field>>)
    ensures |Delivered(rows)| <= |rows|
    ensures NoBlankLater(rows) ==> Delivered(rows) == rows
    ensures !NoBlankLater(rows) ==> |Delivered(rows)| < |rows|
    decreases |rows|
  {
    if rows != [] {
      if |rows| > 1 && Blank(rows[1]) {
        DeliveredAtMost(rows[2..]);
      } else {
        DeliveredAtMost(rows[1..]);
        LaterOfTail(rows);
      }
    }
  }

  lemma LaterOfTail(rows: seq<seq<Field>>)
    requires rows != [] && (|rows| > 1 ==> !Blank(rows[1]))
    ensures NoBlankLater(rows) <==> NoBlankLater(rows[1..])
  {
    if NoBlankLater(rows[1..]) {
      forall i | 1 <= i < |rows|
        ensures !Blank(rows[i])
      {
        if i > 1 {
          assert rows[i] == rows[1..][i - 1];
        }
      }
    } else {
      var i :| 1 <= i < |rows| - 1 && Blank(rows[1..][i]);
      assert rows[i + 1] == rows[1..][i];
    }
  }

  /** A row that is not blank does not begin with a newline. */
  lemma RowBegins(fmt: Format, row: seq<Field>)
    requires fmt.Proper() && ValidRow(fmt, row)
    ensures |RowText(fmt, row)| > 0
    ensures KindOf(fmt, RowText(fmt, row)[0], false).Newline? <==> Blank(row)
  {
    var f := row[0];
    if f.Plain? && f.value != "" {
      assert RowText(fmt, row)[0] == f.value[0];
    } else if f.Plain? {
      assert row == [f] + row[1..];
    }
  }

  lemma RowNotEmpty(fmt: Format, row: seq<Field>)
    ensures |RowText(fmt, row)| > 0
  {
  }

  // ---- Many rows ----

  /** Nothing of the current row has been read, except for a byte-order mark perhaps. */
  predicate Between(s: State) {
    Fresh(s) && s.fieldsStart == |s.fields|
  }

  /** Between two rows. */
  predicate AtBoundary(s: State) {
    Between(s) && s.rowStart == s.pos
  }

  /** The recorded rows lead to the values. */
  ghost predicate RowsHold(fmt: Format, text: string, fields: seq<RawField>, rows: seq<Row>, table: seq<seq<Field>>) {
    && |rows| == |table|
    && forall i :: 0 <= i < |rows| ==>
         rows[i].rowLength == |table[i]| && Holds(fmt, text, rows[i].dataStart, fields, rows[i].fieldsStart, Values(table[i]))
  }

  lemma RowsHoldMore(fmt: Format, text: string, fields: seq<RawField>, fields': seq<RawField>, row: Row, rows: seq<Row>,
                     first: seq<Field>, table: seq<seq<Field>>)
    requires fields <= fields' && row.rowLength == |first|
    requires Holds(fmt, text, row.dataStart, fields, row.fieldsStart, Values(first))
    requires RowsHold(fmt, text, fields', rows, table)
    ensures RowsHold(fmt, text, fields', [row] + rows, [first] + table)
  {
    HoldsPrefix(fmt, text, row.dataStart, fields, fields', row.fieldsStart, Values(first));
  }

  lemma HoldsPrefix(fmt: Format, text: string, rowStart: nat, fields: seq<RawField>, fields': seq<RawField>, from: nat, values: seq<string>)
    requires fields <= fields' && Holds(fmt, text, rowStart, fields, from, values)
    ensures Holds(fmt, text, rowStart, fields', from, values)
  {
    forall i | 0 <= i < |values|
      ensures ReadsAs(fmt, text, rowStart, fields'[from + i], values[i])
    {
      assert fields'[from + i] == fields[from + i];
    }
  }

  /** How many rows are consumed with the first one. */
  function Taken(rows: seq<seq<Field>>): (n: nat)
    requires rows != []
    ensures 1 <= n <= |rows|
  {
    if |rows| > 1 && Blank(rows[1]) then 2 else 1
  }

  /** No newline stands at `p`. */
  predicate ClearAt(fmt: Format, text: string, p: nat) {
    p >= |text| || !KindOf(fmt, text[p], false).Newline?
  }

  lemma PastNewlineIs(fmt: Format, text: string, e: nat)
    requires e >= 1
    ensures PastNewline(fmt, text, e - 1) == if ClearAt(fmt, text, e) then e else e + 1
  {
  }

  /** The text of the rows runs from `q` to `e`. */
  predicate LeavesAt(fmt: Format, text: string, q: nat, rows: seq<seq<Field>>, e: nat)
    decreases |rows|
  {
    if rows == [] then q == e <= |text|
    else At(text, q, RowText(fmt, rows[0])) && LeavesAt(fmt, text, q + |RowText(fmt, rows[0])|, rows[1..], e)
  }

  lemma {:induction false} StandsAlike(fmt: Format, text: string, q: nat, rows: seq<seq<Field>>, lines: seq<string>, e: nat)
    requires Texts(fmt, rows, lines)
    ensures LinesAt(text, q, lines, e) <==> LeavesAt(fmt, text, q, rows, e)
    decreases |rows|
  {
    if rows != [] {
      TailTexts(fmt, rows, lines);
      StandsAlike(fmt, text, q + |lines[0]|, rows[1..], lines[1..], e);
    }
  }

  lemma TextLeaves(fmt: Format, text: string, q: nat, rows: seq<seq<Field>>)
    requires At(text, q, RowsText(fmt, rows))
    ensures LeavesAt(fmt, text, q, rows, q + |RowsText(fmt, rows)|)
  {
    var lines := TextsOf(fmt, rows);
    RowsTextIsJoin(fmt, rows, lines);
    JoinedAt(text, q, lines);
    StandsAlike(fmt, text, q, rows, lines, q + |Join(lines)|);
  }

  /** The first row, and what is left when it has been read. */
  lemma FirstRow(fmt: Format, text: string, p: nat, rows: seq<seq<Field>>, end: nat)
    requires fmt.Proper() && rows != [] && LeavesAt(fmt, text, p, rows, end) && ClearAt(fmt, text, end)
    requires |rows| > 1 ==> ValidRow(fmt, rows[1])
    ensures |RowText(fmt, rows[0])| > 0 && At(text, p, RowText(fmt, rows[0]))
    ensures LeavesAt(fmt, text, PastNewline(fmt, text, p + |RowText(fmt, rows[0])| - 1), rows[Taken(rows)..], end)
  {
    RowNotEmpty(fmt, rows[0]);
    var q := p + |RowText(fmt, rows[0])|;
    PastNewlineIs(fmt, text, q);
    BehindFirst(fmt, text, q, rows[1..], end);
    if |rows| > 1 && Blank(rows[1]) {
      assert rows[1..][1..] == rows[2..];
      PastBlank(fmt, text, q, rows[1..], end);
    }
  }

  lemma BehindFirst(fmt: Format, text: string, q: nat, rest: seq<seq<Field>>, end: nat)
    requires fmt.Proper() && LeavesAt(fmt, text, q, rest, end) && ClearAt(fmt, text, end)
    requires rest != [] ==> ValidRow(fmt, rest[0])
    ensures ClearAt(fmt, text, q) <==> !(rest != [] && Blank(rest[0]))
  {
    if rest != [] {
      RowNotEmpty(fmt, rest[0]);
      AtIndex(text, q, RowText(fmt, rest[0]), 0);
      RowAtStart(fmt, text, q, rest[0], RowText(fmt, rest[0]));
    }
  }

  lemma PastBlank(fmt: Format, text: string, q: nat, rest: seq<seq<Field>>, end: nat)
    requires rest != [] && Blank(rest[0]) && LeavesAt(fmt, text, q, rest, end)
    ensures LeavesAt(fmt, text, q + 1, rest[1..], end)
  {
  }

  lemma RowAtStart(fmt: Format, text: string, q: nat, row: seq<Field>, b: string)
    requires fmt.Proper() && ValidRow(fmt, row) && b == RowText(fmt, row) && b != [] && q < |text| && text[q] == b[0]
    ensures ClearAt(fmt, text, q) <==> !Blank(row)
  {
    RowBegins(fmt, row);
  }

  /** The state after a row, between two rows. */
  lemma OneRowDone(fmt: Format, text: string, s: State, row: seq<Field>)
    requires ValidRow(fmt, row) && Between(s) && At(text, s.pos, RowText(fmt, row))
    ensures var s' := AfterRow(fmt, text, s, row);
            && AtBoundary(s') && s'.pos == PastNewline(fmt, text, s.pos + |RowText(fmt, row)| - 1)
            && s.fields <= s'.fields && s'.rows == s.rows + [Row(s.rowStart, s.fieldsStart, |row|)]
            && Holds(fmt, text, s.rowStart, s'.fields, s.fieldsStart, Values(row))
  {
    assert [] + Values(row) == Values(row);
    RowIsDone(fmt, text, s, row, [], Values(row));
    RowEnds(fmt, text, s, row);
  }

  /** The state after many rows. */
  function AfterRows(fmt: Format, text: string, s: State, rows: seq<seq<Field>>): State
    decreases |rows|
  {
    if rows == [] || rows[0] == [] then s
    else AfterRows(fmt, text, AfterRow(fmt, text, s, rows[0]), rows[Taken(rows)..])
  }

  /** The text of the rows runs from `p` to `end`, where no newline follows. */
  predicate TableAt(fmt: Format, text: string, p: nat, rows: seq<seq<Field>>, end: nat)
    decreases |rows|
  {
    if rows == [] then p == end
    else && ValidRow(fmt, rows[0]) && At(text, p, RowText(fmt, rows[0])) && |RowText(fmt, rows[0])| > 0
         && TableAt(fmt, text, PastNewline(fmt, text, p + |RowText(fmt, rows[0])| - 1), rows[Taken(rows)..], end)
  }

  lemma {:induction false} TextIsTable(fmt: Format, text: string, p: nat, rows: seq<seq<Field>>, end: nat)
    requires fmt.Proper() && ValidRows(fmt, rows) && LeavesAt(fmt, text, p, rows, end) && ClearAt(fmt, text, end)
    ensures TableAt(fmt, text, p, rows, end)
    decreases |rows|
  {
    if rows != [] {
      var q, rest := SplitFirst(fmt, text, p, rows, end);
      TextIsTable(fmt, text, q, rest, end);
      TableFrom(fmt, text, p, rows, end, q, rest);
    }
  }

  /** The first row, where the next one starts, and the rows from there on. */
  lemma SplitFirst(fmt: Format, text: string, p: nat, rows: seq<seq<Field>>, end: nat) returns (q: nat, rest: seq<seq<Field>>)
    requires fmt.Proper() && ValidRows(fmt, rows) && LeavesAt(fmt, text, p, rows, end) && ClearAt(fmt, text, end) && rows != []
    ensures |RowText(fmt, rows[0])| > 0 && At(text, p, RowText(fmt, rows[0]))
    ensures q == PastNewline(fmt, text, p + |RowText(fmt, rows[0])| - 1) && rest == rows[Taken(rows)..]
    ensures ValidRows(fmt, rest) && LeavesAt(fmt, text, q, rest, end)
  {
    FirstRow(fmt, text, p, rows, end);
    q, rest := PastNewline(fmt, text, p + |RowText(fmt, rows[0])| - 1), rows[Taken(rows)..];
  }

  lemma TableFrom(fmt: Format, text: string, p: nat, rows: seq<seq<Field>>, end: nat, q: nat, rest: seq<seq<Field>>)
    requires ValidRows(fmt, rows) && rows != [] && |RowText(fmt, rows[0])| > 0 && At(text, p, RowText(fmt, rows[0]))
    requires q == PastNewline(fmt, text, p + |RowText(fmt, rows[0])| - 1) && rest == rows[Taken(rows)..] && TableAt(fmt, text, q, rest, end)
    ensures TableAt(fmt, text, p, rows, end)
  {
  }

  /** Over many rows. */
  lemma {:induction false} OverRows(fmt: Format, text: string, s: State, rows: seq<seq<Field>>, end: nat)
    requires fmt.Proper() && Between(s) && TableAt(fmt, text, s.pos, rows, end)
    ensures Run(fmt, text, s) == Run(fmt, text, AfterRows(fmt, text, s, rows))
    decreases |rows|
  {
    if rows != [] {
      BoundaryAfter(fmt, text, s, rows[0]);
      OverRows(fmt, text, AfterRow(fmt, text, s, rows[0]), rows[Taken(rows)..], end);
      OverRow(fmt, text, s, rows[0]);
    }
  }

  lemma BoundaryAfter(fmt: Format, text: string, s: State, row: seq<Field>)
    requires ValidRow(fmt, row) && Between(s) && At(text, s.pos, RowText(fmt, row))
    ensures var s' := AfterRow(fmt, text, s, row);
            AtBoundary(s') && s'.pos == PastNewline(fmt, text, s.pos + |RowText(fmt, row)| - 1)
  {
    OneRowDone(fmt, text, s, row);
  }

  /** From `s` to `s'` the `rows` are recorded, which lead to the values of `table`. */
  ghost predicate Records(fmt: Format, text: string, s: State, s': State, rows: seq<Row>, table: seq<seq<Field>>) {
    && AtBoundary(s') && s.fields <= s'.fields
    && s'.rows == s.rows + rows && RowsHold(fmt, text, s'.fields, rows, table)
  }

  lemma RecordsMore(fmt: Format, text: string, s: State, s1: State, s': State, first: seq<Field>, rest: seq<Row>, table: seq<seq<Field>>)
    requires s.fields <= s1.fields && s1.rows == s.rows + [Row(s.rowStart, s.fieldsStart, |first|)]
    requires Holds(fmt, text, s.rowStart, s1.fields, s.fieldsStart, Values(first))
    requires Records(fmt, text, s1, s', rest, table)
    ensures Records(fmt, text, s, s', [Row(s.rowStart, s.fieldsStart, |first|)] + rest, [first] + table)
  {
    RowsHoldMore(fmt, text, s1.fields, s'.fields, Row(s.rowStart, s.fieldsStart, |first|), rest, first, table);
  }

  /** All of them are recorded. */
  lemma {:induction false} RowsAreDone(fmt: Format, text: string, s: State, rows: seq<seq<Field>>, end: nat) returns (recorded: seq<Row>)
    requires Between(s) && (rows == [] ==> AtBoundary(s)) && TableAt(fmt, text, s.pos, rows, end)
    ensures Records(fmt, text, s, AfterRows(fmt, text, s, rows), recorded, Delivered(rows))
    ensures AfterRows(fmt, text, s, rows).pos == end
    decreases |rows|
  {
    if rows == [] {
      recorded := [];
    } else {
      BoundaryAfter(fmt, text, s, rows[0]);
      var rest := RowsAreDone(fmt, text, AfterRow(fmt, text, s, rows[0]), rows[Taken(rows)..], end);
      recorded := [Row(s.rowStart, s.fieldsStart, |rows[0]|)] + rest;
      OneMoreRow(fmt, text, s, rows[0], AfterRows(fmt, text, s, rows), rest, Delivered(rows[Taken(rows)..]));
    }
  }

  lemma OneMoreRow(fmt: Format, text: string, s: State, row: seq<Field>, s': State, rest: seq<Row>, table: seq<seq<Field>>)
    requires ValidRow(fmt, row) && Between(s) && At(text, s.pos, RowText(fmt, row))
    requires Records(fmt, text, AfterRow(fmt, text, s, row), s', rest, table)
    ensures Records(fmt, text, s, s', [Row(s.rowStart, s.fieldsStart, |row|)] + rest, [row] + table)
  {
    OneRowDone(fmt, text, s, row);
    RecordsMore(fmt, text, s, AfterRow(fmt, text, s, row), s', row, rest, table);
  }

  // ---- A row that is cut off ----

  /** From `s` to the end of the text no row is completed. */
  ghost predicate Keeps(fmt: Format, text: string, s: State) {
    Run(fmt, text, s).rows == s.rows && Run(fmt, text, s).rowStart == s.rowStart
  }

  lemma StepKeeps(fmt: Format, text: string, s: State)
    requires s.pos < |text| && !GivesUp(fmt, text, s)
    requires Next(fmt, text, s).rows == s.rows && Next(fmt, text, s).rowStart == s.rowStart
    requires Keeps(fmt, text, Next(fmt, text, s))
    ensures Keeps(fmt, text, s)
  {
  }

  lemma EndKeeps(fmt: Format, text: string, s: State)
    requires s.pos >= |text| || GivesUp(fmt, text, s)
    ensures Keeps(fmt, text, s)
  {
  }

  /** The text from `p` on is the beginning of `t`, perhaps all of it. */
  predicate CutAt(text: string, p: nat, t: string)
    decreases |t|
  {
    p <= |text| && (p == |text| || (t != [] && text[p] == t[0] && CutAt(text, p + 1, t[1..])))
  }

  lemma {:induction false} CutIndex(text: string, p: nat, t: string, i: nat)
    requires CutAt(text, p, t) && p + i < |text|
    ensures i < |t| && text[p + i] == t[i]
    decreases |t|
  {
    if i > 0 {
      CutIndex(text, p + 1, t[1..], i - 1);
    }
  }

  lemma {:induction false} CutSplit(text: string, p: nat, a: string, b: string)
    requires CutAt(text, p, a + b)
    ensures |text| <= p + |a| ==> CutAt(text, p, a)
    ensures |text| >= p + |a| ==> At(text, p, a) && CutAt(text, p + |a|, b)
    decreases |a|
  {
    if a == [] {
      assert a + b == b;
    } else if p < |text| {
      assert (a + b)[1..] == a[1..] + b;
      CutSplit(text, p + 1, a[1..], b);
    }
  }

  lemma CutOrdinary(fmt: Format, text: string, s: State, e: nat)
    requires s.pos < e <= |text| && forall i :: s.pos <= i < e ==> KindOf(fmt, text[i], s.quoteEscape).Ordinary?
    requires e < |text| ==> !KindOf(fmt, text[e], s.quoteEscape).Ordinary?
    ensures !GivesUp(fmt, text, s) && Next(fmt, text, s).pos == e && Next(fmt, text, s).quoteEscape == s.quoteEscape
    ensures Next(fmt, text, s).rows == s.rows && Next(fmt, text, s).rowStart == s.rowStart
  {
    RunEndIs(fmt, text, s.pos, e, s.quoteEscape);
  }

  /** Cut off in quotes. */
  lemma {:induction false} CutQuoted(fmt: Format, text: string, s: State, rest: string)
    requires fmt.Proper() && s.quoteEscape && CutAt(text, s.pos, Double(fmt, rest) + [fmt.quote])
    ensures Keeps(fmt, text, s)
    decreases |rest|
  {
    if s.pos == |text| {
      EndKeeps(fmt, text, s);
    } else if rest == [] {
      CutIndex(text, s.pos, [fmt.quote], 0);
      EndKeeps(fmt, text, s);
    } else if rest[0] == fmt.quote {
      CutDoubled(fmt, text, s, rest);
      if !GivesUp(fmt, text, s) {
        CutQuoted(fmt, text, Next(fmt, text, s), rest[1..]);
        StepKeeps(fmt, text, s);
      } else {
        EndKeeps(fmt, text, s);
      }
    } else {
      CutRun(fmt, text, s, rest);
      if Next(fmt, text, s).pos < |text| {
        CutQuoted(fmt, text, Next(fmt, text, s), rest[FirstQuote(fmt, rest)..]);
      } else {
        EndKeeps(fmt, text, Next(fmt, text, s));
      }
      StepKeeps(fmt, text, s);
    }
  }

  lemma CutDoubled(fmt: Format, text: string, s: State, rest: string)
    requires fmt.Proper() && s.quoteEscape && s.pos < |text| && rest != [] && rest[0] == fmt.quote
    requires CutAt(text, s.pos, Double(fmt, rest) + [fmt.quote])
    ensures !GivesUp(fmt, text, s) ==>
              var n := Next(fmt, text, s);
              && n.quoteEscape && n.rows == s.rows && n.rowStart == s.rowStart
              && CutAt(text, n.pos, Double(fmt, rest[1..]) + [fmt.quote])
  {
    var two, tail := [fmt.quote, fmt.quote], Double(fmt, rest[1..]) + [fmt.quote];
    DoubleStarts(fmt, rest);
    assert Double(fmt, rest) + [fmt.quote] == two + tail;
    CutIndex(text, s.pos, two + tail, 0);
    if s.pos + 1 < |text| {
      CutIndex(text, s.pos, two + tail, 1);
      CutSplit(text, s.pos, two, tail);
      DoubledNext(fmt, text, s);
    }
  }

  lemma DoubledNext(fmt: Format, text: string, s: State)
    requires fmt.Proper() && s.quoteEscape && s.pos + 1 < |text| && text[s.pos] == text[s.pos + 1] == fmt.quote
    ensures !GivesUp(fmt, text, s)
    ensures Next(fmt, text, s) == s.(pos := s.pos + 2, fieldLength := s.fieldLength + 2, hasDoubleQuote := true)
  {
  }

  lemma CutRunText(fmt: Format, text: string, p: nat, rest: string)
    requires CutAt(text, p, Double(fmt, rest) + [fmt.quote]) && p <= |text|
    ensures var n := FirstQuote(fmt, rest);
            && (forall i :: p <= i < p + n && i < |text| ==> text[i] != fmt.quote)
            && (p + n < |text| ==> text[p + n] == fmt.quote && CutAt(text, p + n, Double(fmt, rest[n..]) + [fmt.quote]))
  {
    var n := FirstQuote(fmt, rest);
    var tail := Double(fmt, rest[n..]) + [fmt.quote];
    DoubleUpToQuote(fmt, rest);
    assert Double(fmt, rest) + [fmt.quote] == rest[..n] + tail;
    forall i | p <= i < p + n && i < |text|
      ensures text[i] != fmt.quote
    {
      CutIndex(text, p, rest[..n] + tail, i - p);
    }
    if p + n < |text| {
      CutSplit(text, p, rest[..n], tail);
      DoubleStarts(fmt, rest[n..]);
      CutIndex(text, p + n, tail, 0);
    }
  }

  lemma CutRun(fmt: Format, text: string, s: State, rest: string)
    requires fmt.Proper() && s.quoteEscape && s.pos < |text| && rest != [] && rest[0] != fmt.quote
    requires CutAt(text, s.pos, Double(fmt, rest) + [fmt.quote])
    ensures !GivesUp(fmt, text, s)
    ensures var n := Next(fmt, text, s);
            && n.quoteEscape && n.rows == s.rows && n.rowStart == s.rowStart
            && (n.pos < |text| ==> CutAt(text, n.pos, Double(fmt, rest[FirstQuote(fmt, rest)..]) + [fmt.quote]))
  {
    CutRunText(fmt, text, s.pos, rest);
    CutUpTo(fmt, text, s, FirstQuote(fmt, rest));
  }

  lemma CutUpTo(fmt: Format, text: string, s: State, n: nat)
    requires fmt.Proper() && s.quoteEscape && s.pos < |text| && n >= 1
    requires forall i :: s.pos <= i < s.pos + n && i < |text| ==> text[i] != fmt.quote
    requires s.pos + n < |text| ==> text[s.pos + n] == fmt.quote
    ensures !GivesUp(fmt, text, s)
    ensures var s' := Next(fmt, text, s);
            && s'.quoteEscape && s'.rows == s.rows && s'.rowStart == s.rowStart
            && s'.pos == if s.pos + n < |text| then s.pos + n else |text|
  {
    CutOrdinary(fmt, text, s, if s.pos + n < |text| then s.pos + n else |text|);
  }

  /** Cut off in a field, or right behind it. */
  lemma CutField(fmt: Format, text: string, s: State, f: Field)
    requires fmt.Proper() && Fresh(s) && ValidField(fmt, f) && CutAt(text, s.pos, FieldText(fmt, f))
    ensures Keeps(fmt, text, s)
  {
    if s.pos == |text| {
      EndKeeps(fmt, text, s);
    } else if f.Plain? {
      forall i | s.pos <= i < |text|
        ensures KindOf(fmt, text[i], false).Ordinary?
      {
        CutIndex(text, s.pos, f.value, i - s.pos);
      }
      CutOrdinary(fmt, text, s, |text|);
      EndKeeps(fmt, text, Next(fmt, text, s));
      StepKeeps(fmt, text, s);
    } else {
      CutIndex(text, s.pos, FieldText(fmt, f), 0);
      CutSplit(text, s.pos, [fmt.quote], Double(fmt, f.value) + [fmt.quote]);
      CutQuoted(fmt, text, Next(fmt, text, s), f.value);
      StepKeeps(fmt, text, s);
    }
  }

  /** Cut off before the end of a row. */
  lemma {:induction false} CutRow(fmt: Format, text: string, s: State, row: seq<Field>)
    requires fmt.Proper() && Fresh(s) && ValidRow(fmt, row) && CutWithin(fmt, text, s.pos, row)
    ensures Keeps(fmt, text, s)
    decreases |row|
  {
    if |text| <= s.pos + |FieldText(fmt, row[0])| {
      CutField(fmt, text, s, row[0]);
    } else {
      var s' := PastField(fmt, s, row[0]);
      CutRow(fmt, text, s', row[1..]);
      CutFirst(fmt, text, s, row[0], s');
    }
  }

  /** The text ends within the row that starts at `p`. */
  predicate CutWithin(fmt: Format, text: string, p: nat, row: seq<Field>)
    decreases |row|
  {
    && row != []
    && var e := p + |FieldText(fmt, row[0])|;
       if |text| <= e then CutAt(text, p, FieldText(fmt, row[0]))
       else At(text, p, FieldText(fmt, row[0])) && |row| > 1 && text[e] == fmt.delim && CutWithin(fmt, text, e + 1, row[1..])
  }

  lemma {:induction false} CutIsWithin(fmt: Format, text: string, p: nat, row: seq<Field>)
    requires row != [] && CutAt(text, p, RowText(fmt, row)) && |text| < p + |RowText(fmt, row)|
    ensures CutWithin(fmt, text, p, row)
    decreases |row|
  {
    CutRowText(fmt, text, p, row);
    if |text| > p + |FieldText(fmt, row[0])| {
      CutIsWithin(fmt, text, p + |FieldText(fmt, row[0])| + 1, row[1..]);
    }
  }

  /** The state behind a field and its separator. */
  lemma PastField(fmt: Format, s: State, f: Field) returns (s': State)
    requires Fresh(s)
    ensures s' == EndField(AfterField(fmt, s, f)) && Fresh(s') && s'.pos == s.pos + |FieldText(fmt, f)| + 1
  {
    AfterFieldIs(fmt, s, f);
    s' := EndField(AfterField(fmt, s, f));
  }

  lemma CutFirst(fmt: Format, text: string, s: State, f: Field, s': State)
    requires fmt.Proper() && Fresh(s) && ValidField(fmt, f) && At(text, s.pos, FieldText(fmt, f))
    requires s.pos + |FieldText(fmt, f)| < |text| && text[s.pos + |FieldText(fmt, f)|] == fmt.delim
    requires s' == EndField(AfterField(fmt, s, f)) && Keeps(fmt, text, s')
    ensures Keeps(fmt, text, s)
  {
    AfterFieldIs(fmt, s, f);
    OverSeparator(fmt, text, s, f);
  }

  /** Where the cut is: in the first field or behind it. */
  lemma CutRowText(fmt: Format, text: string, p: nat, row: seq<Field>)
    requires row != [] && CutAt(text, p, RowText(fmt, row)) && |text| < p + |RowText(fmt, row)|
    ensures var e := p + |FieldText(fmt, row[0])|;
            && (|text| <= e ==> CutAt(text, p, FieldText(fmt, row[0])))
            && (|text| > e ==>
                  && At(text, p, FieldText(fmt, row[0])) && |row| > 1 && text[e] == fmt.delim
                  && CutAt(text, e + 1, RowText(fmt, row[1..])) && |text| < e + 1 + |RowText(fmt, row[1..])|)
  {
    var f := FieldText(fmt, row[0]);
    var e := p + |f|;
    if |row| == 1 {
      CutSplit(text, p, f, "\n");
    } else {
      var tail := RowText(fmt, row[1..]);
      CutSplit(text, p, f, [fmt.delim] + tail);
      if |text| > e {
        CutIndex(text, e, [fmt.delim] + tail, 0);
        CutSplit(text, e, [fmt.delim], tail);
      }
    }
  }
}
