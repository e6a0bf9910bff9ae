/** Reading a file window by window, going back to the last complete row after each. */
module CsvWindow {
  import opened CsvFlags
  import opened CsvParser
  import opened CsvText
  import opened CsvRows
  import opened CsvTable

  // ---- Text seen through a window ----

  lemma {:induction false} AtWindow(source: string, p: nat, n: nat, i: nat, t: string)
    requires p + n <= |source| && At(source, p + i, t) && i + |t| <= n
    ensures At(source[p..p + n], i, t)
    decreases |t|
  {
    if t != [] {
      AtWindow(source, p, n, i + 1, t[1..]);
    }
  }

  lemma {:induction false} CutWindow(source: string, p: nat, n: nat, i: nat, t: string)
    requires p + n <= |source| && At(source, p + i, t) && i <= n <= i + |t|
    ensures CutAt(source[p..p + n], i, t)
    decreases |t|
  {
    if i < n {
      CutWindow(source, p, n, i + 1, t[1..]);
    }
  }

  /** How many lines lie entirely in the first `n` characters. */
  function Fit(lines: seq<string>, n: nat): (k: nat)
    ensures k <= |lines|
  {
    if lines == [] || |lines[0]| > n then 0 else 1 + Fit(lines[1..], n - |lines[0]|)
  }

  function FitLength(lines: seq<string>, n: nat): (m: nat)
    ensures m <= n
  {
    if lines == [] || |lines[0]| > n then 0 else |lines[0]| + FitLength(lines[1..], n - |lines[0]|)
  }

  /** The window from the line start `i` on: `k` whole lines up to `m`, then a line that is cut off, or nothing. */
  predicate WindowOf(data: string, i: nat, lines: seq<string>, k: nat, m: nat) {
    && k <= |lines| && LinesAt(data, i, lines[..k], m) && m <= |data|
    && (if k == |lines| then m == |data| else CutAt(data, m, lines[k]) && |data| < m + |lines[k]|)
  }

  lemma {:induction false} WindowSplits(source: string, p: nat, data: string, i: nat, lines: seq<string>)
    requires p + |data| <= |source| && data == source[p..p + |data|] && i <= |data| && LinesAt(source, p + i, lines, |source|)
    ensures WindowOf(data, i, lines, Fit(lines, |data| - i), i + FitLength(lines, |data| - i))
    decreases |lines|
  {
    if lines != [] {
      if |lines[0]| > |data| - i {
        CutWindow(source, p, |data|, i, lines[0]);
      } else {
        AtWindow(source, p, |data|, i, lines[0]);
        WindowSplits(source, p, data, i + |lines[0]|, lines[1..]);
        OneMoreFits(data, i, lines, Fit(lines, |data| - i), i + FitLength(lines, |data| - i));
      }
    }
  }

  lemma OneMoreFits(data: string, i: nat, lines: seq<string>, k: nat, m: nat)
    requires 1 <= k <= |lines| && At(data, i, lines[0]) && WindowOf(data, i + |lines[0]|, lines[1..], k - 1, m)
    ensures WindowOf(data, i, lines, k, m)
  {
    assert lines[..k][1..] == lines[1..][..k - 1];
  }

  /** A window up to the end has all the lines. */
  lemma {:induction false} AllFit(source: string, pos: nat, lines: seq<string>)
    requires LinesAt(source, pos, lines, |source|) && pos <= |source|
    ensures Fit(lines, |source| - pos) == |lines|
    decreases |lines|
  {
    if lines != [] {
      AtFits(source, pos, lines[0]);
      AllFit(source, pos + |lines[0]|, lines[1..]);
    }
  }

  /** The lines that do not fit into a window. */
  lemma {:induction false} LeftAfter(source: string, pos: nat, lines: seq<string>, n: nat)
    requires LinesAt(source, pos, lines, |source|)
    ensures LinesAt(source, pos + FitLength(lines, n), lines[Fit(lines, n)..], |source|)
    decreases |lines|
  {
    if lines != [] && |lines[0]| <= n {
      LeftAfter(source, pos + |lines[0]|, lines[1..], n - |lines[0]|);
      assert lines[1..][Fit(lines, n) - 1..] == lines[Fit(lines, n)..];
    } else {
      assert lines[0..] == lines;
    }
  }

  /** Every line ends with a newline. */
  predicate Ended(lines: seq<string>) {
    forall i {:trigger lines[i]} :: 0 <= i < |lines| ==> lines[i] != [] && lines[i][|lines[i]| - 1] == '\n'
  }

  lemma {:induction false} EndsWithNewline(text: string, q: nat, lines: seq<string>, e: nat)
    requires lines != [] && Ended(lines) && LinesAt(text, q, lines, e)
    ensures q < e <= |text| && text[e - 1] == '\n'
    decreases |lines|
  {
    if |lines| == 1 {
      AtIndex(text, q, lines[0], |lines[0]| - 1);
    } else {
      EndsWithNewline(text, q + |lines[0]|, lines[1..], e);
    }
  }

  lemma {:induction false} RowEndsWithNewline(fmt: Format, row: seq<Field>)
    ensures |RowText(fmt, row)| > 0 && RowText(fmt, row)[|RowText(fmt, row)| - 1] == '\n'
  {
    if |row| > 1 {
      RowEndsWithNewline(fmt, row[1..]);
    }
  }

  lemma TextsEnded(fmt: Format, rows: seq<seq<Field>>, lines: seq<string>)
    requires Texts(fmt, rows, lines)
    ensures Ended(lines)
  {
    forall i | 0 <= i < |lines|
      ensures lines[i] != [] && lines[i][|lines[i]| - 1] == '\n'
    {
      assert lines[i] == RowText(fmt, rows[i]);
      RowEndsWithNewline(fmt, rows[i]);
    }
  }

  // ---- What the parser makes of a window ----

  lemma {:induction false} FieldsGrow(fmt: Format, text: string, s: State)
    ensures s.fields <= Run(fmt, text, s).fields
    decreases |text| - s.pos
  {
    if s.pos < |text| && !GivesUp(fmt, text, s) {
      FieldsGrow(fmt, text, Next(fmt, text, s));
    }
  }

  lemma CutClear(fmt: Format, data: string, m: nat, row: seq<Field>)
    requires fmt.Proper() && ValidRow(fmt, row) && CutAt(data, m, RowText(fmt, row)) && |data| < m + |RowText(fmt, row)|
    ensures ClearAt(fmt, data, m)
  {
    RowBegins(fmt, row);
    if m < |data| {
      assert Blank(row) ==> |RowText(fmt, row)| == 1;
      CutIndex(data, m, RowText(fmt, row), 0);
    }
  }

  /** The rows of the window are recorded, but for empty lines behind others, and the parser ends at the start of
      the row cut off.  At `b`, the start of the first row, it may have read a byte-order mark. */
  lemma WindowParsed(fmt: Format, data: string, s: State, rows: seq<seq<Field>>, lines: seq<string>, b: nat, k: nat, m: nat)
    requires fmt.Proper() && ValidRows(fmt, rows) && Texts(fmt, rows, lines) && WindowOf(data, b, lines, k, m)
    requires Between(s) && s.pos == b && (k == 0 ==> AtBoundary(s)) && s.rows == []
    ensures var e := Run(fmt, data, s);
            && e.rowStart == m && RowsHold(fmt, data, e.fields, e.rows, Delivered(rows[..k]))
            && (k == |rows| ==> AtBoundary(e))
  {
    RowsOfWindow(fmt, data, rows, lines, b, k, m);
    TextIsTable(fmt, data, b, rows[..k], m);
    var recorded := RowsAreDone(fmt, data, s, rows[..k], m);
    WindowEnds(fmt, data, AfterRows(fmt, data, s, rows[..k]), rows, k, m);
    OverRows(fmt, data, s, rows[..k], m);
  }

  lemma RowsOfWindow(fmt: Format, data: string, rows: seq<seq<Field>>, lines: seq<string>, b: nat, k: nat, m: nat)
    requires fmt.Proper() && ValidRows(fmt, rows) && Texts(fmt, rows, lines) && WindowOf(data, b, lines, k, m)
    ensures LeavesAt(fmt, data, b, rows[..k], m) && ClearAt(fmt, data, m)
    ensures k < |rows| ==> CutWithin(fmt, data, m, rows[k])
  {
    StandsAlike(fmt, data, b, rows[..k], lines[..k], m);
    if k < |rows| {
      assert lines[k] == RowText(fmt, rows[k]);
      CutClear(fmt, data, m, rows[k]);
      CutIsWithin(fmt, data, m, rows[k]);
    }
  }

  lemma WindowEnds(fmt: Format, data: string, s: State, rows: seq<seq<Field>>, k: nat, m: nat)
    requires fmt.Proper() && ValidRows(fmt, rows) && k <= |rows| && AtBoundary(s) && s.pos == m <= |data|
    requires if k == |rows| then m == |data| else CutWithin(fmt, data, m, rows[k])
    requires RowsHold(fmt, data, s.fields, s.rows, Delivered(rows[..k]))
    ensures var e := Run(fmt, data, s);
            && e.rowStart == m && RowsHold(fmt, data, e.fields, e.rows, Delivered(rows[..k]))
            && (k == |rows| ==> AtBoundary(e))
  {
    FieldsGrow(fmt, data, s);
    RowsHoldPrefix(fmt, data, s.fields, Run(fmt, data, s).fields, s.rows, Delivered(rows[..k]));
    if k < |rows| {
      CutRow(fmt, data, s, rows[k]);
    }
  }

  lemma RowsHoldPrefix(fmt: Format, text: string, fields: seq<RawField>, fields': seq<RawField>, rows: seq<Row>, table: seq<seq<Field>>)
    requires fields <= fields' && RowsHold(fmt, text, fields, rows, table)
    ensures RowsHold(fmt, text, fields', rows, table)
  {
    forall i | 0 <= i < |rows|
      ensures Holds(fmt, text, rows[i].dataStart, fields', rows[i].fieldsStart, Values(table[i]))
    {
      HoldsPrefix(fmt, text, rows[i].dataStart, fields, fields', rows[i].fieldsStart, Values(table[i]));
    }
  }

  /** At the end of the file nothing is left over. */
  lemma NothingLeft(fmt: Format, data: string, s: State)
    requires AtBoundary(s) && (data != [] ==> !KindOf(fmt, data[|data| - 1], false).Separator?)
    ensures EndFeed(fmt, data, s) == s
  {
  }
}
