/** What the parser makes of valid text: field by field, row by row. */
module CsvRows {
  import opened CsvFlags
  import opened CsvParser
  import opened CsvText

  /** Nothing of the next field has been read. */
  predicate Fresh(s: State) {
    s.fieldStart == Uninitialized && s.fieldLength == 0 && !s.quoteEscape && s.rowStart <= s.pos
  }

  /** A separator or a newline stands at `p`. */
  predicate EndsAt(fmt: Format, text: string, p: nat) {
    p < |text| && (KindOf(fmt, text[p], false).Separator? || KindOf(fmt, text[p], false).Newline?)
  }

  lemma {:induction false} RunEndIs(fmt: Format, text: string, p: nat, e: nat, quoted: bool)
    requires p <= e <= |text| && forall i :: p <= i < e ==> KindOf(fmt, text[i], quoted).Ordinary?
    requires e < |text| ==> !KindOf(fmt, text[e], quoted).Ordinary?
    ensures RunEnd(fmt, text, p, quoted) == e
    decreases e - p
  {
    if p < e {
      RunEndIs(fmt, text, p + 1, e, quoted);
    }
  }

  // ---- Inside quotes ----

  /** In quotes, with the length up to date. */
  predicate Inside(s: State) {
    s.quoteEscape && s.fieldStart >= 0 && s.fieldLength == s.pos - s.rowStart - s.fieldStart
  }

  function FirstQuote(fmt: Format, s: string): (n: nat)
    ensures n <= |s| && (forall i :: 0 <= i < n ==> s[i] != fmt.quote) && (n < |s| ==> s[n] == fmt.quote)
  {
    if s == [] || s[0] == fmt.quote then 0
    else
      var n := FirstQuote(fmt, s[1..]);
      assert forall i :: 1 <= i < n + 1 ==> s[i] == s[1..][i - 1];
      n + 1
  }

  lemma DoubleUpToQuote(fmt: Format, s: string)
    ensures var n := FirstQuote(fmt, s);
            Double(fmt, s) == s[..n] + Double(fmt, s[n..])
  {
    var n := FirstQuote(fmt, s);
    assert s == s[..n] + s[n..];
    DoubleConcat(fmt, s[..n], s[n..]);
    DoubleNothing(fmt, s[..n]);
  }

  lemma DoubleStarts(fmt: Format, s: string)
    ensures Double(fmt, s) == [] <==> s == []
    ensures s != [] && s[0] == fmt.quote ==> Double(fmt, s) == [fmt.quote, fmt.quote] + Double(fmt, s[1..])
  {
  }

  lemma NotAt(text: string, p: nat, t: string, c: char)
    requires At(text, p, t) && c !in t
    ensures p + |t| <= |text| && forall i :: p <= i < p + |t| ==> text[i] != c
  {
    AtFits(text, p, t);
    forall i | p <= i < p + |t|
      ensures text[i] != c
    {
      AtIndex(text, p, t, i - p);
    }
  }

  lemma OrdinaryText(fmt: Format, text: string, p: nat, rest: string)
    requires rest != [] && rest[0] != fmt.quote && At(text, p, Double(fmt, rest) + [fmt.quote])
    ensures var n := FirstQuote(fmt, rest);
            && n >= 1 && At(text, p + n, Double(fmt, rest[n..]) + [fmt.quote])
            && |Double(fmt, rest)| == n + |Double(fmt, rest[n..])|
            && text[p + n] == fmt.quote && forall i :: p <= i < p + n ==> text[i] != fmt.quote
  {
    var n := FirstQuote(fmt, rest);
    var tail := Double(fmt, rest[n..]) + [fmt.quote];
    DoubleUpToQuote(fmt, rest);
    assert Double(fmt, rest) + [fmt.quote] == rest[..n] + tail;
    AtSplit(text, p, rest[..n], tail);
    NotAt(text, p, rest[..n], fmt.quote);
    DoubleStarts(fmt, rest[n..]);
    AtIndex(text, p + n, tail, 0);
  }

  /** Over the characters before the next quote. */
  lemma OverOrdinary(fmt: Format, text: string, s: State, n: nat)
    requires Inside(s) && n >= 1 && s.pos + n < |text| && text[s.pos + n] == fmt.quote
    requires forall i :: s.pos <= i < s.pos + n ==> text[i] != fmt.quote
    ensures Run(fmt, text, s) == Run(fmt, text, s.(pos := s.pos + n, fieldLength := s.fieldLength + n))
  {
    RunEndIs(fmt, text, s.pos, s.pos + n, true);
    assert KindOf(fmt, text[s.pos], true).Ordinary?;
  }

  /** Over a doubled quote. */
  lemma OverDoubled(fmt: Format, text: string, s: State, rest: string)
    requires fmt.Proper() && Inside(s) && rest != [] && rest[0] == fmt.quote
    requires At(text, s.pos, Double(fmt, rest) + [fmt.quote])
    ensures At(text, s.pos + 2, Double(fmt, rest[1..]) + [fmt.quote])
    ensures |Double(fmt, rest)| == 2 + |Double(fmt, rest[1..])|
    ensures Run(fmt, text, s)
            == Run(fmt, text, s.(pos := s.pos + 2, fieldLength := s.fieldLength + 2, hasDoubleQuote := true))
  {
    DoubleStarts(fmt, rest);
    var two, tail := [fmt.quote, fmt.quote], Double(fmt, rest[1..]) + [fmt.quote];
    assert Double(fmt, rest) + [fmt.quote] == two + tail;
    AtSplit(text, s.pos, two, tail);
    AtIndex(text, s.pos, two, 0);
    AtIndex(text, s.pos, two, 1);
  }

  /** Over the closing quote. */
  lemma OverClosing(fmt: Format, text: string, s: State)
    requires fmt.Proper() && Inside(s) && At(text, s.pos, [fmt.quote]) && EndsAt(fmt, text, s.pos + 1)
    ensures Run(fmt, text, s) == Run(fmt, text, s.(pos := s.pos + 1, quoteEscape := false))
  {
    AtIndex(text, s.pos, [fmt.quote], 0);
  }

  /** The state behind the closing quote. */
  function Closed(fmt: Format, s: State, rest: string): State {
    s.(pos := s.pos + |Double(fmt, rest)| + 1, quoteEscape := false, fieldLength := s.fieldLength + |Double(fmt, rest)|,
       hasDoubleQuote := s.hasDoubleQuote || fmt.quote in rest)
  }

  predicate QuotedAt(fmt: Format, text: string, s: State, rest: string) {
    Inside(s) && At(text, s.pos, Double(fmt, rest) + [fmt.quote])
  }

  /** Over the rest of a quoted field. */
  lemma {:induction false} OverQuoted(fmt: Format, text: string, s: State, rest: string)
    requires fmt.Proper() && QuotedAt(fmt, text, s, rest) && EndsAt(fmt, text, s.pos + |Double(fmt, rest)| + 1)
    ensures Run(fmt, text, s) == Run(fmt, text, Closed(fmt, s, rest))
    decreases |rest|
  {
    if rest == [] {
      assert Double(fmt, rest) + [fmt.quote] == [fmt.quote];
      OverClosing(fmt, text, s);
    } else {
      var s' := OverSome(fmt, text, s, rest);
      OverQuoted(fmt, text, s', rest[SomeOf(fmt, rest)..]);
    }
  }

  /** Up to a closing quote at the very end, where the parser gives up. */
  lemma {:induction false} QuotedToEnd(fmt: Format, text: string, s: State, rest: string)
    requires fmt.Proper() && QuotedAt(fmt, text, s, rest) && s.pos + |Double(fmt, rest)| + 1 == |text|
    ensures Run(fmt, text, s) == Closed(fmt, s, rest).(pos := |text| - 1, quoteEscape := true)
    decreases |rest|
  {
    if rest == [] {
      assert Double(fmt, rest) + [fmt.quote] == [fmt.quote];
      AtIndex(text, s.pos, [fmt.quote], 0);
    } else {
      var s' := OverSome(fmt, text, s, rest);
      QuotedToEnd(fmt, text, s', rest[SomeOf(fmt, rest)..]);
    }
  }

  /** How much of the text in quotes is read at once. */
  function SomeOf(fmt: Format, rest: string): (n: nat)
    requires rest != []
    ensures 1 <= n <= |rest|
  {
    if rest[0] == fmt.quote then 1 else FirstQuote(fmt, rest)
  }

  lemma OverSome(fmt: Format, text: string, s: State, rest: string) returns (s': State)
    requires fmt.Proper() && QuotedAt(fmt, text, s, rest) && rest != []
    ensures Run(fmt, text, s) == Run(fmt, text, s')
    ensures QuotedAt(fmt, text, s', rest[SomeOf(fmt, rest)..])
    ensures Closed(fmt, s, rest) == Closed(fmt, s', rest[SomeOf(fmt, rest)..])
    ensures s'.pos + |Double(fmt, rest[SomeOf(fmt, rest)..])| == s.pos + |Double(fmt, rest)|
  {
    if rest[0] == fmt.quote {
      s' := OverSomeDoubled(fmt, text, s, rest);
    } else {
      s' := OverSomeOrdinary(fmt, text, s, rest);
    }
  }

  lemma OverSomeDoubled(fmt: Format, text: string, s: State, rest: string) returns (s': State)
    requires fmt.Proper() && QuotedAt(fmt, text, s, rest) && rest != [] && rest[0] == fmt.quote
    ensures Run(fmt, text, s) == Run(fmt, text, s') && QuotedAt(fmt, text, s', rest[1..])
    ensures Closed(fmt, s, rest) == Closed(fmt, s', rest[1..])
  {
    OverDoubled(fmt, text, s, rest);
    s' := s.(pos := s.pos + 2, fieldLength := s.fieldLength + 2, hasDoubleQuote := true);
  }

  lemma OverSomeOrdinary(fmt: Format, text: string, s: State, rest: string) returns (s': State)
    requires fmt.Proper() && QuotedAt(fmt, text, s, rest) && rest != [] && rest[0] != fmt.quote
    ensures Run(fmt, text, s) == Run(fmt, text, s') && QuotedAt(fmt, text, s', rest[FirstQuote(fmt, rest)..])
    ensures Closed(fmt, s, rest) == Closed(fmt, s', rest[FirstQuote(fmt, rest)..])
  {
    var n := FirstQuote(fmt, rest);
    OrdinaryText(fmt, text, s.pos, rest);
    OverOrdinary(fmt, text, s, n);
    assert rest == rest[..n] + rest[n..];
    s' := s.(pos := s.pos + n, fieldLength := s.fieldLength + n);
  }

  // ---- A field ----

  /** The state when all of a field has been read but not yet recorded. */
  function AfterField(fmt: Format, s: State, f: Field): State {
    var offset := if s.pos >= s.rowStart then s.pos - s.rowStart else 0;
    match f
    case Plain(v) =>
      s.(pos := s.pos + |v|, fieldStart := if v == "" then Uninitialized else offset, fieldLength := |v|)
    case Quoted(v) =>
      s.(pos := s.pos + |FieldText(fmt, f)|, fieldStart := offset + 1, fieldLength := |Double(fmt, v)|,
         hasDoubleQuote := s.hasDoubleQuote || fmt.quote in v)
  }

  lemma OverPlain(fmt: Format, text: string, s: State, f: Field)
    requires fmt.Proper() && Fresh(s) && f.Plain? && ValidField(fmt, f)
    requires At(text, s.pos, f.value) && EndsAt(fmt, text, s.pos + |f.value|)
    ensures Run(fmt, text, s) == Run(fmt, text, AfterField(fmt, s, f))
  {
    var v := f.value;
    if v == "" {
      assert AfterField(fmt, s, f) == s;
    } else {
      forall i | s.pos <= i < s.pos + |v|
        ensures KindOf(fmt, text[i], false).Ordinary?
      {
        AtIndex(text, s.pos, v, i - s.pos);
      }
      RunEndIs(fmt, text, s.pos, s.pos + |v|, false);
      assert KindOf(fmt, text[s.pos], false).Ordinary?;
    }
  }

  lemma OverOpening(fmt: Format, text: string, s: State)
    requires fmt.Proper() && Fresh(s) && s.pos + 1 < |text| && text[s.pos] == fmt.quote
    ensures Run(fmt, text, s)
            == Run(fmt, text, Begun(s))
  {
  }

  lemma QuotedText(fmt: Format, text: string, p: nat, v: string)
    requires At(text, p, FieldText(fmt, Quoted(v)))
    ensures p + 1 < |text| && text[p] == fmt.quote && At(text, p + 1, Double(fmt, v) + [fmt.quote])
    ensures |FieldText(fmt, Quoted(v))| == |Double(fmt, v)| + 2
  {
    AtSplit(text, p, [fmt.quote], Double(fmt, v) + [fmt.quote]);
    AtIndex(text, p, [fmt.quote], 0);
  }

  function Begun(s: State): State {
    s.(quoteEscape := true, pos := s.pos + 1, fieldStart := s.pos + 1 - s.rowStart)
  }

  lemma OverQuotedField(fmt: Format, text: string, s: State, v: string)
    requires fmt.Proper() && Fresh(s) && s.pos + 1 < |text| && text[s.pos] == fmt.quote
    requires QuotedAt(fmt, text, Begun(s), v) && EndsAt(fmt, text, Begun(s).pos + |Double(fmt, v)| + 1)
    ensures Run(fmt, text, s) == Run(fmt, text, Closed(fmt, Begun(s), v))
  {
    OverQuoted(fmt, text, Begun(s), v);
    OverOpening(fmt, text, s);
  }

  lemma OverField(fmt: Format, text: string, s: State, f: Field)
    requires fmt.Proper() && Fresh(s) && ValidField(fmt, f)
    requires At(text, s.pos, FieldText(fmt, f)) && EndsAt(fmt, text, s.pos + |FieldText(fmt, f)|)
    ensures Run(fmt, text, s) == Run(fmt, text, AfterField(fmt, s, f))
  {
    if f.Plain? {
      OverPlain(fmt, text, s, f);
    } else {
      QuotedText(fmt, text, s.pos, f.value);
      OverQuotedField(fmt, text, s, f.value);
      assert Closed(fmt, Begun(s), f.value) == AfterField(fmt, s, f);
    }
  }

  // ---- What is recorded ----

  lemma PlainValue(fmt: Format, v: string, has: bool)
    requires fmt.quote !in v
    ensures (if has then Unescape(fmt, v, false) else v) == v
  {
    DoubleNothing(fmt, v);
    UnescapeDouble(fmt, v);
  }

  lemma QuotedValue(fmt: Format, v: string, has: bool)
    requires fmt.quote in v ==> has
    ensures (if has then Unescape(fmt, Double(fmt, v), false) else Double(fmt, v)) == v
  {
    UnescapeDouble(fmt, v);
    if fmt.quote !in v {
      DoubleNothing(fmt, v);
    }
  }

  /** The offsets lead to the value. */
  ghost predicate ReadsAs(fmt: Format, text: string, rowStart: nat, raw: RawField, v: string) {
    rowStart + raw.start + raw.length <= |text| && FieldValue(fmt, text, rowStart, raw) == v
  }

  function Recorded(s: State): RawField {
    RawField(Less(s.fieldStart, 0), s.fieldLength, s.hasDoubleQuote)
  }

  lemma PlainReadsBack(fmt: Format, text: string, s: State, f: Field)
    requires Fresh(s) && f.Plain? && ValidField(fmt, f) && At(text, s.pos, f.value)
    ensures ReadsAs(fmt, text, s.rowStart, Recorded(AfterField(fmt, s, f)), f.value)
  {
    assert fmt.quote !in f.value;
    PlainValue(fmt, f.value, s.hasDoubleQuote);
    if f.value == "" {
      assert text[s.rowStart..s.rowStart] == "";
    } else {
      SliceReads(fmt, text, s.rowStart, Recorded(AfterField(fmt, s, f)), s.pos, f.value, f.value);
    }
  }

  lemma QuotedReadsBack(fmt: Format, text: string, s: State, v: string)
    requires Fresh(s) && At(text, s.pos, FieldText(fmt, Quoted(v)))
    ensures ReadsAs(fmt, text, s.rowStart, Recorded(AfterField(fmt, s, Quoted(v))), v)
  {
    AtSplit(text, s.pos, [fmt.quote], Double(fmt, v) + [fmt.quote]);
    AtSplit(text, s.pos + 1, Double(fmt, v), [fmt.quote]);
    QuotedValue(fmt, v, s.hasDoubleQuote || fmt.quote in v);
    SliceReads(fmt, text, s.rowStart, Recorded(AfterField(fmt, s, Quoted(v))), s.pos + 1, Double(fmt, v), v);
  }

  lemma SliceReads(fmt: Format, text: string, rowStart: nat, raw: RawField, p: nat, content: string, v: string)
    requires At(text, p, content) && rowStart + raw.start == p && raw.length == |content|
    requires (if raw.hasDoubleQuote then Unescape(fmt, content, false) else content) == v
    ensures ReadsAs(fmt, text, rowStart, raw, v)
  {
    AtSlice(text, p, content);
  }

  lemma FieldReadsBack(fmt: Format, text: string, s: State, f: Field)
    requires Fresh(s) && ValidField(fmt, f) && At(text, s.pos, FieldText(fmt, f))
    ensures ReadsAs(fmt, text, s.rowStart, Recorded(AfterField(fmt, s, f)), f.value)
  {
    if f.Plain? {
      PlainReadsBack(fmt, text, s, f);
    } else {
      QuotedReadsBack(fmt, text, s, f.value);
    }
  }

  // ---- A row ----

  /** From `from` on, the recorded fields lead to the values. */
  ghost predicate Holds(fmt: Format, text: string, rowStart: nat, fields: seq<RawField>, from: nat, values: seq<string>) {
    && from + |values| <= |fields|
    && forall i :: 0 <= i < |values| ==> ReadsAs(fmt, text, rowStart, fields[from + i], values[i])
  }

  /** Recording one more field. */
  lemma HoldsMore(fmt: Format, text: string, rowStart: nat, fields: seq<RawField>, from: nat, values: seq<string>,
                  raw: RawField, v: string)
    requires Holds(fmt, text, rowStart, fields, from, values) && |fields| == from + |values|
    requires ReadsAs(fmt, text, rowStart, raw, v)
    ensures Holds(fmt, text, rowStart, fields + [raw], from, values + [v])
  {
  }

  /** In the middle of a row whose first fields are recorded. */
  ghost predicate InRow(fmt: Format, text: string, s: State, done: seq<string>) {
    && Fresh(s) && Holds(fmt, text, s.rowStart, s.fields, s.fieldsStart, done)
    && |s.fields| == s.fieldsStart + |done|
  }

  lemma OverSeparator(fmt: Format, text: string, s: State, f: Field)
    requires fmt.Proper() && Fresh(s) && ValidField(fmt, f) && At(text, s.pos, FieldText(fmt, f))
    requires s.pos + |FieldText(fmt, f)| < |text| && text[s.pos + |FieldText(fmt, f)|] == fmt.delim
    ensures Run(fmt, text, s) == Run(fmt, text, EndField(AfterField(fmt, s, f)))
  {
    OverField(fmt, text, s, f);
    SeparatorStep(fmt, text, AfterField(fmt, s, f));
  }

  lemma SeparatorStep(fmt: Format, text: string, s: State)
    requires fmt.Proper() && s.pos < |text| && text[s.pos] == fmt.delim && !s.quoteEscape
    ensures Run(fmt, text, s) == Run(fmt, text, EndField(s))
  {
  }

  lemma NewlineStep(fmt: Format, text: string, s: State)
    requires fmt.Proper() && s.pos < |text| && text[s.pos] == '\n' && !s.quoteEscape
    ensures Run(fmt, text, s) == Run(fmt, text, EndRow(s, PastNewline(fmt, text, s.pos)))
  {
  }

  /** A carriage return ends a row like a newline, and a newline behind it belongs to it. */
  lemma CrLfStep(fmt: Format, text: string, s: State)
    requires fmt.Proper() && s.pos < |text| && text[s.pos] == '\r' && !s.quoteEscape
    ensures Run(fmt, text, s) == Run(fmt, text, EndRow(s, if s.pos + 1 < |text| && text[s.pos + 1] in "\r\n" then s.pos + 2 else s.pos + 1))
  {
  }

  lemma AfterFieldIs(fmt: Format, s: State, f: Field)
    requires Fresh(s)
    ensures var a := AfterField(fmt, s, f);
            && a.pos == s.pos + |FieldText(fmt, f)| && !a.quoteEscape && a.rowStart == s.rowStart
            && a.fieldsStart == s.fieldsStart && a.fields == s.fields && a.rows == s.rows
  {
  }

  lemma OverLastField(fmt: Format, text: string, s: State, f: Field)
    requires fmt.Proper() && Fresh(s) && ValidField(fmt, f) && At(text, s.pos, FieldText(fmt, f))
    requires s.pos + |FieldText(fmt, f)| < |text| && text[s.pos + |FieldText(fmt, f)|] == '\n'
    ensures var a := AfterField(fmt, s, f);
            Run(fmt, text, s) == Run(fmt, text, EndRow(a, PastNewline(fmt, text, a.pos)))
  {
    AfterFieldIs(fmt, s, f);
    OverField(fmt, text, s, f);
    NewlineStep(fmt, text, AfterField(fmt, s, f));
  }

  /** The state after a row. */
  function AfterRow(fmt: Format, text: string, s: State, row: seq<Field>): State
    requires row != []
    decreases |row|
  {
    var s1 := AfterField(fmt, s, row[0]);
    if |row| == 1 then EndRow(s1, PastNewline(fmt, text, s1.pos)) else AfterRow(fmt, text, EndField(s1), row[1..])
  }

  /** The text of a row, as its first field and what follows. */
  lemma RowTextSplits(fmt: Format, text: string, p: nat, row: seq<Field>)
    requires row != [] && At(text, p, RowText(fmt, row))
    ensures var e := p + |FieldText(fmt, row[0])|;
            && At(text, p, FieldText(fmt, row[0])) && e < |text|
            && (|row| == 1 ==> text[e] == '\n' && e == p + |RowText(fmt, row)| - 1)
            && (|row| > 1 ==> text[e] == fmt.delim && At(text, e + 1, RowText(fmt, row[1..]))
                              && e + 1 + |RowText(fmt, row[1..])| == p + |RowText(fmt, row)|)
  {
    var f := FieldText(fmt, row[0]);
    if |row| == 1 {
      AtSnoc(text, p, f, '\n');
    } else {
      var tail := RowText(fmt, row[1..]);
      assert RowText(fmt, row) == (f + [fmt.delim]) + tail;
      AtSplit(text, p, f + [fmt.delim], tail);
      AtSnoc(text, p, f, fmt.delim);
    }
  }

  /** Over a whole row. */
  lemma {:induction false} OverRow(fmt: Format, text: string, s: State, row: seq<Field>)
    requires fmt.Proper() && ValidRow(fmt, row) && Fresh(s) && At(text, s.pos, RowText(fmt, row))
    ensures Run(fmt, text, s) == Run(fmt, text, AfterRow(fmt, text, s, row))
    decreases |row|
  {
    RowTextSplits(fmt, text, s.pos, row);
    if |row| == 1 {
      OverLastField(fmt, text, s, row[0]);
    } else {
      OverSeparator(fmt, text, s, row[0]);
      OverRow(fmt, text, EndField(AfterField(fmt, s, row[0])), row[1..]);
    }
  }

  // ---- What is recorded of a row ----

  /** From `s`, in a row with the fields `done` recorded, to `s'` after the fields `values` and the end
      of the row. */
  ghost predicate RowDone(fmt: Format, text: string, s: State, s': State, values: seq<string>) {
    && Fresh(s') && s'.rowStart == s'.pos && s'.fieldsStart == |s'.fields| == s.fieldsStart + |values|
    && s.fields <= s'.fields && s'.rows == s.rows + [Row(s.rowStart, s.fieldsStart, |values|)]
    && Holds(fmt, text, s.rowStart, s'.fields, s.fieldsStart, values)
  }

  lemma LastFieldDone(fmt: Format, text: string, s: State, f: Field, done: seq<string>, q: nat)
    requires InRow(fmt, text, s, done) && ValidField(fmt, f) && At(text, s.pos, FieldText(fmt, f))
    ensures RowDone(fmt, text, s, EndRow(AfterField(fmt, s, f), q), done + [f.value])
  {
    FieldReadsBack(fmt, text, s, f);
    HoldsMore(fmt, text, s.rowStart, s.fields, s.fieldsStart, done, Recorded(AfterField(fmt, s, f)), f.value);
  }

  lemma FieldDone(fmt: Format, text: string, s: State, f: Field, done: seq<string>)
    requires InRow(fmt, text, s, done) && ValidField(fmt, f) && At(text, s.pos, FieldText(fmt, f))
    ensures InRow(fmt, text, EndField(AfterField(fmt, s, f)), done + [f.value])
  {
    FieldReadsBack(fmt, text, s, f);
    HoldsMore(fmt, text, s.rowStart, s.fields, s.fieldsStart, done, Recorded(AfterField(fmt, s, f)), f.value);
  }

  lemma ValuesCons(row: seq<Field>, done: seq<string>)
    requires row != []
    ensures done + Values(row) == done + [row[0].value] + Values(row[1..])
    ensures |row| == 1 ==> done + Values(row) == done + [row[0].value]
  {
  }

  /** The whole row is recorded; `all` are the values of all its fields. */
  lemma {:induction false} RowIsDone(fmt: Format, text: string, s: State, row: seq<Field>, done: seq<string>, all: seq<string>)
    requires ValidRow(fmt, row) && InRow(fmt, text, s, done) && At(text, s.pos, RowText(fmt, row))
    requires all == done + Values(row)
    ensures RowDone(fmt, text, s, AfterRow(fmt, text, s, row), all)
    decreases |row|
  {
    ValuesCons(row, done);
    RowTextSplits(fmt, text, s.pos, row);
    if |row| == 1 {
      LastFieldDone(fmt, text, s, row[0], done, PastNewline(fmt, text, AfterField(fmt, s, row[0]).pos));
    } else {
      FieldDone(fmt, text, s, row[0], done);
      NextFieldAt(fmt, text, s, row);
      RowIsDone(fmt, text, EndField(AfterField(fmt, s, row[0])), row[1..], done + [row[0].value], all);
      RowDoneFrom(fmt, text, s, row[0], AfterRow(fmt, text, s, row), all);
    }
  }

  lemma NextFieldAt(fmt: Format, text: string, s: State, row: seq<Field>)
    requires Fresh(s) && |row| > 1 && At(text, s.pos, RowText(fmt, row))
    ensures At(text, EndField(AfterField(fmt, s, row[0])).pos, RowText(fmt, row[1..]))
    ensures AfterRow(fmt, text, s, row) == AfterRow(fmt, text, EndField(AfterField(fmt, s, row[0])), row[1..])
  {
    AfterFieldIs(fmt, s, row[0]);
    RowTextSplits(fmt, text, s.pos, row);
  }

  /** Where a row ends. */
  lemma {:induction false} RowEnds(fmt: Format, text: string, s: State, row: seq<Field>)
    requires row != [] && Fresh(s)
    ensures AfterRow(fmt, text, s, row).pos == PastNewline(fmt, text, s.pos + |RowText(fmt, row)| - 1)
    decreases |row|
  {
    AfterFieldIs(fmt, s, row[0]);
    if |row| > 1 {
      RowEnds(fmt, text, EndField(AfterField(fmt, s, row[0])), row[1..]);
    }
  }

  lemma RowDoneFrom(fmt: Format, text: string, s: State, f: Field, s': State, values: seq<string>)
    requires Fresh(s) && RowDone(fmt, text, EndField(AfterField(fmt, s, f)), s', values)
    ensures RowDone(fmt, text, s, s', values)
  {
    AfterFieldIs(fmt, s, f);
  }
}
