/** Quotes where section 2 of RFC 4180 does not allow them: behind the first character of a field that is not in quotes,
    and alone in one that is.  The parser takes them for ordinary characters. */
module CsvLoose {
  import opened CsvFlags
  import opened CsvParser
  import opened CsvText
  import opened CsvRows
  import opened CsvReader
  import opened CsvMmap

  /** The field ends at `p`, or the text does. */
  predicate StopsAt(fmt: Format, text: string, p: nat) {
    p == |text| || EndsAt(fmt, text, p)
  }

  predicate NoEnd(fmt: Format, s: string) {
    forall i :: 0 <= i < |s| ==> s[i] != fmt.delim && !IsNewline(s[i])
  }

  // ---- A field without quotes around it ----

  /** Quotes may stand anywhere but at the start. */
  predicate Loose(fmt: Format, v: string) {
    v != "" && v[0] != fmt.quote && NoEnd(fmt, v)
  }

  /** In a field that is not in quotes, with the length up to date. */
  predicate Within(s: State) {
    !s.quoteEscape && s.fieldStart >= 0 && s.fieldLength == s.pos - s.rowStart - s.fieldStart && s.fieldLength > 0
  }

  function Ahead(s: State, n: nat): State {
    s.(pos := s.pos + n, fieldLength := s.fieldLength + n)
  }

  lemma OneStep(fmt: Format, text: string, s: State, s': State)
    requires s.pos < |text| && !GivesUp(fmt, text, s) && Next(fmt, text, s) == s'
    ensures Run(fmt, text, s) == Run(fmt, text, s')
  {
  }

  lemma LooseRun(fmt: Format, text: string, p: nat, rest: string)
    requires rest != "" && rest[0] != fmt.quote && NoEnd(fmt, rest) && At(text, p, rest) && StopsAt(fmt, text, p + |rest|)
    ensures var n := FirstQuote(fmt, rest);
            1 <= n && p + n <= |text| && RunEnd(fmt, text, p, false) == p + n && At(text, p + n, rest[n..])
  {
    var n := FirstQuote(fmt, rest);
    assert rest == rest[..n] + rest[n..];
    AtSplit(text, p, rest[..n], rest[n..]);
    AtFits(text, p, rest);
    forall i | p <= i < p + n
      ensures KindOf(fmt, text[i], false).Ordinary?
    {
      AtIndex(text, p, rest, i - p);
    }
    if n < |rest| {
      AtIndex(text, p, rest, n);
    }
    RunEndIs(fmt, text, p, p + n, false);
  }

  /** One step on: over a quote, or over the characters before the next one. */
  lemma LooseStep(fmt: Format, text: string, s: State, rest: string) returns (n: nat)
    requires fmt.Proper() && Within(s) && rest != "" && NoEnd(fmt, rest) && At(text, s.pos, rest) && StopsAt(fmt, text, s.pos + |rest|)
    ensures 1 <= n <= |rest| && Run(fmt, text, s) == Run(fmt, text, Ahead(s, n)) && At(text, s.pos + n, rest[n..]) && NoEnd(fmt, rest[n..])
  {
    AtIndex(text, s.pos, rest, 0);
    if rest[0] == fmt.quote {
      n := 1;
    } else {
      n := FirstQuote(fmt, rest);
      LooseRun(fmt, text, s.pos, rest);
    }
    OneStep(fmt, text, s, Ahead(s, n));
  }

  /** To the end of the field. */
  lemma {:induction false} OverLooseRest(fmt: Format, text: string, s: State, rest: string)
    requires fmt.Proper() && Within(s) && NoEnd(fmt, rest) && At(text, s.pos, rest) && StopsAt(fmt, text, s.pos + |rest|)
    ensures Run(fmt, text, s) == Run(fmt, text, Ahead(s, |rest|))
    decreases |rest|
  {
    if rest != "" {
      var n := LooseStep(fmt, text, s, rest);
      OverLooseRest(fmt, text, Ahead(s, n), rest[n..]);
      assert Ahead(Ahead(s, n), |rest| - n) == Ahead(s, |rest|);
    }
  }

  /** The parser passes the field as it would without quotes in it. */
  lemma OverLoose(fmt: Format, text: string, s: State, v: string)
    requires fmt.Proper() && Fresh(s) && Loose(fmt, v) && At(text, s.pos, v) && StopsAt(fmt, text, s.pos + |v|)
    ensures Run(fmt, text, s) == Run(fmt, text, AfterField(fmt, s, Plain(v)))
  {
    var n := FirstQuote(fmt, v);
    AtIndex(text, s.pos, v, 0);
    LooseRun(fmt, text, s.pos, v);
    var s' := s.(pos := s.pos + n, fieldStart := s.pos - s.rowStart, fieldLength := n);
    OneStep(fmt, text, s, s');
    OverLooseRest(fmt, text, s', v[n..]);
    assert Ahead(s', |v| - n) == AfterField(fmt, s, Plain(v));
  }

  function Quotes(fmt: Format, s: string): nat {
    if s == "" then 0 else Quotes(fmt, s[1..]) + if s[0] == fmt.quote then 1 else 0
  }

  lemma {:induction false} UnescapeShorter(fmt: Format, s: string, prev: bool)
    ensures |Unescape(fmt, s, prev)| <= |s|
    ensures |Unescape(fmt, s, prev)| == |s| <==> Quotes(fmt, s) + (if prev then 1 else 0) <= 1
    ensures Quotes(fmt, s) + (if prev then 1 else 0) <= 1 ==> Unescape(fmt, s, prev) == s
  {
    if s != "" {
      UnescapeShorter(fmt, s[1..], if s[0] == fmt.quote then !prev else prev);
      assert s == [s[0]] + s[1..];
    }
  }

  /** It reads back unchanged, unless the flag for doubled quotes is still set from the window before and there are two
      quotes in it. */
  lemma LooseReadsBack(fmt: Format, text: string, s: State, v: string)
    requires Fresh(s) && Loose(fmt, v) && At(text, s.pos, v)
    ensures ReadsAs(fmt, text, s.rowStart, Recorded(AfterField(fmt, s, Plain(v))), v) <==> !s.hasDoubleQuote || Quotes(fmt, v) <= 1
  {
    var raw := Recorded(AfterField(fmt, s, Plain(v)));
    UnescapeShorter(fmt, v, false);
    AtSlice(text, s.pos, v);
    assert FieldValue(fmt, text, s.rowStart, raw) == if s.hasDoubleQuote then Unescape(fmt, v, false) else v;
  }

  // ---- A field in quotes ----

  /** What can stand between two quotes: a quote in it is doubled, or the field goes on behind it. */
  predicate InnerText(fmt: Format, w: string) {
    if w == "" then true
    else if w[0] != fmt.quote then InnerText(fmt, w[1..])
    else if |w| == 1 then false
    else if w[1] == fmt.quote then InnerText(fmt, w[2..])
    else w[1] != fmt.delim && !IsNewline(w[1]) && InnerText(fmt, w[1..])
  }

  /** Some quote is doubled. */
  predicate HasPair(fmt: Format, w: string) {
    if |w| <= 1 then false
    else (w[0] == fmt.quote && w[1] == fmt.quote) || HasPair(fmt, w[1..])
  }

  /** The state behind the closing quote. */
  function Past(fmt: Format, s: State, w: string): State {
    s.(pos := s.pos + |w| + 1, quoteEscape := false, fieldLength := s.fieldLength + |w|, hasDoubleQuote := s.hasDoubleQuote || HasPair(fmt, w))
  }

  predicate InnerAt(fmt: Format, text: string, s: State, w: string) {
    Inside(s) && InnerText(fmt, w) && At(text, s.pos, w + [fmt.quote]) && EndsAt(fmt, text, s.pos + |w| + 1)
  }

  /** Over a run of other characters. */
  lemma InnerRun(fmt: Format, text: string, s: State, w: string) returns (s': State, n: nat)
    requires fmt.Proper() && InnerAt(fmt, text, s, w) && w != "" && w[0] != fmt.quote
    ensures 1 <= n <= |w| && s' == Ahead(s, n) && Run(fmt, text, s) == Run(fmt, text, s')
    ensures InnerAt(fmt, text, s', w[n..]) && HasPair(fmt, w[n..]) == HasPair(fmt, w)
  {
    n := FirstQuote(fmt, w);
    assert w + [fmt.quote] == w[..n] + (w[n..] + [fmt.quote]);
    AtSplit(text, s.pos, w[..n], w[n..] + [fmt.quote]);
    AtIndex(text, s.pos + n, w[n..] + [fmt.quote], 0);
    NotAt(text, s.pos, w[..n], fmt.quote);
    OverOrdinary(fmt, text, s, n);
    SkipRun(fmt, w, n);
    s' := Ahead(s, n);
  }

  lemma {:induction false} SkipRun(fmt: Format, w: string, n: nat)
    requires n <= |w| && forall i :: 0 <= i < n ==> w[i] != fmt.quote
    ensures InnerText(fmt, w) == InnerText(fmt, w[n..]) && HasPair(fmt, w) == HasPair(fmt, w[n..])
  {
    if n > 0 {
      SkipRun(fmt, w[1..], n - 1);
      assert w[1..][n - 1..] == w[n..];
    } else {
      assert w[0..] == w;
    }
  }

  /** Over a doubled quote, or one that stands alone. */
  lemma InnerQuote(fmt: Format, text: string, s: State, w: string) returns (s': State, n: nat)
    requires fmt.Proper() && InnerAt(fmt, text, s, w) && w != "" && w[0] == fmt.quote
    ensures 1 <= n <= |w| && Run(fmt, text, s) == Run(fmt, text, s') && InnerAt(fmt, text, s', w[n..])
    ensures Past(fmt, s', w[n..]) == Past(fmt, s, w)
  {
    n := if w[1] == fmt.quote then 2 else 1;
    QuoteStands(text, s.pos, w, n, fmt.quote);
    s' := Ahead(s, n);
    if n == 2 {
      s' := s'.(hasDoubleQuote := true);
    }
    QuoteStep(fmt, text, s, n);
  }

  lemma QuoteStands(text: string, p: nat, w: string, n: nat, c: char)
    requires n <= |w| && At(text, p, w + [c]) && |w| > 1
    ensures p + 1 < |text| && text[p] == w[0] && text[p + 1] == w[1] && At(text, p + n, w[n..] + [c])
  {
    AtIndex(text, p, w + [c], 0);
    AtIndex(text, p, w + [c], 1);
    assert w + [c] == w[..n] + (w[n..] + [c]);
    AtSplit(text, p, w[..n], w[n..] + [c]);
  }

  lemma QuoteStep(fmt: Format, text: string, s: State, n: nat)
    requires fmt.Proper() && Inside(s) && s.pos + 1 < |text| && text[s.pos] == fmt.quote
    requires n == 1 || n == 2
    requires var c := text[s.pos + 1]; if n == 2 then c == fmt.quote else c != fmt.quote && c != fmt.delim && !IsNewline(c)
    ensures Run(fmt, text, s) == Run(fmt, text, if n == 2 then Ahead(s, 2).(hasDoubleQuote := true) else Ahead(s, 1))
  {
    OneStep(fmt, text, s, if n == 2 then Ahead(s, 2).(hasDoubleQuote := true) else Ahead(s, 1));
  }

  /** The parser passes such text like any other in quotes. */
  lemma {:induction false} OverInner(fmt: Format, text: string, s: State, w: string)
    requires fmt.Proper() && InnerAt(fmt, text, s, w)
    ensures Run(fmt, text, s) == Run(fmt, text, Past(fmt, s, w))
    decreases |w|
  {
    if w == "" {
      assert w + [fmt.quote] == [fmt.quote];
      OverClosing(fmt, text, s);
    } else if w[0] == fmt.quote {
      var s', n := InnerQuote(fmt, text, s, w);
      OverInner(fmt, text, s', w[n..]);
    } else {
      var s', n := InnerRun(fmt, text, s, w);
      OverInner(fmt, text, s', w[n..]);
      assert Past(fmt, s', w[n..]) == Past(fmt, s, w);
    }
  }

  /** A field in quotes reads back: quotes that stand alone in it are part of the value if no other quote is doubled. */
  lemma InnerReadsBack(fmt: Format, text: string, s: State, w: string)
    requires Fresh(s) && At(text, s.pos + 1, w + [fmt.quote])
    ensures ReadsAs(fmt, text, s.rowStart, Recorded(Past(fmt, Begun(s), w)),
                    if s.hasDoubleQuote || HasPair(fmt, w) then Unescape(fmt, w, false) else w)
  {
    InnerStands(text, s.pos + 1, w, fmt.quote);
    SliceReads(fmt, text, s.rowStart, Recorded(Past(fmt, Begun(s), w)), s.pos + 1, w,
               if s.hasDoubleQuote || HasPair(fmt, w) then Unescape(fmt, w, false) else w);
  }

  /** The parser passes it, from its opening quote on. */
  lemma InnerPassed(fmt: Format, text: string, s: State, w: string)
    requires fmt.Proper() && Fresh(s) && s.pos + 1 < |text| && text[s.pos] == fmt.quote && InnerAt(fmt, text, Begun(s), w)
    ensures Run(fmt, text, s) == Run(fmt, text, Past(fmt, Begun(s), w))
  {
    OverOpening(fmt, text, s);
    OverInner(fmt, text, Begun(s), w);
  }

  lemma InnerStands(text: string, p: nat, w: string, c: char)
    requires At(text, p, w + [c])
    ensures At(text, p, w)
  {
    AtSplit(text, p, w, [c]);
  }

  // ---- From one window to the next ----

  const Csv: Format := Format(',', '"')

  /** A window that ends behind a doubled quote, in the second field of its second row. */
  const First: string := "c\nx\"\"y,\"a\"\"b"

  /** The next window starts with that row. */
  const Second: string := "x\"\"y,\"a\"\"b\"\n"

  /** Whatever was before: it ends with the flag for doubled quotes set, and its second row is to be read again. */
  lemma FirstWindow(s: State)
    ensures var e := Scanned(Csv, First, s, true);
            e.rowStart == 2 && e.hasDoubleQuote
  {
    FirstRow(Start(Csv, First, Cleared(s), true));
  }

  lemma FirstRow(s: State)
    requires s.pos == s.rowStart == 0 && Fresh(s)
    ensures var e := Run(Csv, First, s);
            e.rowStart == 2 && e.hasDoubleQuote
  {
    var s1 := s.(pos := 1, fieldStart := 0, fieldLength := 1);
    OneStep(Csv, First, s, s1);
    NewlineStep(Csv, First, s1);
    SecondRow(EndRow(s1, 2));
  }

  lemma SecondRow(s: State)
    requires s.pos == s.rowStart == 2 && Fresh(s)
    ensures var e := Run(Csv, First, s);
            e.rowStart == 2 && e.hasDoubleQuote
  {
    var s3 := s.(pos := 3, fieldStart := 0, fieldLength := 1);
    OneStep(Csv, First, s, s3);
    TwoQuotes(s3);
  }

  lemma TwoQuotes(s: State)
    requires s.pos == 3 && s.rowStart == 2 && s.fieldStart == 0 && s.fieldLength == 1 && !s.quoteEscape
    ensures var e := Run(Csv, First, s);
            e.rowStart == 2 && e.hasDoubleQuote
  {
    var s4 := s.(pos := 4, fieldLength := 2);
    var s5 := s4.(pos := 5, fieldLength := 3);
    var s6 := s5.(pos := 6, fieldLength := 4);
    OneStep(Csv, First, s, s4);
    OneStep(Csv, First, s4, s5);
    OneStep(Csv, First, s5, s6);
    FirstCut(s6);
  }

  lemma FirstCut(s: State)
    requires s.pos == 6 && s.rowStart == 2 && s.fieldLength == 4 && !s.quoteEscape
    ensures var e := Run(Csv, First, s);
            e.rowStart == 2 && e.hasDoubleQuote
  {
    var s7 := EndField(s);
    var s8 := s7.(pos := 8, quoteEscape := true, fieldStart := 6);
    var s9 := s8.(pos := 9, fieldLength := 1);
    var s10 := s9.(pos := 11, fieldLength := 3, hasDoubleQuote := true);
    OneStep(Csv, First, s, s7);
    OneStep(Csv, First, s7, s8);
    OneStep(Csv, First, s8, s9);
    OneStep(Csv, First, s9, s10);
    OneStep(Csv, First, s10, s10.(pos := 12, fieldLength := 4));
  }

  /** The flag for doubled quotes is not reset between windows: if the window before has left it set, as `First` does, the
      first field of `Second` is read as `x"y` instead of `x""y`. */
  lemma FlagIsNotReset(s: State)
    ensures var e := Start(Csv, Second, Cleared(s), true);
            && At(Second, 0, "x\"\"y") && EndsAt(Csv, Second, 4)
            && FieldValue(Csv, Second, 0, Recorded(AfterField(Csv, e, Plain("x\"\"y")))) == if s.hasDoubleQuote then "x\"y" else "x\"\"y"
  {
    assert Second[0..4] == "x\"\"y";
    SliceAt(Second, 0, "x\"\"y");
    Collapses();
  }

  lemma Collapses()
    ensures Unescape(Csv, "x\"\"y", false) == "x\"y"
  {
    var v := "x\"\"y";
    assert v[1..] == "\"\"y" && v[1..][1..] == "\"y" && v[1..][1..][1..] == "y" && "y"[1..] == "";
    assert Unescape(Csv, "y", false) == "y" && Unescape(Csv, "\"y", true) == "y";
    assert Unescape(Csv, v, false) == "x\"y";
  }
}
