/** CSV text as section 2 of RFC 4180 describes it, with LF line ends. */
module CsvText {
  import opened CsvFlags
  import opened CsvParser

  /** A field without quotes, or in quotes. */
  datatype Field = Plain(value: string) | Quoted(value: string)

  predicate ValidField(fmt: Format, f: Field) {
    f.Plain? ==> forall i :: 0 <= i < |f.value| ==> KindOf(fmt, f.value[i], false).Ordinary?
  }

  /** Every quote is written twice. */
  function Double(fmt: Format, s: string): string {
    if s == [] then [] else (if s[0] == fmt.quote then [fmt.quote, fmt.quote] else [s[0]]) + Double(fmt, s[1..])
  }

  function FieldText(fmt: Format, f: Field): string {
    if f.Plain? then f.value else [fmt.quote] + (Double(fmt, f.value) + [fmt.quote])
  }

  predicate ValidRow(fmt: Format, row: seq<Field>) {
    row != [] && forall i :: 0 <= i < |row| ==> ValidField(fmt, row[i])
  }

  function RowText(fmt: Format, row: seq<Field>): string {
    if row == [] then "\n"
    else FieldText(fmt, row[0]) + (if |row| == 1 then "\n" else [fmt.delim] + RowText(fmt, row[1..]))
  }

  predicate ValidRows(fmt: Format, rows: seq<seq<Field>>) {
    forall i :: 0 <= i < |rows| ==> ValidRow(fmt, rows[i])
  }

  function RowsText(fmt: Format, rows: seq<seq<Field>>): string {
    if rows == [] then "" else RowText(fmt, rows[0]) + RowsText(fmt, rows[1..])
  }

  function Values(row: seq<Field>): (v: seq<string>)
    ensures |v| == |row| && forall i :: 0 <= i < |v| ==> v[i] == row[i].value
  {
    seq(|row|, i requires 0 <= i < |row| => row[i].value)
  }

  // ---- Text at a position ----

  /** `t` stands at position `p`. */
  predicate At(text: string, p: nat, t: string)
    decreases |t|
  {
    p <= |text| && (t == [] || (p < |text| && text[p] == t[0] && At(text, p + 1, t[1..])))
  }

  lemma {:induction false} AtFits(text: string, p: nat, t: string)
    requires At(text, p, t)
    ensures p + |t| <= |text|
    decreases |t|
  {
    if t != [] {
      AtFits(text, p + 1, t[1..]);
    }
  }

  lemma {:induction false} AtSplit(text: string, p: nat, a: string, b: string)
    requires At(text, p, a + b)
    ensures At(text, p, a) && At(text, p + |a|, b)
    decreases |a|
  {
    if a == [] {
      assert a + b == b;
    } else {
      assert (a + b)[1..] == a[1..] + b;
      AtSplit(text, p + 1, a[1..], b);
    }
  }

  lemma {:induction false} AtIndex(text: string, p: nat, t: string, i: nat)
    requires At(text, p, t) && i < |t|
    ensures p + i < |text| && text[p + i] == t[i]
    decreases |t|
  {
    if i > 0 {
      AtIndex(text, p + 1, t[1..], i - 1);
    }
  }

  lemma AtSnoc(text: string, p: nat, t: string, c: char)
    requires At(text, p, t + [c])
    ensures At(text, p, t) && p + |t| < |text| && text[p + |t|] == c
  {
    AtSplit(text, p, t, [c]);
    AtIndex(text, p + |t|, [c], 0);
  }

  /** `t` as a slice of the text. */
  lemma AtSlice(text: string, p: nat, t: string)
    requires At(text, p, t)
    ensures p + |t| <= |text| && text[p..p + |t|] == t
  {
    AtFits(text, p, t);
    forall i | 0 <= i < |t|
      ensures text[p..p + |t|][i] == t[i]
    {
      AtIndex(text, p, t, i);
    }
  }

  lemma {:induction false} SliceAt(text: string, p: nat, t: string)
    requires p + |t| <= |text| && text[p..p + |t|] == t
    ensures At(text, p, t)
    decreases |t|
  {
    if t != [] {
      assert t[0] == text[p..p + |t|][0];
      assert text[p + 1..p + 1 + |t[1..]|] == text[p..p + |t|][1..];
      SliceAt(text, p + 1, t[1..]);
    }
  }

  // ---- Lines one behind the other ----

  /** The lines stand one behind the other from `q` to `e`. */
  predicate LinesAt(text: string, q: nat, lines: seq<string>, e: nat)
    decreases |lines|
  {
    if lines == [] then q == e <= |text| else At(text, q, lines[0]) && LinesAt(text, q + |lines[0]|, lines[1..], e)
  }

  function Join(lines: seq<string>): string {
    if lines == [] then "" else lines[0] + Join(lines[1..])
  }

  lemma {:induction false} JoinedAt(text: string, q: nat, lines: seq<string>)
    requires At(text, q, Join(lines))
    ensures LinesAt(text, q, lines, q + |Join(lines)|)
    decreases |lines|
  {
    if lines != [] {
      AtSplit(text, q, lines[0], Join(lines[1..]));
      JoinedAt(text, q + |lines[0]|, lines[1..]);
    }
  }

  /** `lines` are the texts of the rows. */
  ghost predicate Texts(fmt: Format, rows: seq<seq<Field>>, lines: seq<string>) {
    |lines| == |rows| && forall i {:trigger RowText(fmt, rows[i])} :: 0 <= i < |rows| ==> lines[i] == RowText(fmt, rows[i])
  }

  lemma TextsOf(fmt: Format, rows: seq<seq<Field>>) returns (lines: seq<string>)
    ensures Texts(fmt, rows, lines)
  {
    lines := seq(|rows|, i requires 0 <= i < |rows| => RowText(fmt, rows[i]));
  }

  lemma {:induction false} RowsTextIsJoin(fmt: Format, rows: seq<seq<Field>>, lines: seq<string>)
    requires Texts(fmt, rows, lines)
    ensures RowsText(fmt, rows) == Join(lines)
  {
    if rows != [] {
      TailTexts(fmt, rows, lines);
      RowsTextIsJoin(fmt, rows[1..], lines[1..]);
    }
  }

  lemma TailTexts(fmt: Format, rows: seq<seq<Field>>, lines: seq<string>)
    requires Texts(fmt, rows, lines) && rows != []
    ensures lines[0] == RowText(fmt, rows[0]) && Texts(fmt, rows[1..], lines[1..])
  {
    assert lines[0] == RowText(fmt, rows[0]);
    forall i | 0 <= i < |rows| - 1
      ensures lines[1..][i] == RowText(fmt, rows[1..][i])
    {
      assert rows[1..][i] == rows[i + 1];
      assert lines[i + 1] == RowText(fmt, rows[i + 1]);
    }
  }

  // ---- Unescaping ----

  /** Unescaping undoes doubling. */
  lemma {:induction false} UnescapeDouble(fmt: Format, s: string)
    ensures Unescape(fmt, Double(fmt, s), false) == s
  {
    if s != [] {
      UnescapeDouble(fmt, s[1..]);
      var d := Double(fmt, s[1..]);
      if s[0] == fmt.quote {
        assert Double(fmt, s) == [fmt.quote] + ([fmt.quote] + d);
        assert ([fmt.quote] + ([fmt.quote] + d))[1..] == [fmt.quote] + d && ([fmt.quote] + d)[1..] == d;
      } else {
        assert ([s[0]] + d)[1..] == d;
      }
    }
  }

  /** Text without quotes is its own doubling, so unescaping it does nothing. */
  lemma {:induction false} DoubleNothing(fmt: Format, s: string)
    requires fmt.quote !in s
    ensures Double(fmt, s) == s
  {
    if s != [] {
      DoubleNothing(fmt, s[1..]);
    }
  }

  lemma {:induction false} DoubleConcat(fmt: Format, s: string, t: string)
    ensures Double(fmt, s + t) == Double(fmt, s) + Double(fmt, t)
  {
    if s == [] {
      assert s + t == t;
    } else {
      assert (s + t)[1..] == s[1..] + t;
      DoubleConcat(fmt, s[1..], t);
    }
  }
}
