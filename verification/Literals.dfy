/** Decimal literals by their parts, one behind the other: what the scanner finds in a text is what it was put together from. */
module Literals {
  import opened Options
  import opened Words
  import opened Digits
  import opened Decimal

  /** An exponent: `e` or `E`, perhaps a sign, and digits. */
  datatype Exponent = Exponent(mark: Byte, sign: Text, digits: Text)

  datatype Literal = Literal(negative: bool, integer: Text, hasPoint: bool, fraction: Text, exponent: Option<Exponent>)

  ghost predicate ValidExponent(x: Exponent) {
    && (x.mark == 0x65 || x.mark == 0x45) && (x.sign == [] || x.sign == [0x2B] || x.sign == [0x2D])
    && x.digits != [] && AllDigits(x.digits)
  }

  ghost predicate Valid(l: Literal) {
    && AllDigits(l.integer) && AllDigits(l.fraction) && l.integer + l.fraction != [] && (!l.hasPoint ==> l.fraction == [])
    && (l.exponent.Some? ==> ValidExponent(l.exponent.value))
  }

  function Sign(l: Literal): Text {
    if l.negative then [0x2D] else []
  }

  function Fraction(l: Literal, point: Byte): Text {
    if l.hasPoint then [point] + l.fraction else []
  }

  function ExponentText(l: Literal): Text {
    match l.exponent
    case None => []
    case Some(x) => [x.mark] + (x.sign + x.digits)
  }

  /** An exponent begins here: a mark, perhaps a sign, and a digit. */
  predicate BeginsExponent(t: Text) {
    && t != [] && (t[0] == 0x65 || t[0] == 0x45)
    && var p := if |t| > 1 && (t[1] == 0x2B || t[1] == 0x2D) then 2 else 1;
       p < |t| && IsDigit(t[p])
  }

  predicate NoDigit(t: Text) {
    t == [] || !IsDigit(t[0])
  }

  /** `s` is the literal and something that cannot be part of it any more. */
  ghost predicate Splits(s: Text, l: Literal, rest: Text, point: Byte) {
    && Valid(l) && s == Sign(l) + (l.integer + (Fraction(l, point) + (ExponentText(l) + rest)))
    && NoDigit(rest)
    && (!l.hasPoint && l.exponent.None? && rest != [] ==> rest[0] != point)
    && (l.exponent.None? ==> !BeginsExponent(rest))
  }

  lemma Behind(s: Text, p: nat, a: Text, b: Text)
    requires p <= |s| && s[p..] == a + b
    ensures p + |a| <= |s| && s[p..p + |a|] == a && s[p + |a|..] == b
    ensures b != [] ==> p + |a| < |s| && s[p + |a|] == b[0]
    ensures a != [] ==> p < |s| && s[p] == a[0]
    ensures a == [] && b == [] ==> p == |s|
  {
    var q := p + |a|;
    assert s[p..q] == s[p..][..|a|] && s[q..] == s[p..][|a|..];
  }

  lemma RunIs(s: Text, p: nat, a: Text, b: Text)
    requires p <= |s| && s[p..] == a + b && AllDigits(a) && NoDigit(b)
    ensures RunEnd(s, p) == p + |a| && s[p..p + |a|] == a && s[p + |a|..] == b
    ensures b == [] ==> p + |a| == |s|
    ensures b != [] ==> p + |a| < |s| && s[p + |a|] == b[0]
  {
    Behind(s, p, a, b);
    RunEndSkips(s, p, p + |a|);
  }

  /** Nothing but a minus sign stands before the digits. */
  lemma FindsSign(s: Text, negative: bool, mantissa: Text)
    requires s == (if negative then [MinusSign] else []) + mantissa && mantissa != [] && mantissa[0] != MinusSign
    ensures s != [] && (s[0] == MinusSign <==> negative) && StartOf(s) == (if negative then 1 else 0) && s[StartOf(s)..] == mantissa
  {
  }

  lemma FindsFraction(s: Text, l: Literal, tail: Text, point: Byte)
    requires s != [] && s[StartOf(s)..] == l.integer + (Fraction(l, point) + tail)
    requires AllDigits(l.integer) && AllDigits(l.fraction) && !IsDigit(point) && NoDigit(tail) && (!l.hasPoint ==> l.fraction == [])
    requires !l.hasPoint ==> tail == [] || tail[0] != point
    ensures IntegerPart(s) == l.integer && HasPoint(s, point) == l.hasPoint && FractionPart(s, point) == l.fraction
    ensures s[FractionEnd(s, point)..] == tail
  {
    if l.hasPoint {
      assert Fraction(l, point) + tail == [point] + (l.fraction + tail);
      WithPoint(s, l.integer, l.fraction, tail, point);
    } else {
      assert Fraction(l, point) + tail == tail;
      RunIs(s, StartOf(s), l.integer, tail);
    }
  }

  lemma WithPoint(s: Text, integer: Text, fraction: Text, tail: Text, point: Byte)
    requires s != [] && s[StartOf(s)..] == integer + ([point] + (fraction + tail))
    requires AllDigits(integer) && AllDigits(fraction) && !IsDigit(point) && NoDigit(tail)
    ensures IntegerPart(s) == integer && HasPoint(s, point) && FractionPart(s, point) == fraction && s[FractionEnd(s, point)..] == tail
  {
    RunIs(s, StartOf(s), integer, [point] + (fraction + tail));
    AfterPoint(s, IntegerEnd(s), point, fraction + tail);
    FractionIs(s, fraction, tail, point);
  }

  lemma FractionIs(s: Text, fraction: Text, tail: Text, point: Byte)
    requires s != [] && HasPoint(s, point) && s[IntegerEnd(s) + 1..] == fraction + tail && AllDigits(fraction) && NoDigit(tail)
    ensures FractionPart(s, point) == fraction && s[FractionEnd(s, point)..] == tail
  {
    RunIs(s, IntegerEnd(s) + 1, fraction, tail);
  }

  lemma AfterPoint(s: Text, q: nat, point: Byte, behind: Text)
    requires q <= |s| && s[q..] == [point] + behind
    ensures q < |s| && s[q] == point && s[q + 1..] == behind
  {
    Behind(s, q, [point], behind);
  }

  /** The scanner finds the parts of the mantissa. */
  lemma FindsMantissa(s: Text, l: Literal, rest: Text, point: Byte)
    requires Splits(s, l, rest, point) && IsPoint(point)
    ensures s != [] && (s[0] == MinusSign <==> l.negative)
    ensures IntegerPart(s) == l.integer && HasPoint(s, point) == l.hasPoint && FractionPart(s, point) == l.fraction
    ensures s[FractionEnd(s, point)..] == ExponentText(l) + rest
  {
    var tail := ExponentText(l) + rest;
    FirstOfMantissa(l, tail, point);
    FindsSign(s, l.negative, l.integer + (Fraction(l, point) + tail));
    FirstOfTail(l, rest, point);
    FindsFraction(s, l, tail, point);
  }

  /** Not a sign, a digit or the mark of an exponent. */
  predicate IsPoint(point: Byte) {
    !IsDigit(point) && point != 0x2D && point != 0x65 && point != 0x45
  }

  lemma FirstOfMantissa(l: Literal, tail: Text, point: Byte)
    requires Valid(l) && IsPoint(point)
    ensures var mantissa := l.integer + (Fraction(l, point) + tail);
            mantissa != [] && mantissa[0] != MinusSign
  {
    if l.integer != [] {
      assert IsDigit(l.integer[0]);
    }
  }

  lemma FirstOfTail(l: Literal, rest: Text, point: Byte)
    requires Valid(l) && IsPoint(point) && NoDigit(rest) && (!l.hasPoint && l.exponent.None? && rest != [] ==> rest[0] != point)
    ensures var tail := ExponentText(l) + rest;
            NoDigit(tail) && (!l.hasPoint ==> tail == [] || tail[0] != point)
  {
    if l.exponent.None? {
      assert ExponentText(l) + rest == rest;
    }
  }

  /** The scanner finds the exponent, if there is one. */
  lemma FindsExponent(s: Text, p: nat, l: Literal, rest: Text)
    requires Valid(l) && p <= |s| && s[p..] == ExponentText(l) + rest
    requires NoDigit(rest) && (l.exponent.None? ==> !BeginsExponent(rest))
    ensures HasExponent(s, p) <==> l.exponent.Some?
    ensures l.exponent.Some? ==>
              var q := ExponentStart(s, p);
              s[q..RunEnd(s, q)] == l.exponent.value.digits && RunEnd(s, q) == |s| - |rest| && (s[p + 1] == MinusSign <==> l.exponent.value.sign == [0x2D])
  {
    if l.exponent.Some? {
      var x := l.exponent.value;
      MarkFirst(x, rest);
      AfterPoint(s, p, x.mark, x.sign + (x.digits + rest));
      FindsSome(s, p, x, rest);
    } else {
      assert ExponentText(l) + rest == rest;
      NotBegun(s, p, rest);
    }
  }

  lemma NotBegun(s: Text, p: nat, rest: Text)
    requires p <= |s| && s[p..] == rest && !BeginsExponent(rest)
    ensures !HasExponent(s, p)
  {
    assert |rest| == |s| - p && forall k :: 0 <= k < |rest| ==> rest[k] == s[p + k];
  }

  lemma FindsSome(s: Text, p: nat, x: Exponent, rest: Text)
    requires ValidExponent(x) && p < |s| && s[p] == x.mark && s[p + 1..] == x.sign + (x.digits + rest) && NoDigit(rest)
    ensures HasExponent(s, p)
    ensures var q := ExponentStart(s, p);
            s[q..RunEnd(s, q)] == x.digits && RunEnd(s, q) == |s| - |rest| && (s[p + 1] == MinusSign <==> x.sign == [0x2D])
  {
    assert IsDigit(x.digits[0]) && (x.digits + rest)[0] == x.digits[0];
    AfterSign(s, p + 1, x.sign, x.digits + rest);
    DigitsFrom(s, p, x.digits, rest);
  }

  lemma MarkFirst(x: Exponent, rest: Text)
    ensures [x.mark] + (x.sign + x.digits) + rest == [x.mark] + (x.sign + (x.digits + rest))
  {
  }

  /** Behind the mark stands a sign or not. */
  lemma AfterSign(s: Text, q: nat, sign: Text, b: Text)
    requires q <= |s| && s[q..] == sign + b && b != [] && IsDigit(b[0]) && (sign == [] || sign == [0x2B] || sign == [0x2D])
    ensures q < |s| && (s[q] == 0x2D <==> sign == [0x2D]) && (s[q] == 0x2B <==> sign == [0x2B])
    ensures var p := if s[q] == 0x2D || s[q] == 0x2B then q + 1 else q;
            p < |s| && IsDigit(s[p]) && s[p..] == b
  {
    Behind(s, q, sign, b);
  }

  lemma DigitsFrom(s: Text, p: nat, digits: Text, rest: Text)
    requires p + 1 < |s| && IsE(s[p]) && s[ExponentStart(s, p)..] == digits + rest && digits != [] && AllDigits(digits) && NoDigit(rest)
    ensures HasExponent(s, p)
    ensures var q := ExponentStart(s, p);
            s[q..RunEnd(s, q)] == digits && RunEnd(s, q) == |s| - |rest|
  {
    var q := ExponentStart(s, p);
    Behind(s, q, digits, rest);
    assert IsDigit(digits[0]);
    RunIs(s, q, digits, rest);
  }

  // ---- What is accepted ----

  /** The literal has the exponent that the format asks for. */
  predicate Complies(l: Literal, fmt: Format) {
    fmt.scientific && !fmt.fixed ==> l.exponent.Some?
  }

  /** The literal that a text begins with. */
  function LiteralOf(s: Text, point: Byte): Literal
    requires s != []
  {
    var p := FractionEnd(s, point);
    Literal(s[0] == MinusSign, IntegerPart(s), HasPoint(s, point), FractionPart(s, point),
            if HasExponent(s, p) then
              var q := ExponentStart(s, p);
              Some(Exponent(s[p], s[p + 1..q], s[q..RunEnd(s, q)]))
            else None)
  }

  function RestOf(s: Text, point: Byte): Text
    requires s != []
  {
    var p := FractionEnd(s, point);
    if HasExponent(s, p) then s[RunEnd(s, ExponentStart(s, p))..] else s[p..]
  }

  lemma Glue(s: Text, p: nat, q: nat)
    requires p <= q <= |s|
    ensures s[p..] == s[p..q] + s[q..]
  {
  }

  lemma MantissaSplits(s: Text, point: Byte)
    requires s != [] && !IsDigit(point)
    ensures var l := LiteralOf(s, point);
            s == Sign(l) + (l.integer + (Fraction(l, point) + s[FractionEnd(s, point)..]))
  {
    var a, b, c := StartOf(s), IntegerEnd(s), FractionEnd(s, point);
    ThreeParts(s, a, b, c);
    assert s[..a] == Sign(LiteralOf(s, point));
    if HasPoint(s, point) {
      assert s[b..c] == [point] + s[b + 1..c];
    }
  }

  lemma ThreeParts(s: Text, a: nat, b: nat, c: nat)
    requires a <= b <= c <= |s|
    ensures s == s[..a] + (s[a..b] + (s[b..c] + s[c..]))
  {
    Glue(s, a, b);
    Glue(s, b, c);
  }

  lemma FourParts(s: Text, p: nat, q: nat, r: nat)
    requires p < q <= r <= |s|
    ensures s[p..] == ([s[p]] + (s[p + 1..q] + s[q..r])) + s[r..]
  {
    Glue(s, p, p + 1);
    Glue(s, p + 1, q);
    Glue(s, q, r);
    Regroup([s[p]], s[p + 1..q], s[q..r], s[r..]);
  }

  lemma ExponentSplits(s: Text, point: Byte)
    requires s != []
    ensures s[FractionEnd(s, point)..] == ExponentText(LiteralOf(s, point)) + RestOf(s, point)
  {
    var p := FractionEnd(s, point);
    if HasExponent(s, p) {
      FourParts(s, p, ExponentStart(s, p), RunEnd(s, ExponentStart(s, p)));
    }
  }

  lemma Regroup(a: Text, b: Text, c: Text, d: Text)
    ensures a + (b + (c + d)) == (a + (b + c)) + d
  {
  }

  lemma RestStops(s: Text, point: Byte)
    requires s != [] && !IsDigit(point)
    ensures var l, rest := LiteralOf(s, point), RestOf(s, point);
            && NoDigit(rest) && (!l.hasPoint && l.exponent.None? && rest != [] ==> rest[0] != point)
            && (l.exponent.None? ==> !BeginsExponent(rest))
  {
    var p := FractionEnd(s, point);
    if !HasExponent(s, p) {
      NotBegins(s, p);
    }
  }

  lemma NotBegins(s: Text, p: nat)
    requires p <= |s| && !HasExponent(s, p)
    ensures !BeginsExponent(s[p..])
  {
    assert forall k :: 0 <= k < |s| - p ==> s[p..][k] == s[p + k];
  }

  lemma OwnLiteral(s: Text, point: Byte)
    requires s != [] && !IsDigit(point) && DigitsOf(s, point) != []
    ensures Splits(s, LiteralOf(s, point), RestOf(s, point), point)
  {
    MantissaSplits(s, point);
    ExponentSplits(s, point);
    RestStops(s, point);
    OwnIsValid(s, point);
  }

  lemma OwnIsValid(s: Text, point: Byte)
    requires s != [] && DigitsOf(s, point) != []
    ensures Valid(LiteralOf(s, point))
  {
    if HasExponent(s, FractionEnd(s, point)) {
      OwnExponent(s, FractionEnd(s, point));
    }
  }

  lemma OwnExponent(s: Text, p: nat)
    requires HasExponent(s, p)
    ensures var q := ExponentStart(s, p);
            ValidExponent(Exponent(s[p], s[p + 1..q], s[q..RunEnd(s, q)]))
  {
  }

  /** Accepted is what begins with a literal that complies, and nothing else. */
  lemma WellFormedIsExact(s: Text, point: Byte, fmt: Format)
    requires s != [] && IsPoint(point)
    ensures WellFormed(s, point, fmt) <==> exists l, rest :: Splits(s, l, rest, point) && Complies(l, fmt)
  {
    if WellFormed(s, point, fmt) {
      OwnLiteral(s, point);
      assert Splits(s, LiteralOf(s, point), RestOf(s, point), point) && Complies(LiteralOf(s, point), fmt);
    }
    if l, rest :| Splits(s, l, rest, point) && Complies(l, fmt) {
      Accepts(s, l, rest, point, fmt);
    }
  }

  lemma Accepts(s: Text, l: Literal, rest: Text, point: Byte, fmt: Format)
    requires s != [] && Splits(s, l, rest, point) && Complies(l, fmt) && IsPoint(point)
    ensures WellFormed(s, point, fmt)
  {
    FindsMantissa(s, l, rest, point);
    FindsExponent(s, FractionEnd(s, point), l, rest);
    if l.negative {
      SignIsFollowed(s, l, rest, point);
    }
  }

  lemma SignIsFollowed(s: Text, l: Literal, rest: Text, point: Byte)
    requires Splits(s, l, rest, point) && l.negative
    ensures |s| > 1 && (IsDigit(s[1]) || s[1] == point)
  {
    var mantissa := l.integer + (Fraction(l, point) + (ExponentText(l) + rest));
    assert s[1] == mantissa[0];
    if l.integer != [] {
      assert IsDigit(l.integer[0]);
    }
  }

  /** What the scanner makes of the exponent. */
  lemma ExponentIsRead(s: Text, l: Literal, rest: Text, point: Byte, fmt: Format)
    requires Splits(s, l, rest, point) && IsPoint(point) && s != []
    ensures ExplicitExponent(s, FractionEnd(s, point), fmt) ==
            if fmt.scientific && l.exponent.Some? then
              (if l.exponent.value.sign == [0x2D] then -Saturated(l.exponent.value.digits) else Saturated(l.exponent.value.digits))
            else 0
  {
    FindsMantissa(s, l, rest, point);
    FindsExponent(s, FractionEnd(s, point), l, rest);
  }
}
