/** Scanning a decimal literal into a 64-bit mantissa and a decimal exponent. */
module Decimal {
  import opened Powers
  import opened Limbs
  import opened Words
  import opened Digits

  // ---- The literal ----

  /** Which notations are accepted. */
  datatype Format = Format(scientific: bool, fixed: bool)

  /** The end of the run of digits that starts at `p`. */
  function RunEnd(s: Text, p: nat): (e: nat)
    requires p <= |s|
    ensures p <= e <= |s| && AllDigits(s[p..e]) && (e < |s| ==> !IsDigit(s[e]))
    decreases |s| - p
  {
    if p < |s| && IsDigit(s[p]) then
      var e := RunEnd(s, p + 1);
      assert s[p..e] == [s[p]] + s[p + 1..e];
      e
    else p
  }

  const MinusSign: Byte := 0x2D
  const PlusSign: Byte := 0x2B

  predicate IsE(b: Byte) {
    b == 0x65 || b == 0x45
  }

  /** Where the digits start. */
  function StartOf(s: Text): (p: nat)
    requires s != []
    ensures p <= |s|
  {
    if s[0] == MinusSign then 1 else 0
  }

  function IntegerEnd(s: Text): (p: nat)
    requires s != []
    ensures StartOf(s) <= p <= |s|
  {
    RunEnd(s, StartOf(s))
  }

  predicate HasPoint(s: Text, point: Byte)
    requires s != []
  {
    IntegerEnd(s) < |s| && s[IntegerEnd(s)] == point
  }

  function IntegerPart(s: Text): Text
    requires s != []
  {
    s[StartOf(s)..IntegerEnd(s)]
  }

  function FractionEnd(s: Text, point: Byte): (p: nat)
    requires s != []
    ensures IntegerEnd(s) <= p <= |s|
  {
    if HasPoint(s, point) then RunEnd(s, IntegerEnd(s) + 1) else IntegerEnd(s)
  }

  function FractionPart(s: Text, point: Byte): Text
    requires s != []
  {
    if HasPoint(s, point) then s[IntegerEnd(s) + 1..FractionEnd(s, point)] else []
  }

  /** All digits, without the point. */
  function DigitsOf(s: Text, point: Byte): Text
    requires s != []
  {
    IntegerPart(s) + FractionPart(s, point)
  }

  /** Where the digits of an exponent would start, given that an `e` stands at `p`. */
  function ExponentStart(s: Text, p: nat): (q: nat)
    requires p < |s|
    ensures p < q <= |s|
  {
    if p + 1 < |s| && (s[p + 1] == MinusSign || s[p + 1] == PlusSign) then p + 2 else p + 1
  }

  predicate HasExponent(s: Text, p: nat) {
    p < |s| && IsE(s[p]) && ExponentStart(s, p) < |s| && IsDigit(s[ExponentStart(s, p)])
  }

  /** A sign needs a digit or a point behind it, there is a digit, and an exponent where required. */
  predicate WellFormed(s: Text, point: Byte, fmt: Format)
    requires s != []
  {
    && (s[0] == MinusSign ==> |s| > 1 && (IsDigit(s[1]) || s[1] == point))
    && DigitsOf(s, point) != []
    && (fmt.scientific && !fmt.fixed ==> HasExponent(s, FractionEnd(s, point)))
  }

  // ---- The exponent ----

  /** Exponent digits are ignored once the number has nine of them or so. */
  function Saturated(s: Text): int {
    if s == [] then 0
    else
      var e := Saturated(s[..|s| - 1]);
      if e < 0x1000_0000 then 10 * e + Worth(s[|s| - 1]) else e
  }

  /** The explicit exponent is exact if and only if it is below 2684354560. */
  lemma {:induction false} SaturatedIsExact(s: Text)
    requires AllDigits(s)
    ensures 0 <= Saturated(s) <= DigitValue(s)
    ensures Saturated(s) == DigitValue(s) <==> DigitValue(s) < 10 * 0x1000_0000
    ensures Saturated(s) < 0x1000_0000 ==> Saturated(s) == DigitValue(s)
  {
    if s != [] {
      SaturatedIsExact(s[..|s| - 1]);
    }
  }

  function ExplicitExponent(s: Text, p: nat, fmt: Format): int {
    if fmt.scientific && HasExponent(s, p) then
      var q := ExponentStart(s, p);
      if s[p + 1] == MinusSign then -Saturated(s[q..RunEnd(s, q)]) else Saturated(s[q..RunEnd(s, q)])
    else 0
  }

  method ScanExponent(s: Text, p: nat) returns (e: int, stop: nat)
    requires p < |s| && IsDigit(s[p])
    ensures stop == RunEnd(s, p) && e == Saturated(s[p..stop])
  {
    e, stop := 0, p;
    while stop < |s| && IsDigit(s[stop])
      invariant p <= stop <= |s| && RunEnd(s, p) == RunEnd(s, stop) && e == Saturated(s[p..stop])
    {
      assert s[p..stop + 1][..stop - p] == s[p..stop];
      if e < 0x1000_0000 {
        e := 10 * e + Worth(s[stop]);
      }
      stop := stop + 1;
    }
  }

  // ---- Digits, modulo 2^64 ----

  lemma ModHorner(x: int, k: nat, y: int)
    ensures ((x % B) * k + y) % B == (x * k + y) % B
  {
    var q, r := x / B, x % B;
    assert x * k + y == (q * k) * B + (r * k + y) by {
      assert (q * B + r) * k == (q * B) * k + r * k;
      assert (q * B) * k == (q * k) * B;
    }
    var u := r * k + y;
    DivUnique(x * k + y, B, q * k + u / B, u % B);
  }

  /** The value of the digits as a 64-bit accumulator sees it. */
  function Wrapped(s: Text): nat {
    if s == [] then 0 else (Wrapped(s[..|s| - 1]) * 10 + Worth(s[|s| - 1])) % B
  }

  lemma {:induction false} WrappedIs(s: Text)
    ensures Wrapped(s) == DigitValue(s) % B
  {
    if s != [] {
      WrappedIs(s[..|s| - 1]);
      ModHorner(DigitValue(s[..|s| - 1]), 10, Worth(s[|s| - 1]));
    }
  }

  /** One digit further. */
  lemma WrappedFurther(before: Text, s: Text, p: nat, q: nat)
    requires p <= q < |s|
    ensures Wrapped(before + s[p..q + 1]) == (Wrapped(before + s[p..q]) * 10 + Worth(s[q])) % B
  {
    var t := before + s[p..q + 1];
    assert t[..|t| - 1] == before + s[p..q] && t[|t| - 1] == s[q];
  }

  method ScanDigits(s: Text, p: nat, i: nat, ghost before: Text) returns (j: nat, stop: nat)
    requires p <= |s| && i == Wrapped(before)
    ensures stop == RunEnd(s, p) && j == Wrapped(before + s[p..stop])
  {
    j, stop := i, p;
    assert before + s[p..p] == before;
    while stop < |s| && IsDigit(s[stop])
      invariant p <= stop <= |s| && RunEnd(s, p) == RunEnd(s, stop) && j == Wrapped(before + s[p..stop])
    {
      WrappedFurther(before, s, p, stop);
      j := (j * 10 + Worth(s[stop])) % B;
      stop := stop + 1;
    }
  }

  lemma {:induction false} RunEndSkips(s: Text, p: nat, q: nat)
    requires p <= q <= |s| && AllDigits(s[p..q])
    ensures RunEnd(s, p) == RunEnd(s, q)
    decreases q - p
  {
    if p < q {
      assert IsDigit(s[p..q][0]);
      assert s[p + 1..q] == s[p..q][1..];
      RunEndSkips(s, p + 1, q);
    }
  }

  lemma EightTens()
    ensures Pow(10, 8) == 100000000
  {
    assert Pow(10, 2) == 100;
    PowAdd(10, 2, 2);
    PowAdd(10, 4, 4);
  }

  lemma EightMore(before: Text, word: Text)
    requires |word| == 8 && AllDigits(word)
    ensures (Wrapped(before) * 100000000 + ParseEight(Pack(word))) % B == Wrapped(before + word)
  {
    ParseEightIsExact(word);
    ValueConcat(before, word);
    EightTens();
    WrappedIs(before);
    WrappedIs(before + word);
    ModHorner(DigitValue(before), 100000000, DigitValue(word));
  }

  /** The test on a word. */
  function EightDigits(word: Text): (r: bool)
    requires |word| == 8
    ensures r <==> AllDigits(word)
  {
    MadeOfDigitsIsExact(word);
    MadeOfDigits(Pack(word), 8)
  }

  lemma EightFurther(s: Text, p: nat, stop: nat, before: Text, j: nat)
    requires p <= stop && stop + 8 <= |s| && AllDigits(s[stop..stop + 8]) && RunEnd(s, p) == RunEnd(s, stop)
    requires j == Wrapped(before + s[p..stop])
    ensures RunEnd(s, p) == RunEnd(s, stop + 8)
    ensures (j * 100000000 + ParseEight(Pack(s[stop..stop + 8]))) % B == Wrapped(before + s[p..stop + 8])
  {
    EightMore(before + s[p..stop], s[stop..stop + 8]);
    assert before + s[p..stop + 8] == (before + s[p..stop]) + s[stop..stop + 8];
    RunEndSkips(s, stop, stop + 8);
  }

  /** Eight digits at a time as long as the next eight bytes are digits. */
  method ScanEights(s: Text, p: nat, i: nat, ghost before: Text) returns (j: nat, stop: nat)
    requires p <= |s| && i == Wrapped(before)
    ensures p <= stop <= |s| && RunEnd(s, p) == RunEnd(s, stop) && j == Wrapped(before + s[p..stop])
  {
    j, stop := i, p;
    assert before + s[p..p] == before;
    while |s| - stop >= 8 && EightDigits(s[stop..stop + 8])
      invariant p <= stop <= |s| && RunEnd(s, p) == RunEnd(s, stop) && j == Wrapped(before + s[p..stop])
    {
      EightFurther(s, p, stop, before, j);
      j := (j * 100000000 + ParseEight(Pack(s[stop..stop + 8]))) % B;
      stop := stop + 8;
    }
  }

  // ---- More than nineteen digits ----

  /** The number of digits before position `q` of the number. */
  function DigitsBefore(s: Text, q: nat): nat
    requires s != [] && q >= StartOf(s)
  {
    q - StartOf(s) - if q > IntegerEnd(s) then 1 else 0
  }

  lemma DigitHere(s: Text, point: Byte, q: nat)
    requires s != [] && StartOf(s) <= q <= FractionEnd(s, point)
    ensures DigitsBefore(s, q) <= |DigitsOf(s, point)|
    ensures q < FractionEnd(s, point) && !(q == IntegerEnd(s) && HasPoint(s, point)) ==>
              DigitsBefore(s, q) < |DigitsOf(s, point)| && DigitsOf(s, point)[DigitsBefore(s, q)] == s[q]
    ensures q == FractionEnd(s, point) ==> DigitsBefore(s, q) == |DigitsOf(s, point)|
  {
  }

  lemma DigitsAreDigits(s: Text, point: Byte)
    requires s != []
    ensures AllDigits(DigitsOf(s, point))
  {
  }

  /** The digits without leading zeros; all zeros give no positive number. */
  method CountSignificant(s: Text, point: Byte) returns (count: int)
    requires s != [] && !IsDigit(point)
    ensures Sig(DigitsOf(s, point)) > 0 ==> count == Sig(DigitsOf(s, point))
    ensures Sig(DigitsOf(s, point)) == 0 ==> count <= 0
  {
    ghost var d, last := DigitsOf(s, point), FractionEnd(s, point);
    var q := StartOf(s);
    count := |DigitsOf(s, point)|;
    while q < |s| && (s[q] == Zero || s[q] == point)
      invariant StartOf(s) <= q <= |s|
      invariant q <= last ==> DigitsBefore(s, q) <= |d| && AllZero(d[..DigitsBefore(s, q)]) && count == |d| - DigitsBefore(s, q)
      invariant q > last ==> AllZero(d) && count <= 0
    {
      if q <= last {
        DigitHere(s, point, q);
        ZeroFurther(s, point, q);
      }
      if s[q] == Zero {
        count := count - 1;
      }
      q := q + 1;
    }
    if q <= last {
      DigitHere(s, point, q);
      StripIs(d, DigitsBefore(s, q));
    } else {
      assert d[..|d|] == d;
      StripIs(d, |d|);
    }
  }

  lemma ZeroFurther(s: Text, point: Byte, q: nat)
    requires s != [] && !IsDigit(point) && StartOf(s) <= q <= FractionEnd(s, point) && q < |s|
    requires s[q] == Zero || s[q] == point
    requires DigitsBefore(s, q) <= |DigitsOf(s, point)| && AllZero(DigitsOf(s, point)[..DigitsBefore(s, q)])
    ensures var d := DigitsOf(s, point);
            if q == FractionEnd(s, point) then AllZero(d) && DigitsBefore(s, q) == |d|
            else && DigitsBefore(s, q + 1) == DigitsBefore(s, q) + (if s[q] == Zero then 1 else 0)
                 && DigitsBefore(s, q + 1) <= |d| && AllZero(d[..DigitsBefore(s, q + 1)])
  {
    var d, k := DigitsOf(s, point), DigitsBefore(s, q);
    DigitHere(s, point, q);
    DigitsAreDigits(s, point);
    if q == FractionEnd(s, point) {
      assert d[..k] == d;
    } else if !(q == IntegerEnd(s) && HasPoint(s, point)) {
      assert d[..k + 1] == d[..k] + [d[k]];
    }
  }

  const Nineteen: nat := 1_000_000_000_000_000_000

  lemma NineteenDigits()
    ensures Pow(10, 18) == Nineteen && Pow(10, 19) == 10 * Nineteen
  {
    assert Pow(10, 3) == 1000;
    PowAdd(10, 3, 3);
    PowAdd(10, 6, 6);
    PowAdd(10, 12, 6);
    assert Pow(10, 19) == 10 * Pow(10, 18);
  }

  lemma TakeStep(d: Text, c: nat, j: nat)
    requires c < |d| && AllDigits(d) && j == DigitValue(d[..c]) && j < Nineteen
    ensures 0 <= j * 10 + Worth(d[c]) == DigitValue(d[..c + 1]) < 10 * Nineteen
  {
    assert d[..c + 1] == d[..c] + [d[c]];
    ValueSnoc(d[..c], d[c]);
  }

  /** Take digits of `d` from position `from` to `to` until there are nineteen of them. */
  method TakeDigits(d: Text, from: nat, to: nat, i: nat) returns (j: nat, c: nat)
    requires from <= to <= |d| && AllDigits(d) && i == DigitValue(d[..from]) && i < 10 * Nineteen
    ensures from <= c <= to && j == DigitValue(d[..c]) && j < 10 * Nineteen
    ensures j < Nineteen ==> c == to
  {
    j, c := i, from;
    while j < Nineteen && c < to
      invariant from <= c <= to && j == DigitValue(d[..c]) && j < 10 * Nineteen
    {
      TakeStep(d, c, j);
      j := j * 10 + Worth(d[c]);
      c := c + 1;
    }
  }

  lemma NotAllTaken(d: Text, c: nat, j: nat)
    requires AllDigits(d) && Sig(d) > 19 && c <= |d| && j == DigitValue(d[..c]) && j < 10 * Nineteen
    requires j < Nineteen ==> c == |d|
    ensures j >= Nineteen && Sig(d) - 19 == |d| - c
    ensures Pow(10, Sig(d) - 19) > 0 && j == DigitValue(d) / Pow(10, Sig(d) - 19)
  {
    NineteenDigits();
    SigBounds(d);
    PowMonotone(10, 19, Sig(d) - 1);
    assert d[..|d|] == d;
    SigFromValue(d[..c], 18);
    SigOfPrefix(d, c);
    PrefixIsQuotient(d, c);
  }

  // ---- The whole literal ----

  datatype Parsed = Parsed(
    valid: bool, negative: bool, tooManyDigits: bool, mantissa: nat, exponent: int,
    integer: Text, fraction: Text, hasFraction: bool, lastMatch: nat)

  /** The mantissa and exponent of the digits `d`, of which `places` stand behind the point, with an
      explicit exponent: exact for up to nineteen significant digits, else the first nineteen. */
  ghost predicate Scanned(a: Parsed, explicit: int) {
    var d := a.integer + a.fraction;
    && AllDigits(d) && d != []
    && (a.tooManyDigits <==> Sig(d) > 19)
    && (!a.tooManyDigits ==> a.mantissa == DigitValue(d) && a.exponent == explicit - |a.fraction|)
    && (a.tooManyDigits ==>
          && a.exponent == explicit - |a.fraction| + (Sig(d) - 19)
          && a.mantissa * Pow(10, Sig(d) - 19) <= DigitValue(d) < (a.mantissa + 1) * Pow(10, Sig(d) - 19)
          && Nineteen <= a.mantissa < 10 * Nineteen)
  }

  /** The restart for long literals. */
  method Rescan(integer: Text, fraction: Text, explicit: int) returns (i: nat, exponent: int)
    requires AllDigits(integer + fraction) && Sig(integer + fraction) > 19
    ensures Scanned(Parsed(true, false, true, i, exponent, integer, fraction, true, 0), explicit)
  {
    ghost var d := integer + fraction;
    var c: nat;
    i, c := TakeDigits(integer + fraction, 0, |integer|, 0);
    if i >= Nineteen {
      exponent := |integer| - c + explicit;
    } else {
      i, c := TakeDigits(integer + fraction, c, |integer + fraction|, i);
      exponent := |integer| - c + explicit;
    }
    NotAllTaken(d, c, i);
    QuotientBracket(DigitValue(d), Pow(10, Sig(d) - 19), i);
  }

  lemma QuotientBracket(x: int, p: nat, q: int)
    requires p > 0 && q == x / p
    ensures q * p <= x < (q + 1) * p
  {
    assert (q + 1) * p == q * p + p;
  }

  /** The mantissa modulo 2^64 is the mantissa when nineteen significant digits are enough. */
  lemma ShortIsExact(d: Text)
    requires AllDigits(d) && Sig(d) <= 19
    ensures Wrapped(d) == DigitValue(d)
  {
    WrappedIs(d);
    NineteenDigits();
    SigBounds(d);
    PowMonotone(10, Sig(d), 19);
  }

  method ScanFraction(s: Text, p: nat, i: nat, ghost integer: Text) returns (j: nat, stop: nat)
    requires p <= |s| && i == Wrapped(integer)
    ensures stop == RunEnd(s, p) && j == Wrapped(integer + s[p..stop])
  {
    j, stop := ScanEights(s, p, i, integer);
    ghost var middle := stop;
    j, stop := ScanDigits(s, stop, j, integer + s[p..middle]);
    assert integer + s[p..stop] == integer + s[p..middle] + s[middle..stop];
  }

  /** The digits of the literal, read modulo 2^64: the digits before the point one at a time, those
      behind it eight at a time first. */
  method ScanMantissa(s: Text, point: Byte) returns (i: nat, integer: Text, fraction: Text, stop: nat)
    requires s != []
    ensures integer == IntegerPart(s) && fraction == FractionPart(s, point) && stop == FractionEnd(s, point)
    ensures i == Wrapped(DigitsOf(s, point))
  {
    var start := StartOf(s);
    i, stop := ScanDigits(s, start, 0, []);
    integer, fraction := s[start..stop], [];
    assert [] + s[start..stop] == integer && integer + [] == integer;
    if stop < |s| && s[stop] == point {
      var before := stop + 1;
      i, stop := ScanFraction(s, before, i, integer);
      fraction := s[before..stop];
    }
  }

  /** The exponent part, if there is one: an `e` without digits is left alone unless a scientific
      literal is required. */
  method ScanExponentPart(s: Text, p: nat, fmt: Format) returns (ok: bool, e: int, stop: nat)
    requires p <= |s|
    ensures ok <==> (fmt.scientific && !fmt.fixed ==> HasExponent(s, p))
    ensures ok ==> e == ExplicitExponent(s, p, fmt)
    ensures ok ==> stop == if fmt.scientific && HasExponent(s, p) then RunEnd(s, ExponentStart(s, p)) else p
  {
    if fmt.scientific && p < |s| && IsE(s[p]) {
      stop := p + 1;
      var negative := false;
      if stop < |s| && s[stop] == MinusSign {
        negative := true;
        stop := stop + 1;
      } else if stop < |s| && s[stop] == PlusSign {
        stop := stop + 1;
      }
      if stop == |s| || !IsDigit(s[stop]) {
        return fmt.fixed, 0, p;
      }
      e, stop := ScanExponent(s, stop);
      return true, if negative then -e else e, stop;
    }
    return !(fmt.scientific && !fmt.fixed), 0, p;
  }

  /** Keep the mantissa, or start again if it may have overflowed. */
  method Finish(s: Text, point: Byte, i: nat, integer: Text, fraction: Text, explicit: int)
    returns (tooMany: bool, j: nat, exponent: int)
    requires s != [] && !IsDigit(point) && integer + fraction == DigitsOf(s, point) && integer + fraction != []
    requires AllDigits(integer + fraction) && i == Wrapped(integer + fraction)
    ensures forall negative, hasFraction, lastMatch ::
              Scanned(Parsed(true, negative, tooMany, j, exponent, integer, fraction, hasFraction, lastMatch), explicit)
  {
    tooMany, j, exponent := false, i, explicit - |fraction|;
    if |integer| + |fraction| > 19 {
      var count := CountSignificant(s, point);
      if count > 19 {
        tooMany := true;
        j, exponent := Rescan(integer, fraction, explicit);
      }
    } else {
      StripSplits(integer + fraction);
    }
    if !tooMany {
      ShortIsExact(integer + fraction);
    }
  }

  /** Scan a literal.  `explicit` is the exponent written in it. */
  method ParseNumberString(s: Text, point: Byte, fmt: Format) returns (a: Parsed, explicit: int)
    requires s != [] && !IsDigit(point)
    ensures a.valid <==> WellFormed(s, point, fmt)
    ensures a.valid ==> Scanned(a, explicit) && explicit == ExplicitExponent(s, FractionEnd(s, point), fmt)
    ensures a.valid ==> a.integer == IntegerPart(s) && a.fraction == FractionPart(s, point)
    ensures a.valid ==> a.hasFraction == HasPoint(s, point) && a.negative == (s[0] == MinusSign)
    ensures a.valid ==> var p := FractionEnd(s, point);
                        a.lastMatch == if fmt.scientific && HasExponent(s, p) then RunEnd(s, ExponentStart(s, p)) else p
  {
    var invalid := Parsed(false, s[0] == MinusSign, false, 0, 0, [], [], false, 0);
    if s[0] == MinusSign && (|s| == 1 || (!IsDigit(s[1]) && s[1] != point)) {
      return invalid, 0;
    }
    var i, integer, fraction, stop := ScanMantissa(s, point);
    DigitsAreDigits(s, point);
    if |integer| + |fraction| == 0 {
      return invalid, 0;
    }
    var ok, exponent;
    ok, explicit, stop := ScanExponentPart(s, stop, fmt);
    if !ok {
      return invalid, 0;
    }
    var tooMany;
    tooMany, i, exponent := Finish(s, point, i, integer, fraction, explicit);
    a := Parsed(true, s[0] == MinusSign, tooMany, i, exponent, integer, fraction, HasPoint(s, point), stop);
  }
}
