/** Strings of decimal digits and the numbers they stand for. */
module Digits {
  import opened Powers
  import opened Words

  type Text = seq<Byte>

  predicate AllDigits(s: Text) {
    forall i :: 0 <= i < |s| ==> IsDigit(s[i])
  }

  const Zero: Byte := 0x30

  lemma ValueSnoc(s: Text, b: Byte)
    ensures DigitValue(s + [b]) == 10 * DigitValue(s) + Worth(b)
  {
    assert (s + [b])[..|s + [b]| - 1] == s;
  }

  lemma {:induction false} ValueConcat(s: Text, t: Text)
    ensures DigitValue(s + t) == DigitValue(s) * Pow(10, |t|) + DigitValue(t)
  {
    if t == [] {
      assert s + t == s;
    } else {
      var n := |t| - 1;
      ValueConcat(s, t[..n]);
      assert s + t == (s + t[..n]) + [t[n]];
      ValueSnoc(s + t[..n], t[n]);
      TenTimes(DigitValue(s), Pow(10, n));
    }
  }

  lemma TenTimes(a: int, p: int)
    ensures 10 * (a * p) == a * (10 * p)
  {
  }

  lemma {:induction false} ValueNotNegative(s: Text)
    requires AllDigits(s)
    ensures DigitValue(s) >= 0
  {
    if s != [] {
      ValueNotNegative(s[..|s| - 1]);
    }
  }

  lemma {:induction false} ValueBound(s: Text)
    requires AllDigits(s)
    ensures 0 <= DigitValue(s) < Pow(10, |s|)
  {
    if s != [] {
      ValueBound(s[..|s| - 1]);
    }
  }

  // ---- Significant digits ----

  function Strip(s: Text): Text {
    if s == [] || s[0] != Zero then s else Strip(s[1..])
  }

  predicate AllZero(s: Text) {
    forall i :: 0 <= i < |s| ==> s[i] == Zero
  }

  /** Stripping removes a run of zeros, and stops at a digit that is none. */
  lemma {:induction false} StripSplits(s: Text)
    ensures |Strip(s)| <= |s| && Strip(s) == s[|s| - |Strip(s)|..]
    ensures AllZero(s[..|s| - |Strip(s)|])
    ensures Strip(s) != [] ==> Strip(s)[0] != Zero
  {
    if s != [] && s[0] == Zero {
      StripSplits(s[1..]);
      var z := |s| - |Strip(s)|;
      assert s[..z] == [s[0]] + s[1..][..z - 1];
    }
  }

  /** The converse: a run of zeros before something that does not start with one is what is removed. */
  lemma {:induction false} StripIs(s: Text, z: nat)
    requires z <= |s| && AllZero(s[..z]) && (z < |s| ==> s[z] != Zero)
    ensures Strip(s) == s[z..]
  {
    if z > 0 {
      assert s[..z][0] == Zero;
      assert s[1..][..z - 1] == s[..z][1..] && s[1..][z - 1..] == s[z..];
      StripIs(s[1..], z - 1);
    }
  }

  lemma {:induction false} ZeroValue(s: Text)
    requires AllZero(s)
    ensures DigitValue(s) == 0
  {
    if s != [] {
      ZeroValue(s[..|s| - 1]);
    }
  }

  lemma StripKeepsValue(s: Text)
    ensures DigitValue(Strip(s)) == DigitValue(s)
  {
    StripSplits(s);
    var z := |s| - |Strip(s)|;
    assert s == s[..z] + s[z..];
    ValueConcat(s[..z], s[z..]);
    ZeroValue(s[..z]);
  }

  /** A first digit that is not zero makes the number large. */
  lemma LeadingDigit(s: Text)
    requires AllDigits(s) && s != [] && s[0] != Zero
    ensures DigitValue(s) >= Pow(10, |s| - 1)
  {
    assert s == s[..1] + s[1..];
    ValueConcat(s[..1], s[1..]);
    ValueBound(s[1..]);
    MulLeft(1, Worth(s[0]), Pow(10, |s| - 1));
    assert s[..1][..0] == [];
  }

  function Sig(s: Text): nat {
    |Strip(s)|
  }

  lemma SigBounds(s: Text)
    requires AllDigits(s)
    ensures 0 <= DigitValue(s) < Pow(10, Sig(s))
    ensures Sig(s) > 0 ==> DigitValue(s) >= Pow(10, Sig(s) - 1)
    ensures Sig(s) == 0 ==> DigitValue(s) == 0
  {
    StripSplits(s);
    StripKeepsValue(s);
    ValueBound(Strip(s));
    if Sig(s) > 0 {
      LeadingDigit(Strip(s));
    }
  }

  /** The prefix of a digit string, as a quotient. */
  lemma PrefixIsQuotient(s: Text, c: nat)
    requires AllDigits(s) && c <= |s|
    ensures Pow(10, |s| - c) > 0
    ensures DigitValue(s) / Pow(10, |s| - c) == DigitValue(s[..c])
  {
    assert s == s[..c] + s[c..];
    ValueConcat(s[..c], s[c..]);
    ValueBound(s[c..]);
    DivUnique(DigitValue(s), Pow(10, |s| - c), DigitValue(s[..c]), DigitValue(s[c..]));
  }

  /** A prefix with a nonzero digit has all the leading zeros. */
  lemma SigOfPrefix(s: Text, c: nat)
    requires c <= |s| && Sig(s[..c]) > 0
    ensures Sig(s) == |s| - c + Sig(s[..c])
  {
    var t := s[..c];
    StripSplits(t);
    var z := |t| - |Strip(t)|;
    assert s[..z] == t[..z] && s[z] == t[z];
    StripIs(s, z);
  }

  lemma {:induction false} StripPastZeros(s: Text, c: nat)
    requires c <= |s| && AllZero(s[..c])
    ensures Strip(s) == Strip(s[c..])
  {
    if c == 0 {
      assert s[c..] == s;
    } else {
      assert s[..c][0] == Zero;
      assert s[1..][..c - 1] == s[..c][1..] && s[1..][c - 1..] == s[c..];
      StripPastZeros(s[1..], c - 1);
    }
  }

  /** How many digits a number with a value in [10^k, 10^(k+1)) has. */
  lemma SigFromValue(s: Text, k: nat)
    requires AllDigits(s) && Pow(10, k) <= DigitValue(s) < Pow(10, k + 1)
    ensures Sig(s) == k + 1
  {
    SigBounds(s);
    if Sig(s) <= k {
      PowMonotone(10, Sig(s), k);
    } else if Sig(s) > k + 1 {
      PowMonotone(10, k + 1, Sig(s) - 1);
    }
  }
}
