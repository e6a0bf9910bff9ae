/** Word-level forms of simple computations: eight digits at a time, and a 128-bit product from 32-bit
    parts.  A word is a number below 2^64, and every operation wraps around explicitly. */
module Words {
  import opened Powers
  import opened Limbs

  // ---- Bytes of a word ----

  type Byte = b: int | 0 <= b < 256

  function Code(b: Byte): nat {
    b
  }

  /** What the byte is worth as a digit. */
  function Worth(b: Byte): int {
    Code(b) - 0x30
  }

  /** The little-endian word made of the bytes. */
  function Pack(s: seq<Byte>): nat {
    if s == [] then 0 else Code(s[0]) + 256 * Pack(s[1..])
  }

  /** The word with every byte the same. */
  function Repeat(b: Byte, n: nat): nat {
    if n == 0 then 0 else b + 256 * Repeat(b, n - 1)
  }

  lemma {:induction false} Fits(s: seq<Byte>)
    ensures Pack(s) < Pow(256, |s|)
  {
    if s != [] {
      Fits(s[1..]);
    }
  }

  lemma {:induction false} AndSplit(a: nat, b: nat, c: nat, d: nat, n: nat)
    requires a < Pow(2, n) && c < Pow(2, n)
    ensures And(a + Pow(2, n) * b, c + Pow(2, n) * d) == And(a, c) + Pow(2, n) * And(b, d)
  {
    if n == 0 {
      AndZero(0);
    } else {
      var p := Pow(2, n - 1);
      AndSplit(a / 2, b, c / 2, d, n - 1);
      Halve(a, b, p);
      Halve(c, d, p);
      Double(p, And(b, d));
    }
  }

  lemma {:induction false} OrSplit(a: nat, b: nat, c: nat, d: nat, n: nat)
    requires a < Pow(2, n) && c < Pow(2, n)
    ensures Or(a + Pow(2, n) * b, c + Pow(2, n) * d) == Or(a, c) + Pow(2, n) * Or(b, d)
  {
    if n == 0 {
      OrZero(0);
    } else {
      var p := Pow(2, n - 1);
      OrSplit(a / 2, b, c / 2, d, n - 1);
      Halve(a, b, p);
      Halve(c, d, p);
      Double(p, Or(b, d));
    }
  }

  lemma Halve(a: nat, b: nat, p: nat)
    ensures (a + (2 * p) * b) / 2 == a / 2 + p * b && (a + (2 * p) * b) % 2 == a % 2
  {
    assert (2 * p) * b == 2 * (p * b);
  }

  lemma Double(p: nat, x: nat)
    ensures (2 * p) * x == 2 * (p * x)
  {
  }

  lemma EightBits()
    ensures Pow(2, 8) == 256 && Pow(2, 7) == 128
  {
    assert Pow(2, 4) == 16;
    PowAdd(2, 4, 4);
    assert Pow(2, 8) == 2 * Pow(2, 7);
  }

  // ---- The eight-digit test ----

  predicate IsDigit(b: Byte) {
    0x30 <= b <= 0x39
  }

  /** On `n` bytes: no byte has its top bit set after adding 0x46 or after subtracting 0x30. */
  function MadeOfDigits(val: int, n: nat): bool
    requires Pow(256, n) > 0
  {
    var m := Pow(256, n);
    And(Or((val + Repeat(0x46, n)) % m, (val - Repeat(0x30, n)) % m), Repeat(0x80, n)) == 0
  }

  lemma LowByte(x: int, n: nat, y: int, low: int)
    requires n > 0 && Pow(256, n - 1) > 0 && x == low + 256 * y
    ensures Pow(256, n) > 0
    ensures x % Pow(256, n) == low % 256 + 256 * ((y + low / 256) % Pow(256, n - 1))
  {
    var p := Pow(256, n - 1);
    var z := y + low / 256;
    assert x == low % 256 + 256 * z;
    assert 256 * (z / p * p) == z / p * (256 * p);
    DivUnique(x, 256 * p, z / p, low % 256 + 256 * (z % p));
  }

  /** Among bytes, the top bit of an `or`. */
  lemma OrTop(x: Byte, y: Byte)
    ensures Or(x, y) < 256 && (Or(x, y) >= 128 <==> x >= 128 || y >= 128)
  {
    EightBits();
    OrSplit(x % 128, x / 128, y % 128, y / 128, 7);
    OrSmall(x % 128, y % 128, 7);
    OrZero(x / 128);
    OrZero(y / 128);
    assert Or(1, 1) == 1;
  }

  lemma {:induction false} OrSmall(a: nat, b: nat, n: nat)
    requires a < Pow(2, n) && b < Pow(2, n)
    ensures Or(a, b) < Pow(2, n)
  {
    if n > 0 && (a != 0 || b != 0) {
      OrSmall(a / 2, b / 2, n - 1);
    }
  }

  lemma TopBit(x: Byte)
    ensures And(x, 0x80) == 0 <==> x < 128
  {
    EightBits();
    AndSplit(x % 128, x / 128, 0, 1, 7);
    AndZero(x % 128);
    AndMask(x / 128, 1);
    assert Pow(2, 1) == 2;
  }

  /** The test of the lowest byte and the test of the others. */
  lemma TestOf(x: Byte, u: nat, y: Byte, v: nat, mask: nat)
    ensures And(Or(x + 256 * u, y + 256 * v), 0x80 + 256 * mask) == 0
            <==> x < 128 && y < 128 && And(Or(u, v), mask) == 0
  {
    EightBits();
    OrSplit(x, u, y, v, 8);
    OrTop(x, y);
    AndSplit(Or(x, y), Or(u, v), 0x80, mask, 8);
    TopBit(Or(x, y));
  }

  /** True exactly when all bytes are digits: up to the first byte that is none there is no carry and
      no borrow, and that byte itself fails the test. */
  lemma {:induction false} MadeOfDigitsIsExact(s: seq<Byte>)
    ensures Pow(256, |s|) > 0
    ensures MadeOfDigits(Pack(s), |s|) <==> forall i :: 0 <= i < |s| ==> IsDigit(s[i])
  {
    var n := |s|;
    PowPositive(256, n);
    if n == 0 {
      assert (0 + 0) % 1 == 0;
      OrZero(0);
      AndZero(0);
    } else {
      PowPositive(256, n - 1);
      MadeOfDigitsIsExact(s[1..]);
      TestSplits(s[0], Pack(s[1..]), n);
      assert s == [s[0]] + s[1..];
    }
  }

  lemma TestLow(b: Byte, rest: nat, n: nat, x: nat, u: nat, y: nat, v: nat)
    requires n > 0 && Pow(256, n) > 0 && x < 256 && y < 256
    requires (b + 256 * rest + Repeat(0x46, n)) % Pow(256, n) == x + 256 * u
    requires (b + 256 * rest - Repeat(0x30, n)) % Pow(256, n) == y + 256 * v
    ensures MadeOfDigits(b + 256 * rest, n) <==> x < 128 && y < 128 && And(Or(u, v), Repeat(0x80, n - 1)) == 0
  {
    TestOf(x, u, y, v, Repeat(0x80, n - 1));
  }

  lemma TestSplits(b: Byte, rest: nat, n: nat)
    requires n > 0 && Pow(256, n - 1) > 0 && Pow(256, n) > 0
    ensures MadeOfDigits(b + 256 * rest, n) ==> IsDigit(b)
    ensures IsDigit(b) ==> (MadeOfDigits(b + 256 * rest, n) <==> MadeOfDigits(rest, n - 1))
  {
    var p := Pow(256, n - 1);
    var plus, minus := rest + Repeat(0x46, n - 1), rest - Repeat(0x30, n - 1);
    var u, v := (plus + (b + 0x46) / 256) % p, (minus + (b - 0x30) / 256) % p;
    LowByte(b + 256 * rest + Repeat(0x46, n), n, plus, b + 0x46);
    LowByte(b + 256 * rest - Repeat(0x30, n), n, minus, b - 0x30);
    TestLow(b, rest, n, (b + 0x46) % 256, u, (b - 0x30) % 256, v);
    ByteRange(b);
  }

  lemma ByteRange(b: Byte)
    ensures (b + 0x46) % 256 < 128 && (b - 0x30) % 256 < 128 <==> IsDigit(b)
    ensures IsDigit(b) ==> (b + 0x46) / 256 == 0 && (b - 0x30) / 256 == 0
  {
  }

  // ---- Eight digits at a time ----

  const Mask: nat := 0x000000FF000000FF

  /** Second step: every digit is joined with the next one. */
  function Join(v: nat): nat {
    (v * 10 + v / 256) % B
  }

  /** Third step: the pairs are weighted and added up. */
  function Weigh(v: nat): nat {
    ((And(v, Mask) * 0x000F424000000064 + And(v / 65536, Mask) * 0x0000271000000001) % B) / Half32 % Half32
  }

  /** First step: the characters become digits. */
  function Minus(val: int): nat {
    (val - 0x3030303030303030) % B
  }

  /** The value of eight digits packed into a word. */
  function ParseEight(val: int): nat {
    Weigh(Join(Minus(val)))
  }

  const Half32: nat := 0x1_0000_0000

  /** Two bytes of a word, 32 bits apart. */
  lemma MaskTwo(low: nat, high: nat)
    requires low < Half32
    ensures And(low + Half32 * high, Mask) == low % 256 + Half32 * (high % 256)
  {
    EightBits();
    PowAdd(2, 8, 8);
    PowAdd(2, 16, 16);
    AndSplit(low, high, 0xFF, 0xFF, 32);
    AndMask(low, 8);
    AndMask(high, 8);
  }

  /** The little-endian word made of the digits' values. */
  function PackDigits(s: seq<Byte>): int {
    if s == [] then 0 else Worth(s[0]) + 256 * PackDigits(s[1..])
  }

  lemma {:induction false} PackIsDigits(s: seq<Byte>)
    requires forall i :: 0 <= i < |s| ==> IsDigit(s[i])
    ensures Pack(s) == Repeat(0x30, |s|) + PackDigits(s) && 0 <= PackDigits(s) < Pow(256, |s|)
  {
    if s != [] {
      PackIsDigits(s[1..]);
    }
  }

  /** Digit `i` joined with the next one. */
  function Pair(s: seq<Byte>, i: nat): int
    requires i < |s|
  {
    10 * Worth(s[i]) + if i + 1 < |s| then Worth(s[i + 1]) else 0
  }

  function PackPairs(s: seq<Byte>): int {
    if s == [] then 0 else Pair(s, 0) + 256 * PackPairs(s[1..])
  }

  lemma {:induction false} PairsOfDigits(s: seq<Byte>)
    requires s != [] && forall i :: 0 <= i < |s| ==> IsDigit(s[i])
    ensures PackPairs(s) == 10 * PackDigits(s) + PackDigits(s[1..]) && 0 <= PackPairs(s) < Pow(256, |s|)
  {
    if |s| > 1 {
      PairsOfDigits(s[1..]);
    }
  }

  lemma JoinIs(v: nat, rest: nat, low: nat)
    requires v == 256 * rest + low && low < 256 && v * 10 + rest < B
    ensures Join(v) == v * 10 + rest
  {
    DivUnique(v, 256, rest, low);
  }

  lemma JoinDigits(s: seq<Byte>)
    requires |s| == 8 && forall i :: 0 <= i < 8 ==> IsDigit(s[i])
    ensures PackDigits(s) >= 0 && Join(PackDigits(s)) == PackPairs(s)
  {
    PackIsDigits(s);
    PackIsDigits(s[1..]);
    PairsOfDigits(s);
    EightBytes();
    JoinIs(PackDigits(s), PackDigits(s[1..]), Worth(s[0]));
  }

  lemma EightBytes()
    ensures Pow(256, 8) == B && Repeat(0x30, 8) == 0x3030303030303030 && Pow(256, 4) == Half32
  {
    assert Pow(256, 2) == 65536;
    PowAdd(256, 2, 2);
    PowAdd(256, 4, 4);
    assert Repeat(0x30, 4) == 0x30303030;
  }

  /** The lowest two pairs and the others. */
  lemma TwoPairs(s: seq<Byte>)
    requires |s| >= 2 && forall i :: 0 <= i < |s| ==> IsDigit(s[i])
    ensures PackPairs(s) == Pair(s, 0) + 256 * Pair(s, 1) + 65536 * PackPairs(s[2..])
    ensures 0 <= Pair(s, 0) < 100 && 0 <= Pair(s, 1) < 100 && PackPairs(s[2..]) >= 0
  {
    assert s[1..][1..] == s[2..];
    if s[2..] != [] {
      PairsOfDigits(s[2..]);
    }
  }

  lemma LowPairs(v: nat, a: nat, b: nat, c: nat, d: nat, high: nat)
    requires v == a + 256 * b + 65536 * (c + 256 * d + 65536 * high) && a < 100 && b < 100 && c < 100 && d < 100
    ensures And(v, Mask) == a + Half32 * (high % 256)
  {
    var rest := b + 256 * c + 65536 * d;
    DivUnique(a + 256 * rest, 256, rest, a);
    MaskTwo(a + 256 * rest, high);
  }

  lemma FirstPair(s: seq<Byte>)
    requires s != [] && forall i :: 0 <= i < |s| ==> IsDigit(s[i])
    ensures PackPairs(s) >= 0 && PackPairs(s) % 256 == Pair(s, 0) && PackPairs(s) / 256 == PackPairs(s[1..])
  {
    PairsOfDigits(s);
    DivUnique(PackPairs(s), 256, PackPairs(s[1..]), Pair(s, 0));
  }

  /** The mask finds the first and the fifth pair. */
  lemma MaskPairs(s: seq<Byte>)
    requires |s| > 4 && forall i :: 0 <= i < |s| ==> IsDigit(s[i])
    ensures PackPairs(s) >= 0 && And(PackPairs(s), Mask) == Pair(s, 0) + Half32 * Pair(s, 4)
  {
    var t, u := s[2..], s[4..];
    TwoPairs(s);
    TwoPairs(t);
    assert t[2..] == u;
    FirstPair(u);
    LowPairs(PackPairs(s), Pair(s, 0), Pair(s, 1), Pair(t, 0), Pair(t, 1), PackPairs(u));
    assert Pair(u, 0) == Pair(s, 4);
  }

  /** The value of a sequence of digits, one at a time. */
  function DigitValue(s: seq<Byte>): int {
    if s == [] then 0 else 10 * DigitValue(s[..|s| - 1]) + Worth(s[|s| - 1])
  }

  lemma ValueOfTwo(s: seq<Byte>, n: nat)
    requires n + 2 <= |s|
    ensures DigitValue(s[..n + 2]) == 100 * DigitValue(s[..n]) + (10 * Worth(s[n]) + Worth(s[n + 1]))
  {
    assert s[..n + 2][..n + 1] == s[..n + 1] && s[..n + 1][..n] == s[..n];
  }

  lemma MinusIs(val: int, x: nat)
    requires val == 0x3030303030303030 + x && x < B
    ensures Minus(val) == x
  {
  }

  lemma ValueOfEight(s: seq<Byte>)
    requires |s| == 8
    ensures DigitValue(s) == 1000000 * Pair(s, 0) + 10000 * Pair(s, 2) + 100 * Pair(s, 4) + Pair(s, 6)
  {
    ValueOfTwo(s, 0);
    ValueOfTwo(s, 2);
    ValueOfTwo(s, 4);
    ValueOfTwo(s, 6);
    assert s[..0] == [] && s[..8] == s;
  }

  lemma WeighIs(v: nat, w: nat, a: nat, b: nat, c: nat, d: nat)
    requires w == v / 65536 && And(v, Mask) == a + Half32 * c && And(w, Mask) == b + Half32 * d
    requires a < 100 && b < 100 && c < 100 && d < 100
    ensures Weigh(v) == 1000000 * a + 10000 * b + 100 * c + d
  {
    TwoProducts(a, b, c, d);
  }

  lemma WeighDigits(s: seq<Byte>)
    requires |s| == 8 && forall i :: 0 <= i < 8 ==> IsDigit(s[i])
    ensures PackPairs(s) >= 0 && Weigh(PackPairs(s)) == 1000000 * Pair(s, 0) + 10000 * Pair(s, 2) + 100 * Pair(s, 4) + Pair(s, 6)
  {
    MaskPairs(s);
    MaskPairs(s[2..]);
    TwoPairs(s);
    DivUnique(PackPairs(s), 65536, PackPairs(s[2..]), Pair(s, 0) + 256 * Pair(s, 1));
    WeighIs(PackPairs(s), PackPairs(s[2..]), Pair(s, 0), Pair(s[2..], 0), Pair(s, 4), Pair(s[2..], 4));
  }

  /** The unrolled form equals the digit-by-digit value. */
  lemma ParseEightIsExact(s: seq<Byte>)
    requires |s| == 8 && forall i :: 0 <= i < 8 ==> IsDigit(s[i])
    ensures ParseEight(Pack(s)) == DigitValue(s)
  {
    PackIsDigits(s);
    EightBytes();
    MinusIs(Pack(s), PackDigits(s));
    JoinDigits(s);
    WeighDigits(s);
    ValueOfEight(s);
  }

  lemma TwoProducts(a: nat, b: nat, c: nat, d: nat)
    requires a < 100 && b < 100 && c < 100 && d < 100
    ensures ((a + Half32 * c) * 0x000F424000000064 + (b + Half32 * d) * 0x0000271000000001) % B / Half32 % Half32
            == 1000000 * a + 10000 * b + 100 * c + d
  {
    var r := 1000000 * a + 10000 * b + 100 * c + d;
    var low := 100 * a + b;
    var total := (a + Half32 * c) * 0x000F424000000064 + (b + Half32 * d) * 0x0000271000000001;
    assert total == (1000000 * c + 10000 * d) * B + (r * Half32 + low);
    DivUnique(total, B, 1000000 * c + 10000 * d, r * Half32 + low);
  }

  // ---- 64 x 64 -> 128 bits ----

  /** The product of two words from 32-bit products: (high word, low word). */
  function Umul128(ab: Limb, cd: Limb): (nat, nat) {
    var a, b, c, d := ab / Half32, ab % Half32, cd / Half32, cd % Half32;
    var ad, bd := a * d, b * d;
    var adbc := (ad + b * c) % B;
    var carry := if adbc < ad then 1 else 0;
    var lo := (bd + adbc * Half32 % B) % B;
    var hi := (a * c + adbc / Half32 + carry * Half32 + if lo < bd then 1 else 0) % B;
    (hi, lo)
  }

  lemma Umul128IsProduct(ab: Limb, cd: Limb)
    ensures Umul128(ab, cd).0 * B + Umul128(ab, cd).1 == ab * cd
    ensures Umul128(ab, cd).0 < B && Umul128(ab, cd).1 < B
  {
    var a, b, c, d := ab / Half32, ab % Half32, cd / Half32, cd % Half32;
    Schoolbook(a, b, c, d);
    FourProducts(a * c, a * d, b * c, b * d);
    SameProduct(ab, cd, a * Half32 + b, c * Half32 + d);
  }

  lemma SameProduct(x: nat, y: nat, x': nat, y': nat)
    requires x == x' && y == y'
    ensures x * y == x' * y'
  {
  }

  lemma Schoolbook(a: nat, b: nat, c: nat, d: nat)
    requires a < Half32 && b < Half32 && c < Half32 && d < Half32
    ensures (a * Half32 + b) * (c * Half32 + d) == (a * c) * B + (a * d + b * c) * Half32 + b * d
    ensures a * c <= (Half32 - 1) * (Half32 - 1) && a * d <= (Half32 - 1) * (Half32 - 1)
    ensures b * c <= (Half32 - 1) * (Half32 - 1) && b * d <= (Half32 - 1) * (Half32 - 1)
  {
    ProductBound(a, c);
    ProductBound(a, d);
    ProductBound(b, c);
    ProductBound(b, d);
  }

  lemma ProductBound(a: nat, c: nat)
    requires a < Half32 && c < Half32
    ensures a * c <= (Half32 - 1) * (Half32 - 1)
  {
    MulLeft(a, Half32 - 1, c);
  }

  lemma FourProducts(ac: nat, ad: nat, bc: nat, bd: nat)
    requires ac <= (Half32 - 1) * (Half32 - 1) && ad <= (Half32 - 1) * (Half32 - 1)
    requires bc <= (Half32 - 1) * (Half32 - 1) && bd <= (Half32 - 1) * (Half32 - 1)
    ensures var adbc := (ad + bc) % B;
            var carry := if adbc < ad then 1 else 0;
            var lo := (bd + adbc * Half32 % B) % B;
            var hi := (ac + adbc / Half32 + carry * Half32 + if lo < bd then 1 else 0) % B;
            hi * B + lo == ac * B + (ad + bc) * Half32 + bd
  {
    var adbc := (ad + bc) % B;
    var carry := if adbc < ad then 1 else 0;
    AddWraps(ad, bc);
    var x, y := adbc / Half32, adbc % Half32;
    DivUnique(adbc * Half32, B, x, y * Half32);
    AddWraps(bd, y * Half32);
    var lo := (bd + y * Half32) % B;
    var k := if lo < bd then 1 else 0;
    HighFits(ac + x + carry * Half32 + k, lo, ac, ad + bc, bd);
  }

  /** The sum of two words wrapped around exactly when it is less than the first. */
  lemma AddWraps(x: nat, y: nat)
    requires x < B && y < B
    ensures (x + y) % B + (if (x + y) % B < x then B else 0) == x + y
  {
  }

  lemma HighFits(hi: nat, lo: nat, ac: nat, middle: nat, bd: nat)
    requires ac <= (Half32 - 1) * (Half32 - 1) && bd <= (Half32 - 1) * (Half32 - 1)
    requires middle <= 2 * ((Half32 - 1) * (Half32 - 1)) && lo < B && hi * B + lo == ac * B + middle * Half32 + bd
    ensures hi < B && hi % B == hi
  {
  }
}
