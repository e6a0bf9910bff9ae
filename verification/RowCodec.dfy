/** One line of text to fixed-width cells and back. */
module RowCodec {
  import opened Options
  import opened Words
  import opened Digits
  import opened Decimal
  import opened Layout
  import opened TupleBuffer

  const Comma: Byte := 0x2C
  const Newline: Byte := 0x0A
  const Nul: Byte := 0

  // ---- Integers ----

  /** Decimal digits without leading zeros, as `%d` prints them. */
  function DecimalText(n: nat): (s: Text)
    ensures s != [] && AllDigits(s)
  {
    if n < 10 then [0x30 + n] else DecimalText(n / 10) + [0x30 + n % 10]
  }

  function FormatInt(v: int): Text {
    if v < 0 then [MinusSign] + DecimalText(-v) else DecimalText(v)
  }

  lemma {:induction false} DecimalValue(n: nat)
    ensures DigitValue(DecimalText(n)) == n
  {
    if n >= 10 {
      DecimalValue(n / 10);
      ValueSnoc(DecimalText(n / 10), 0x30 + n % 10);
    } else {
      ValueSnoc([], 0x30 + n);
      assert [] + [0x30 + n] == DecimalText(n);
    }
  }

  predicate IsInt32(v: int) {
    -0x8000_0000 <= v < 0x8000_0000
  }

  /** The number at the start of the text, as `from_chars` reads it; nothing if there is none or it does not fit. */
  function ParseInt(s: Text): Option<int> {
    var p := if s != [] && s[0] == MinusSign then 1 else 0;
    var digits := s[p..RunEnd(s, p)];
    var v := if p == 1 then -DigitValue(digits) else DigitValue(digits);
    if digits == [] || !IsInt32(v) then None else Some(v)
  }

  lemma RunOfDigits(s: Text, p: nat)
    requires p <= |s| && AllDigits(s[p..])
    ensures RunEnd(s, p) == |s|
  {
    assert s[p..|s|] == s[p..];
    RunEndSkips(s, p, |s|);
  }

  /** An optional minus sign, digits, and anything else that does not begin with a digit. */
  ghost predicate Numeral(s: Text, negative: bool, digits: Text, rest: Text) {
    && s == (if negative then [MinusSign] else []) + (digits + rest)
    && digits != [] && AllDigits(digits) && (rest == [] || !IsDigit(rest[0]))
  }

  ghost predicate ReadsAs(s: Text, v: int, negative: bool, digits: Text, rest: Text) {
    Numeral(s, negative, digits, rest) && v == if negative then -DigitValue(digits) else DigitValue(digits)
  }

  lemma NumeralRun(s: Text, negative: bool, digits: Text, rest: Text)
    requires Numeral(s, negative, digits, rest)
    ensures var p := if s[0] == MinusSign then 1 else 0;
            (p == 1 <==> negative) && s[p..RunEnd(s, p)] == digits
  {
    var p := if negative then 1 else 0;
    var q := p + |digits|;
    assert s[p..q] == digits;
    assert digits[0] == s[p];
    RunEndSkips(s, p, q);
    assert q < |s| ==> s[q] == rest[0];
  }

  /** A number is read if and only if the text begins with one that fits, whatever stands behind it. */
  lemma ParseIntIsExact(s: Text, v: int)
    ensures ParseInt(s) == Some(v) <==> IsInt32(v) && exists negative, digits, rest :: ReadsAs(s, v, negative, digits, rest)
  {
    if ParseInt(s) == Some(v) {
      var p := if s != [] && s[0] == MinusSign then 1 else 0;
      var e := RunEnd(s, p);
      assert s == s[..p] + (s[p..e] + s[e..]);
      assert s[..p] == if p == 1 then [MinusSign] else [];
      assert ReadsAs(s, v, p == 1, s[p..e], s[e..]);
    }
    if negative, digits, rest :| ReadsAs(s, v, negative, digits, rest) {
      NumeralRun(s, negative, digits, rest);
    }
  }

  /** Reading what was printed. */
  lemma ParseFormatted(v: int)
    requires IsInt32(v)
    ensures ParseInt(FormatInt(v)) == Some(v)
  {
    var s := FormatInt(v);
    if v < 0 {
      assert s[1..] == DecimalText(-v);
      RunOfDigits(s, 1);
      assert s[1..|s|] == s[1..];
      DecimalValue(-v);
    } else {
      assert IsDigit(s[0]);
      assert s[0..] == s && s[0..|s|] == s;
      RunOfDigits(s, 0);
      DecimalValue(v);
    }
  }

  /** The four bytes of an `int`, lowest first, in two's complement. */
  function EncodeInt(v: int): (c: Cell)
    ensures |c| == 4
  {
    var x := v % 0x1_0000_0000;
    [x % 256, x / 256 % 256, x / 65536 % 256, x / 16777216]
  }

  function Place(k: nat): (p: nat)
    ensures p >= 1
  {
    if k == 0 then 1 else 256 * Place(k - 1)
  }

  function DecodeInt(c: Cell): int
    requires |c| == 4
  {
    var x := Code(c[0]) + 256 * Code(c[1]) + 65536 * Code(c[2]) + 16777216 * Code(c[3]);
    if x < 0x8000_0000 then x else x - 0x1_0000_0000
  }

  /** The bytes are the digits of the number to the base 256, lowest first. */
  lemma EncodedBytes(v: int, k: nat)
    requires k < 4
    ensures EncodeInt(v)[k] == (v % 0x1_0000_0000) / Place(k) % 256
  {
    assert Place(0) == 1 && Place(1) == 256 && Place(2) == 65536 && Place(3) == 16777216;
  }

  lemma DecodeEncoded(v: int)
    requires IsInt32(v)
    ensures DecodeInt(EncodeInt(v)) == v
  {
    var x := v % 0x1_0000_0000;
    assert x == if v < 0 then v + 0x1_0000_0000 else v;
    assert x == x % 256 + 256 * (x / 256);
    assert x / 256 == x / 256 % 256 + 256 * (x / 65536);
    assert x / 65536 == x / 65536 % 256 + 256 * (x / 16777216);
  }

  // ---- Cells ----

  function Zeros(n: nat): (s: Cell)
    ensures |s| == n && forall i :: 0 <= i < n ==> s[i] == Nul
  {
    seq(n, i => Nul)
  }

  predicate Plain(s: Text) {
    forall i :: 0 <= i < |s| ==> s[i] != Nul && s[i] != Comma && s[i] != Newline
  }

  /** A field the schema can hold without loss: a printed `int`, one character, or a string that fits. */
  ghost predicate Canonical(a: Attribute, s: Text) {
    match a.kind
    case Int => exists v :: IsInt32(v) && s == FormatInt(v)
    case Double => false
    case Char => |s| == 1 && Plain(s)
    case Str => |s| <= a.size && Plain(s)
  }

  /** The cell for a field. */
  ghost function CellOf(a: Attribute, s: Text): (c: Cell)
    requires Canonical(a, s)
    ensures |c| == Width(a)
  {
    match a.kind
    case Int =>
      var v :| IsInt32(v) && s == FormatInt(v);
      EncodeInt(v)
    case Char => s
    case Str => s + Zeros(a.size - |s|)
  }

  lemma StoredTwice(s: seq<Byte>, at: nat, c: Cell, n: nat)
    requires |c| <= n && at + n <= |s|
    ensures Stored(Stored(s, at, Zeros(n)), at, c) == Stored(s, at, c + Zeros(n - |c|))
  {
  }

  /** A field the deserializer of its type can take: it fits into the cell. */
  predicate Storable(a: Attribute, s: Text) {
    match a.kind
    case Int => true
    case Double => false
    case Char => s != []
    case Str => |s| <= a.size
  }

  /** What it makes of the field; `junk` is the uninitialised value that stays when no number can be read. */
  function FieldCell(a: Attribute, s: Text, junk: int): Cell
    requires Storable(a, s)
  {
    match a.kind
    case Int => var v := ParseInt(s); EncodeInt(if v.Some? then v.value else junk)
    case Char => [s[0]]
    case Str => s + Zeros(a.size - |s|)
  }

  /** What the client makes of the field: the number that was read, the first character, or the string up to a zero. */
  ghost predicate ComesBackAs(a: Attribute, s: Text, junk: int, t: Text)
    requires Storable(a, s)
  {
    match a.kind
    case Int => t == FormatInt(if ParseInt(s).Some? then ParseInt(s).value else junk)
    case Char => |t| == 1 && t <= s
    case Str => t <= s && Nul !in t && (|t| < |s| ==> s[|t|] == Nul)
  }

  lemma FieldComesBack(a: Attribute, s: Text, junk: int)
    requires Storable(a, s) && IsInt32(junk)
    ensures ComesBackAs(a, s, junk, CellText(a, FieldCell(a, s, junk)))
  {
    match a.kind {
      case Int =>
        DecodeEncoded(if ParseInt(s).Some? then ParseInt(s).value else junk);
      case Char =>
      case Str =>
        var c := s + Zeros(a.size - |s|);
        NulFirst(c);
        NotBehindZeros(s, a.size - |s|);
        assert c[..UpToNul(c)] == s[..UpToNul(c)];
    }
  }

  lemma {:induction false} NotBehindZeros(s: Text, n: nat)
    ensures UpToNul(s + Zeros(n)) <= |s|
  {
    if s != [] {
      assert (s + Zeros(n))[1..] == s[1..] + Zeros(n);
      NotBehindZeros(s[1..], n);
    } else {
      assert s + Zeros(n) == Zeros(n);
    }
  }

  lemma {:induction false} NulFirst(c: Cell)
    ensures Nul !in c[..UpToNul(c)] && (UpToNul(c) < |c| ==> c[UpToNul(c)] == Nul)
  {
    if c != [] && c[0] != Nul {
      NulFirst(c[1..]);
      assert c[..UpToNul(c)] == [c[0]] + c[1..][..UpToNul(c[1..])];
    }
  }

  /** No junk for canonical fields. */
  lemma CanonicalCell(a: Attribute, s: Text, junk: int)
    requires Canonical(a, s)
    ensures Storable(a, s) && FieldCell(a, s, junk) == CellOf(a, s)
  {
    if a.kind.Int? {
      var v :| IsInt32(v) && s == FormatInt(v);
      IntCell(a, s, v);
    }
  }

  /** Clear the cell, then copy the text into it. */
  method StorePadded(buf: array<Byte>, at: nat, s: Text, n: nat)
    requires |s| <= n && at + n <= buf.Length
    modifies buf
    ensures buf[..] == Stored(old(buf[..]), at, s + Zeros(n - |s|))
  {
    StoredTwice(buf[..], at, s, n);
    StoreCell(buf, at, Zeros(n));
    StoreCell(buf, at, s);
  }

  /** The deserializer of the type writes a field. */
  method DeserializeInto(buf: array<Byte>, at: nat, a: Attribute, s: Text, junk: int)
    requires Storable(a, s) && at + Width(a) <= buf.Length
    modifies buf
    ensures buf[..] == Stored(old(buf[..]), at, FieldCell(a, s, junk))
  {
    match a.kind
    case Int =>
      var value := ParseInt(s);
      StoreCell(buf, at, EncodeInt(if value.Some? then value.value else junk));
    case Char =>
      StoreCell(buf, at, [s[0]]);
    case Str =>
      StorePadded(buf, at, s, a.size);
  }

  lemma IntCell(a: Attribute, s: Text, v: int)
    requires a.kind.Int? && IsInt32(v) && s == FormatInt(v)
    ensures Canonical(a, s) && ParseInt(s) == Some(v) && CellOf(a, s) == EncodeInt(v)
  {
    ParseFormatted(v);
    var w :| IsInt32(w) && s == FormatInt(w) && CellOf(a, s) == EncodeInt(w);
    ParseFormatted(w);
  }

  /** The text of a cell, without the separator that follows it. */
  function CellText(a: Attribute, c: Cell): Text
    requires |c| == Width(a)
  {
    match a.kind
    case Int => FormatInt(DecodeInt(c))
    case Double => []
    case Char => c
    case Str => c[..UpToNul(c)]
  }

  function UpToNul(c: Cell): (n: nat)
    ensures n <= |c|
  {
    if c == [] || c[0] == Nul then 0 else 1 + UpToNul(c[1..])
  }

  lemma {:induction false} NulBehind(s: Text, n: nat)
    requires Plain(s)
    ensures UpToNul(s + Zeros(n)) == |s|
  {
    if s != [] {
      assert (s + Zeros(n))[1..] == s[1..] + Zeros(n);
      NulBehind(s[1..], n);
    } else {
      assert s + Zeros(n) == Zeros(n);
    }
  }

  /** A canonical field survives the round trip through its cell. */
  lemma CellRoundTrip(a: Attribute, s: Text)
    requires Canonical(a, s)
    ensures CellText(a, CellOf(a, s)) == s
  {
    if a.kind.Int? {
      var v :| IsInt32(v) && s == FormatInt(v);
      IntCell(a, s, v);
      DecodeEncoded(v);
    } else if a.kind.Str? {
      NulBehind(s, a.size - |s|);
      assert (s + Zeros(a.size - |s|))[..|s|] == s;
    }
  }

  // ---- Lines ----

  ghost predicate CanonicalRow(schema: Schema, fields: seq<Text>) {
    |fields| == |schema| && forall j {:trigger Canonical(schema[j], fields[j])} :: 0 <= j < |schema| ==> Canonical(schema[j], fields[j])
  }

  /** The separator behind field `j`. */
  function Delimiter(n: nat, j: nat): Byte {
    if j + 1 == n then Newline else Comma
  }

  /** The text of the fields from `j` on. */
  function LineFrom(fields: seq<Text>, j: nat): Text
    requires j <= |fields|
    decreases |fields| - j
  {
    if j == |fields| then [] else fields[j] + ([Delimiter(|fields|, j)] + LineFrom(fields, j + 1))
  }

  function LineText(fields: seq<Text>): Text {
    LineFrom(fields, 0)
  }

  /** No separator in a canonical field. */
  lemma FieldClear(a: Attribute, s: Text)
    requires Canonical(a, s)
    ensures Comma !in s && Newline !in s
  {
    if a.kind.Int? {
      var v :| IsInt32(v) && s == FormatInt(v);
      assert AllDigits(DecimalText(if v < 0 then -v else v));
    }
  }

  /** The first occurrence of `c` from `start` on. */
  method StrChr(text: Text, start: nat, c: Byte, ghost field: Text) returns (p: nat)
    requires start + |field| < |text| && text[start..start + |field|] == field && text[start + |field|] == c && c !in field
    ensures p == start + |field|
  {
    p := start;
    assert forall x :: start <= x < start + |field| ==> text[x] == text[start..start + |field|][x - start];
    while text[p] != c
      invariant start <= p <= start + |field|
      invariant forall x :: p <= x < start + |field| ==> text[x] != c
      decreases start + |field| - p
    {
      p := p + 1;
    }
  }

  /** The text of the rest of the line stands at `p`. */
  ghost predicate LineAt(text: Text, p: nat, fields: seq<Text>, j: nat)
    requires j <= |fields|
    decreases |fields| - j
  {
    if j == |fields| then p <= |text|
    else
      var e := p + |fields[j]|;
      e < |text| && text[p..e] == fields[j] && text[e] == Delimiter(|fields|, j) && LineAt(text, e + 1, fields, j + 1)
  }

  /** Where field `j` of a line at `p` starts, and where the line ends. */
  ghost function FieldStart(p: nat, fields: seq<Text>, j: nat): nat
    requires j <= |fields|
  {
    if j == 0 then p else FieldStart(p, fields, j - 1) + |fields[j - 1]| + 1
  }

  lemma {:induction false} StartsOf(p: nat, fields: seq<Text>, j: nat)
    requires j <= |fields|
    ensures FieldStart(p, fields, j) + |LineFrom(fields, j)| == p + |LineText(fields)|
  {
    if j > 0 {
      StartsOf(p, fields, j - 1);
    }
  }

  lemma {:induction false} FieldsAt(text: Text, p: nat, fields: seq<Text>, j: nat)
    requires j <= |fields| && LineAt(text, p, fields, 0)
    ensures LineAt(text, FieldStart(p, fields, j), fields, j)
  {
    if j > 0 {
      FieldsAt(text, p, fields, j - 1);
    }
  }

  lemma {:induction false} LineIsAt(text: Text, p: nat, fields: seq<Text>, j: nat)
    requires j <= |fields| && p + |LineFrom(fields, j)| <= |text| && text[p..p + |LineFrom(fields, j)|] == LineFrom(fields, j)
    ensures LineAt(text, p, fields, j)
    decreases |fields| - j
  {
    if j < |fields| {
      SlicesOf(text, p, fields[j], Delimiter(|fields|, j), LineFrom(fields, j + 1));
      LineIsAt(text, p + |fields[j]| + 1, fields, j + 1);
    }
  }

  lemma SlicesOf(text: Text, p: nat, a: Text, c: Byte, b: Text)
    requires var t := a + ([c] + b);
             p + |t| <= |text| && text[p..p + |t|] == t
    ensures var e := p + |a|;
            e < |text| && text[p..e] == a && text[e] == c && text[e + 1..e + 1 + |b|] == b
  {
    var t, e := a + ([c] + b), p + |a|;
    assert text[p..e] == text[p..p + |t|][..|a|] == t[..|a|];
    assert text[e] == text[p..p + |t|][|a|];
    assert text[e + 1..e + 1 + |b|] == text[p..p + |t|][|a| + 1..] == t[|a| + 1..];
  }

  // ---- Tables ----

  ghost predicate CanonicalRows(schema: Schema, rows: seq<seq<Text>>) {
    forall i {:trigger CanonicalRow(schema, rows[i])} :: 0 <= i < |rows| ==> CanonicalRow(schema, rows[i])
  }

  /** Fields that can be told apart and fit into their cells. */
  ghost predicate Tokens(schema: Schema, fields: seq<Text>) {
    && |fields| == |schema|
    && forall j {:trigger Storable(schema[j], fields[j])} :: 0 <= j < |schema| ==>
         Storable(schema[j], fields[j]) && Delimiter(|schema|, j) !in fields[j]
  }

  /** The tuple the deserializers make of the fields. */
  ghost predicate EncodesRow(schema: Schema, fields: seq<Text>, t: Tuple, junk: int) {
    && Tokens(schema, fields) && |t| == |schema|
    && forall j {:trigger Storable(schema[j], fields[j])} :: 0 <= j < |schema| ==> t[j] == FieldCell(schema[j], fields[j], junk)
  }

  ghost predicate Encodes(schema: Schema, rows: seq<seq<Text>>, ts: seq<Tuple>, junk: int) {
    && |ts| == |rows|
    && forall i {:trigger EncodesRow(schema, rows[i], ts[i], junk)} :: 0 <= i < |rows| ==> EncodesRow(schema, rows[i], ts[i], junk)
  }

  lemma CanonicalTokens(schema: Schema, fields: seq<Text>)
    requires CanonicalRow(schema, fields)
    ensures Tokens(schema, fields)
  {
    forall j | 0 <= j < |schema|
      ensures Storable(schema[j], fields[j]) && Delimiter(|schema|, j) !in fields[j]
    {
      assert Canonical(schema[j], fields[j]);
      FieldClear(schema[j], fields[j]);
      CanonicalCell(schema[j], fields[j], 0);
    }
  }

  lemma TupleOf(schema: Schema, fields: seq<Text>, junk: int) returns (t: Tuple)
    requires Tokens(schema, fields)
    ensures EncodesRow(schema, fields, t, junk)
  {
    t := seq(|schema|, j requires 0 <= j < |schema| => assert Storable(schema[j], fields[j]); FieldCell(schema[j], fields[j], junk));
  }

  lemma {:induction false} TuplesOf(schema: Schema, rows: seq<seq<Text>>, junk: int) returns (ts: seq<Tuple>)
    requires forall i {:trigger Tokens(schema, rows[i])} :: 0 <= i < |rows| ==> Tokens(schema, rows[i])
    ensures Encodes(schema, rows, ts, junk)
  {
    ts := [];
    if rows != [] {
      var n := |rows| - 1;
      forall i | 0 <= i < n
        ensures Tokens(schema, rows[..n][i])
      {
        assert rows[..n][i] == rows[i] && Tokens(schema, rows[i]);
      }
      ts := TuplesOf(schema, rows[..n], junk);
      assert Tokens(schema, rows[n]);
      var t := TupleOf(schema, rows[n], junk);
      AllButLast(schema, rows, ts, t, junk);
      ts := ts + [t];
    }
  }

  lemma AllButLast(schema: Schema, rows: seq<seq<Text>>, ts: seq<Tuple>, t: Tuple, junk: int)
    requires rows != [] && Encodes(schema, rows[..|rows| - 1], ts, junk) && EncodesRow(schema, rows[|rows| - 1], t, junk)
    ensures Encodes(schema, rows, ts + [t], junk)
  {
    forall i | 0 <= i < |rows|
      ensures EncodesRow(schema, rows[i], (ts + [t])[i], junk)
    {
      if i < |ts| {
        assert EncodesRow(schema, rows[..|rows| - 1][i], ts[i], junk);
      }
    }
  }

  /** The lines of the rows from `i` on. */
  function LinesFrom(rows: seq<seq<Text>>, i: nat): Text
    requires i <= |rows|
    decreases |rows| - i
  {
    if i == |rows| then [] else LineText(rows[i]) + LinesFrom(rows, i + 1)
  }

  lemma TupleSized(schema: Schema, fields: seq<Text>, t: Tuple, junk: int)
    requires EncodesRow(schema, fields, t, junk)
    ensures WellSized(schema, t)
  {
    forall j | 0 <= j < |schema|
      ensures |t[j]| == Width(schema[j])
    {
      assert Storable(schema[j], fields[j]);
    }
  }

  lemma AllSized(schema: Schema, rows: seq<seq<Text>>, ts: seq<Tuple>, junk: int)
    requires Encodes(schema, rows, ts, junk)
    ensures AllWellSized(schema, ts)
  {
    forall i | 0 <= i < |ts|
      ensures WellSized(schema, ts[i])
    {
      assert EncodesRow(schema, rows[i], ts[i], junk);
      TupleSized(schema, rows[i], ts[i], junk);
    }
  }

  // ---- The server ----

  /** The bytes of `n` tuples. */
  ghost function RoomFor(schema: Schema, n: nat): nat {
    if n == 0 then 0 else RoomFor(schema, n - 1) + TupleSize(schema)
  }

  lemma {:induction false} RoomIsProduct(schema: Schema, n: nat)
    ensures RoomFor(schema, n) == n * TupleSize(schema)
  {
    if n > 0 {
      RoomIsProduct(schema, n - 1);
    }
  }

  /** Find the end of the next field and deserialize it into its place. */
  method NextField(text: Text, start: nat, buf: array<Byte>, base: nat, f: Layout.Format, schema: Schema, perBuffer: nat, i: nat, j: nat,
                   bytesInTuple: nat, junk: int, ghost offset: nat, ghost fields: seq<Text>, ghost ts: seq<Tuple>) returns (next: nat)
    requires Matching(schema) && AllWellSized(schema, ts) && i < |ts| <= perBuffer && j < |schema| && EncodesRow(schema, fields, ts[i], junk)
    requires base + RoomFor(schema, perBuffer) <= buf.Length && bytesInTuple == Before(schema, j)
    requires LineAt(text, offset, fields, 0) && start == FieldStart(offset, fields, j)
    requires Filled(buf[..], base, f, schema, perBuffer, ts, i, j)
    modifies buf
    ensures next == FieldStart(offset, fields, j + 1) && Filled(buf[..], base, f, schema, perBuffer, ts, i, j + 1)
  {
    var end := FindField(text, start, schema, j, offset, fields);
    PlaceField(buf, base, f, schema, perBuffer, i, j, bytesInTuple, text[start..end], junk, fields, ts);
    next := end + 1;
  }

  /** The field goes where the server computes its cell to be. */
  method PlaceField(buf: array<Byte>, base: nat, f: Layout.Format, schema: Schema, perBuffer: nat, i: nat, j: nat,
                    bytesInTuple: nat, field: Text, junk: int, ghost fields: seq<Text>, ghost ts: seq<Tuple>)
    requires Matching(schema) && AllWellSized(schema, ts) && i < |ts| <= perBuffer && j < |schema| && EncodesRow(schema, fields, ts[i], junk)
    requires base + RoomFor(schema, perBuffer) <= buf.Length && bytesInTuple == Before(schema, j)
    requires field == fields[j] && Filled(buf[..], base, f, schema, perBuffer, ts, i, j)
    modifies buf
    ensures Filled(buf[..], base, f, schema, perBuffer, ts, i, j + 1)
  {
    var address := CellAddress(f, TupleSize(schema), perBuffer, Width(schema[j]), i, bytesInTuple);
    RoomIsProduct(schema, perBuffer);
    CellFits(base, f, schema, perBuffer, ts, i, j, buf.Length);
    FilledStep(buf[..], base, f, schema, perBuffer, ts, i, j);
    assert Storable(schema[j], fields[j]);
    DeserializeInto(buf, base + address, schema[j], field, junk);
  }

  method FindField(text: Text, start: nat, schema: Schema, j: nat, ghost offset: nat, ghost fields: seq<Text>) returns (end: nat)
    requires Tokens(schema, fields) && j < |schema| && LineAt(text, offset, fields, 0) && start == FieldStart(offset, fields, j)
    ensures start <= end < |text| && text[start..end] == fields[j] && end + 1 == FieldStart(offset, fields, j + 1)
  {
    FieldsAt(text, offset, fields, j);
    assert Storable(schema[j], fields[j]);
    end := StrChr(text, start, if j < |schema| - 1 then Comma else Newline, fields[j]);
  }

  /** Tokenise a line and deserialize its fields. */
  method DeserializeLine(text: Text, offset: nat, buf: array<Byte>, base: nat, f: Layout.Format, schema: Schema, perBuffer: nat, i: nat,
                         junk: int, ghost fields: seq<Text>, ghost ts: seq<Tuple>) returns (next: nat)
    requires Matching(schema) && AllWellSized(schema, ts) && i < |ts| <= perBuffer && EncodesRow(schema, fields, ts[i], junk)
    requires base + RoomFor(schema, perBuffer) <= buf.Length
    requires LineAt(text, offset, fields, 0) && Filled(buf[..], base, f, schema, perBuffer, ts, i, 0)
    modifies buf
    ensures next == FieldStart(offset, fields, |fields|) && Filled(buf[..], base, f, schema, perBuffer, ts, i + 1, 0)
  {
    next := offset;
    var bytesInTuple: nat, j: nat := 0, 0;
    while j < |schema|
      invariant j <= |schema| && bytesInTuple == Before(schema, j) && next == FieldStart(offset, fields, j)
      invariant Filled(buf[..], base, f, schema, perBuffer, ts, i, j)
    {
      next := NextField(text, next, buf, base, f, schema, perBuffer, i, j, bytesInTuple, junk, offset, fields, ts);
      bytesInTuple := bytesInTuple + schema[j].size;
      j := j + 1;
    }
    RowFilled(buf[..], base, f, schema, perBuffer, ts, i);
  }

  lemma HeadLine(text: Text, p: nat, rows: seq<seq<Text>>, i: nat)
    requires i <= |rows| && p < |text| && text[p..] == LinesFrom(rows, i)
    ensures i < |rows| && LineAt(text, p, rows[i], 0) && FieldStart(p, rows[i], |rows[i]|) == p + |LineText(rows[i])|
    ensures p + |LineText(rows[i])| <= |text| && text[p + |LineText(rows[i])|..] == LinesFrom(rows, i + 1)
  {
    HeadOf(text, p, LineText(rows[i]), LinesFrom(rows, i + 1));
    LineIsAt(text, p, rows[i], 0);
    StartsOf(p, rows[i], |rows[i]|);
  }

  lemma HeadOf(text: Text, p: nat, a: Text, b: Text)
    requires p <= |text| && text[p..] == a + b
    ensures p + |a| <= |text| && text[p..p + |a|] == a && text[p + |a|..] == b
  {
    assert text[p..p + |a|] == text[p..][..|a|];
    assert text[p + |a|..] == text[p..][|a|..];
  }

  lemma LineNotEmpty(schema: Schema, fields: seq<Text>)
    requires |fields| == |schema| && schema != []
    ensures LineText(fields) != []
  {
  }
}
