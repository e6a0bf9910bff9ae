/** The client's CSV sink: from the cells of a buffer to lines in buffers of the pool.  How much goes into a
    buffer is decided with its nominal size and the longest possible line, and further buffers are taken by assigning
    to a reference to the first: both are modelled as they are. */
module CsvSink {
  import opened Powers
  import opened Words
  import opened Digits
  import opened Layout
  import opened TupleBuffer
  import opened RowCodec

  // ---- One cell ----

  method StrNLen(c: Cell) returns (n: nat)
    ensures n == UpToNul(c)
  {
    n := 0;
    assert c[0..] == c;
    while n < |c| && c[n] != Nul
      invariant n <= |c| && UpToNul(c) == n + UpToNul(c[n..])
    {
      assert c[n..][1..] == c[n + 1..];
      n := n + 1;
    }
  }

  lemma StoredBehind(s: seq<Byte>, at: nat, c: Cell, d: Byte)
    requires at + |c| + 1 <= |s|
    ensures Stored(Stored(s, at, c), at + |c|, [d]) == Stored(s, at, c + [d])
  {
  }

  method FormatCell(a: Attribute, c: Cell) returns (text: Text)
    requires |c| == Width(a) && !a.kind.Double?
    ensures text == CellText(a, c)
  {
    match a.kind
    case Int => text := FormatInt(DecodeInt(c));
    case Char => text := [c[0]];
    case Str =>
      var n := StrNLen(c);
      text := c[..n];
  }

  /** The serializer of the type writes a cell as text, and the separator behind it; `inside` is whether that
      stays within the buffer, and nothing is written here if it does not. */
  method SerializeInto(out: array<Byte>, at: nat, a: Attribute, c: Cell, delimiter: Byte) returns (n: nat, inside: bool)
    requires |c| == Width(a) && !a.kind.Double?
    modifies out
    ensures n == |CellText(a, c)| + 1 && (inside <==> at + n <= out.Length)
    ensures out[..] == if inside then Stored(old(out[..]), at, CellText(a, c) + [delimiter]) else old(out[..])
  {
    var text := FormatCell(a, c);
    n := |text| + 1;
    inside := at + n <= out.Length;
    if inside {
      StoredBehind(out[..], at, CellText(a, c), delimiter);
      StoreCell(out, at, text);
      StoreCell(out, at + |text|, [delimiter]);
    }
  }

  // ---- One tuple ----

  /** `done` stands at the start of the payload. */
  ghost predicate Written(s: seq<Byte>, base: nat, done: Text) {
    CellAt(s, base, done)
  }

  lemma WriteMore(s: seq<Byte>, base: nat, done: Text, c: Text)
    requires Written(s, base, done) && base + |done| + |c| <= |s|
    ensures Written(Stored(s, base + |done|, c), base, done + c)
  {
    var r := Stored(s, base + |done|, c);
    assert r[base..base + |done|] == s[base..base + |done|];
    assert r[base..base + |done| + |c|] == r[base..base + |done|] + c;
  }

  /** Read a cell where the client looks for it and write its text behind what is written already. */
  method SerializeCell(buf: array<Byte>, base: nat, f: Layout.Format, schema: Schema, perBuffer: nat, i: nat, j: nat, out: array<Byte>,
                       header: nat, written: nat, ghost fields: seq<Text>, ghost ts: seq<Tuple>, ghost junk: int, ghost done: Text)
    returns (n: nat, inside: bool)
    requires Matching(schema) && AllWellSized(schema, ts) && i < |ts| && EncodesRow(schema, fields, ts[i], junk) && CanonicalRow(schema, fields) && j < |schema| && buf != out
    requires Filled(buf[..], base, f, schema, perBuffer, ts, |ts|, 0)
    requires Written(out[..], header, done) && written == |done|
    modifies out
    ensures n == |fields[j]| + 1 && (inside <==> header + written + n <= out.Length)
    ensures inside ==> Written(out[..], header, done + (fields[j] + [Delimiter(|schema|, j)]))
  {
    var c := LoadCell(buf, base, f, schema, perBuffer, i, j, ts);
    assert Canonical(schema[j], fields[j]) && Storable(schema[j], fields[j]);
    CanonicalCell(schema[j], fields[j], junk);
    CellRoundTrip(schema[j], fields[j]);
    ghost var before, text := out[..], fields[j] + [Delimiter(|schema|, j)];
    n, inside := SerializeInto(out, header + written, schema[j], c, Delimiter(|schema|, j));
    if inside {
      WriteMore(before, header, done, text);
    }
  }

  /** The first `j` fields of a line with their separators. */
  function LineTo(fields: seq<Text>, j: nat): Text
    requires j <= |fields|
  {
    if j == 0 then [] else LineTo(fields, j - 1) + (fields[j - 1] + [Delimiter(|fields|, j - 1)])
  }

  lemma Joined(a: Text, b: Text, c: Text)
    ensures (a + b) + c == a + (b + c)
  {
  }

  lemma {:induction false} LineSame(fields: seq<Text>, j: nat)
    requires j <= |fields|
    ensures LineTo(fields, j) + LineFrom(fields, j) == LineText(fields)
  {
    if j > 0 {
      LineSame(fields, j - 1);
      var d := [Delimiter(|fields|, j - 1)];
      Joined(fields[j - 1], d, LineFrom(fields, j));
      Joined(LineTo(fields, j - 1), fields[j - 1] + d, LineFrom(fields, j));
    }
  }

  lemma LineShort(fields: seq<Text>, j: nat)
    requires j <= |fields|
    ensures |LineTo(fields, j)| <= |LineText(fields)|
  {
    LineSame(fields, j);
  }

  lemma WholeLine(fields: seq<Text>)
    ensures LineTo(fields, |fields|) == LineText(fields)
  {
    LineSame(fields, |fields|);
    assert LineTo(fields, |fields|) + [] == LineTo(fields, |fields|);
  }

  /** The first `j` fields of a line stand behind `done`. */
  ghost predicate Underway(s: seq<Byte>, header: nat, done: Text, schema: Schema, fields: seq<Text>, j: nat, written: nat) {
    && |fields| == |schema| && j <= |schema| && Written(s, header, done + LineTo(fields, j))
    && written == |done| + |LineTo(fields, j)|
  }

  lemma LineStarts(s: seq<Byte>, header: nat, done: Text, schema: Schema, fields: seq<Text>)
    requires CanonicalRow(schema, fields) && Written(s, header, done)
    ensures Underway(s, header, done, schema, fields, 0, |done|)
  {
    assert done + [] == done;
  }

  lemma LineEnds(s: seq<Byte>, header: nat, done: Text, schema: Schema, fields: seq<Text>, written: nat)
    requires Underway(s, header, done, schema, fields, |schema|, written)
    ensures Written(s, header, done + LineText(fields)) && written == |done| + |LineText(fields)|
    ensures header + written <= |s|
  {
    WholeLine(fields);
  }

  method SerializeNext(buf: array<Byte>, base: nat, f: Layout.Format, schema: Schema, perBuffer: nat, i: nat, j: nat, out: array<Byte>,
                       header: nat, before: nat, ghost fields: seq<Text>, ghost ts: seq<Tuple>, ghost junk: int, ghost done: Text)
    returns (written: nat, inside: bool)
    requires Matching(schema) && AllWellSized(schema, ts) && i < |ts| && EncodesRow(schema, fields, ts[i], junk) && CanonicalRow(schema, fields) && j < |schema| && buf != out
    requires Filled(buf[..], base, f, schema, perBuffer, ts, |ts|, 0)
    requires Underway(out[..], header, done, schema, fields, j, before)
    modifies out
    ensures inside ==> Underway(out[..], header, done, schema, fields, j + 1, written)
    ensures inside <==> header + |done| + |LineTo(fields, j + 1)| <= out.Length
  {
    Joined(done, LineTo(fields, j), fields[j] + [Delimiter(|schema|, j)]);
    var n;
    n, inside := SerializeCell(buf, base, f, schema, perBuffer, i, j, out, header, before, fields, ts, junk, done + LineTo(fields, j));
    written := before + n;
  }

  /** One tuple as a line, unless a field of it leaves the buffer. */
  method SerializeTuple(buf: array<Byte>, base: nat, f: Layout.Format, schema: Schema, perBuffer: nat, i: nat, out: array<Byte>,
                        header: nat, start: nat, ghost fields: seq<Text>, ghost ts: seq<Tuple>, ghost junk: int, ghost done: Text)
    returns (written: nat, inside: bool)
    requires Matching(schema) && AllWellSized(schema, ts) && i < |ts| && EncodesRow(schema, fields, ts[i], junk) && CanonicalRow(schema, fields) && buf != out
    requires Filled(buf[..], base, f, schema, perBuffer, ts, |ts|, 0)
    requires Written(out[..], header, done) && start == |done|
    modifies out
    ensures inside <==> header + start + |LineText(fields)| <= out.Length
    ensures inside ==> written == start + |LineText(fields)| && Written(out[..], header, done + LineText(fields))
  {
    ghost var cells := buf[..];
    LineStarts(out[..], header, done, schema, fields);
    written, inside := start, true;
    var j: nat := 0;
    while j < |schema|
      invariant j <= |schema| && inside && buf[..] == cells && Underway(out[..], header, done, schema, fields, j, written)
    {
      LineShort(fields, j + 1);
      written, inside := SerializeNext(buf, base, f, schema, perBuffer, i, j, out, header, written, fields, ts, junk, done);
      if !inside {
        return;
      }
      j := j + 1;
    }
    LineEnds(out[..], header, done, schema, fields, written);
  }

  // ---- How much goes into a buffer ----

  /** The most a field can take up in the text, separator included. */
  function MaxText(a: Attribute): nat {
    match a.kind
    case Int => 12
    case Double => 24
    case Char => 2
    case Str => a.size + 1
  }

  lemma {:induction false} FewDigits(n: nat, k: nat)
    requires n < Pow(10, k) && k >= 1
    ensures |DecimalText(n)| <= k
  {
    if n >= 10 {
      FewDigits(n / 10, k - 1);
    }
  }

  lemma FieldWithin(a: Attribute, s: Text)
    requires Canonical(a, s)
    ensures |s| + 1 <= MaxText(a)
  {
    if a.kind.Int? {
      var v :| IsInt32(v) && s == FormatInt(v);
      TenDigits();
      FewDigits(if v < 0 then -v else v, 10);
    }
  }

  lemma TenDigits()
    ensures Pow(10, 10) == 10_000_000_000
  {
    assert Pow(10, 5) == 100_000;
    PowAdd(10, 5, 5);
  }


  /** The most the first `j` attributes can take up in the text. */
  function MaxTo(schema: Schema, j: nat): nat
    requires j <= |schema|
  {
    if j == 0 then 0 else MaxTo(schema, j - 1) + MaxText(schema[j - 1])
  }

  function MaxTuple(schema: Schema): nat {
    MaxTo(schema, |schema|)
  }

  lemma {:induction false} LineToWithin(schema: Schema, fields: seq<Text>, j: nat)
    requires CanonicalRow(schema, fields) && j <= |schema|
    ensures |LineTo(fields, j)| <= MaxTo(schema, j)
  {
    if j > 0 {
      LineToWithin(schema, fields, j - 1);
      assert Canonical(schema[j - 1], fields[j - 1]);
      FieldWithin(schema[j - 1], fields[j - 1]);
    }
  }

  /** The size the sink reckons with is really the longest. */
  lemma LineWithin(schema: Schema, fields: seq<Text>)
    requires CanonicalRow(schema, fields)
    ensures |LineText(fields)| <= MaxTuple(schema)
  {
    LineToWithin(schema, fields, |schema|);
    WholeLine(fields);
  }

  /** A field of greatest length. */
  lemma LongestField(a: Attribute) returns (s: Text)
    requires !a.kind.Double?
    ensures Canonical(a, s) && |s| + 1 == MaxText(a)
  {
    match a.kind {
      case Int =>
        s := FormatInt(-0x8000_0000);
        assert IsInt32(-0x8000_0000);
        TenDigitsLong();
      case Char => s := [0x61];
      case Str => s := seq(a.size, i => 0x61);
    }
  }

  lemma {:induction false} ManyDigits(n: nat, k: nat)
    requires Pow(10, k) <= n
    ensures |DecimalText(n)| > k
  {
    if k > 0 {
      ManyDigits(n / 10, k - 1);
    }
  }

  lemma TenDigitsLong()
    ensures |DecimalText(0x8000_0000)| == 10
  {
    TenDigits();
    FewDigits(0x8000_0000, 10);
    assert Pow(10, 4) == 10_000;
    PowAdd(10, 4, 5);
    assert Pow(10, 5) == 100_000;
    ManyDigits(0x8000_0000, 9);
  }

  /** No smaller size would do: for every schema without doubles some line is as long as the sink reckons with. */
  lemma {:induction false} LongestLine(schema: Schema, j: nat) returns (fields: seq<Text>)
    requires j <= |schema| && forall i :: 0 <= i < |schema| ==> !schema[i].kind.Double?
    ensures |fields| == j && LengthTo(fields, j) == MaxTo(schema, j)
    ensures forall i {:trigger Canonical(schema[i], fields[i])} :: 0 <= i < j ==> Canonical(schema[i], fields[i])
  {
    fields := [];
    if j > 0 {
      var front := LongestLine(schema, j - 1);
      var s := LongestField(schema[j - 1]);
      fields := front + [s];
      SameLength(front, s, j - 1);
    }
  }

  /** The length of the first `j` fields with their separators. */
  function LengthTo(fields: seq<Text>, j: nat): nat
    requires j <= |fields|
  {
    if j == 0 then 0 else LengthTo(fields, j - 1) + |fields[j - 1]| + 1
  }

  lemma {:induction false} SameLength(front: seq<Text>, s: Text, j: nat)
    requires j <= |front|
    ensures LengthTo(front + [s], j) == LengthTo(front, j)
  {
    if j > 0 {
      SameLength(front, s, j - 1);
    }
  }

  lemma {:induction false} LengthIs(fields: seq<Text>, j: nat)
    requires j <= |fields|
    ensures |LineTo(fields, j)| == LengthTo(fields, j)
  {
    if j > 0 {
      LengthIs(fields, j - 1);
    }
  }

  lemma MaxIsAttained(schema: Schema) returns (fields: seq<Text>)
    requires forall i :: 0 <= i < |schema| ==> !schema[i].kind.Double?
    ensures CanonicalRow(schema, fields) && |LineText(fields)| == MaxTuple(schema)
  {
    fields := LongestLine(schema, |schema|);
    LengthIs(fields, |schema|);
    WholeLine(fields);
  }

  /** The lines from `a` up to `b`. */
  function LinesBetween(rows: seq<seq<Text>>, a: nat, b: nat): Text
    requires a <= b <= |rows|
  {
    if a == b then [] else LinesBetween(rows, a, b - 1) + LineText(rows[b - 1])
  }

  /** The first line in the current buffer when `k` have been written.  A buffer is full when the longest possible
      line might go beyond `limit`, its nominal size. */
  function Front(rows: seq<seq<Text>>, max: nat, limit: nat, k: nat): (a: nat)
    requires k <= |rows|
    ensures a <= k && (k > 0 ==> a < k)
    decreases k, 0
  {
    if k == 0 then 0
    else if FullAt(rows, max, limit, k - 1) then k - 1
    else Front(rows, max, limit, k - 1)
  }

  /** The current buffer is full after `k` lines. */
  predicate FullAt(rows: seq<seq<Text>>, max: nat, limit: nat, k: nat)
    requires k <= |rows|
    decreases k, 1
  {
    |LinesBetween(rows, Front(rows, max, limit, k), k)| + max > limit
  }

  /** How many further buffers the first `k` lines have taken. */
  function Further(rows: seq<seq<Text>>, max: nat, limit: nat, k: nat): (n: nat)
    requires k <= |rows|
    ensures n <= k
  {
    if k == 0 then 0 else Further(rows, max, limit, k - 1) + if FullAt(rows, max, limit, k - 1) then 1 else 0
  }

  /** Line `k` goes beyond the end of its buffer, which has this room. */
  predicate OverrunsAt(rows: seq<seq<Text>>, max: nat, limit: nat, room: nat, k: nat)
    requires k < |rows|
  {
    |LinesBetween(rows, Front(rows, max, limit, k + 1), k + 1)| > room
  }

  predicate Overruns(rows: seq<seq<Text>>, max: nat, limit: nat, room: nat) {
    exists k :: 0 <= k < |rows| && OverrunsAt(rows, max, limit, room, k)
  }

  /** What the first buffer holds in the end: the last lines only, where a further one was taken. */
  function Kept(rows: seq<seq<Text>>, max: nat, limit: nat): Text {
    LinesBetween(rows, Front(rows, max, limit, |rows|), |rows|)
  }

  /** After every line but the last there is room for the longest possible one: one buffer is enough. */
  ghost predicate OneBuffer(rows: seq<seq<Text>>, max: nat, limit: nat, k: nat)
    requires k <= |rows|
  {
    forall i {:trigger LinesBetween(rows, 0, i)} :: 0 < i < k ==> |LinesBetween(rows, 0, i)| + max <= limit
  }

  /** As long as no further buffer is taken, it is all lines. */
  lemma {:induction false} FrontStays(rows: seq<seq<Text>>, max: nat, limit: nat, k: nat)
    requires k <= |rows|
    ensures Front(rows, max, limit, k) == 0 <==> OneBuffer(rows, max, limit, k)
  {
    if k > 0 {
      FrontStays(rows, max, limit, k - 1);
      if k > 1 {
        assert FullAt(rows, max, limit, k - 1) && Front(rows, max, limit, k - 1) == 0 ==> |LinesBetween(rows, 0, k - 1)| + max > limit;
      }
    }
  }

  lemma {:induction false} Between(rows: seq<seq<Text>>, a: nat, k: nat)
    requires a <= k <= |rows|
    ensures LinesBetween(rows, 0, k) == LinesBetween(rows, 0, a) + LinesBetween(rows, a, k)
  {
    if a < k {
      Between(rows, a, k - 1);
      Joined(LinesBetween(rows, 0, a), LinesBetween(rows, a, k - 1), LineText(rows[k - 1]));
    }
  }

  /** What the first buffer holds is the end of the text, and it is the whole text if and only if one buffer was
      enough. */
  lemma KeptIsAll(schema: Schema, rows: seq<seq<Text>>, limit: nat)
    requires schema != [] && CanonicalRows(schema, rows)
    ensures var text, kept := LinesBetween(rows, 0, |rows|), Kept(rows, MaxTuple(schema), limit);
            && |kept| <= |text| && text[|text| - |kept|..] == kept
            && (kept == text <==> |kept| == |text|)
            && (kept == text <==> OneBuffer(rows, MaxTuple(schema), limit, |rows|))
  {
    var a := Front(rows, MaxTuple(schema), limit, |rows|);
    Between(rows, a, |rows|);
    FrontStays(rows, MaxTuple(schema), limit, |rows|);
    if a > 0 {
      assert CanonicalRow(schema, rows[a - 1]);
      SomethingHeld(schema, rows, 0, a);
    }
  }

  /** Where the first buffer is left. */
  lemma OverrunsFirst(rows: seq<seq<Text>>, max: nat, limit: nat, room: nat, k: nat)
    requires k < |rows| && max <= limit && OneBuffer(rows, max, limit, k + 1)
    ensures OverrunsAt(rows, max, limit, room, k) <==> |LinesBetween(rows, 0, k + 1)| > room
  {
    FrontStays(rows, max, limit, k + 1);
  }

  /** A buffer with all of its nominal size is never left, unless one line may be too long for it. */
  lemma RoomyNeverOverruns(schema: Schema, rows: seq<seq<Text>>, limit: nat, room: nat)
    requires CanonicalRows(schema, rows) && MaxTuple(schema) <= limit <= room
    ensures !Overruns(rows, MaxTuple(schema), limit, room)
  {
    forall k | 0 <= k < |rows|
      ensures !OverrunsAt(rows, MaxTuple(schema), limit, room, k)
    {
      assert CanonicalRow(schema, rows[k]);
      LineWithin(schema, rows[k]);
      var a := Front(rows, MaxTuple(schema), limit, k + 1);
      HoldsMore(rows, a, k);
      assert a == k || !FullAt(rows, MaxTuple(schema), limit, k);
    }
  }

  /** How many tuples a buffer takes. */
  function PerBuffer(schema: Schema, limit: nat): nat
    requires TupleSize(schema) >= 1
  {
    limit / TupleSize(schema)
  }

  /** As many as there is room for. */
  lemma PerBufferIsMost(schema: Schema, limit: nat, n: nat)
    requires TupleSize(schema) >= 1
    ensures n * TupleSize(schema) <= limit <==> n <= PerBuffer(schema, limit)
  {
    var size, q := TupleSize(schema), PerBuffer(schema, limit);
    assert limit == size * q + limit % size;
    if n <= q {
      MulLeft(n, q, size);
    } else {
      MulLeft(q + 1, n, size);
      OneMore(q, size);
    }
  }

  /** The payload of a pool buffer: room for whole tuples. */
  function Room(schema: Schema, limit: nat): nat
    requires TupleSize(schema) >= 1
  {
    PerBuffer(schema, limit) * TupleSize(schema)
  }

  /** It has its nominal size if the size of a tuple divides that. */
  lemma DividedNeverOverruns(schema: Schema, rows: seq<seq<Text>>, limit: nat)
    requires CanonicalRows(schema, rows) && MaxTuple(schema) <= limit && TupleSize(schema) >= 1 && limit % TupleSize(schema) == 0
    ensures !Overruns(rows, MaxTuple(schema), limit, Room(schema, limit))
  {
    WholeRoom(limit, TupleSize(schema));
    RoomyNeverOverruns(schema, rows, limit, Room(schema, limit));
  }

  lemma WholeRoom(limit: nat, size: nat)
    requires size >= 1 && limit % size == 0
    ensures (limit / size) * size == limit
  {
    assert limit == size * (limit / size) + limit % size;
  }

  /** A text of 600 characters in a buffer of 1 KiB goes beyond its end. */
  lemma LongLineOverruns() returns (schema: Schema, rows: seq<seq<Text>>)
    ensures CanonicalRows(schema, rows) && |rows| == 1 && TupleSize(schema) == 600 && MaxTuple(schema) == 601
    ensures Overruns(rows, MaxTuple(schema), 1024, Room(schema, 1024))
  {
    schema := [Attribute(Str, 600)];
    var field := seq(600, i => 0x61);
    rows := [[field]];
    assert Canonical(schema[0], rows[0][0]);
    assert Before(schema, 1) == 600 && MaxTo(schema, 1) == 601;
    assert LineFrom(rows[0], 0) == field + ([Newline] + LineFrom(rows[0], 1));
    assert |LinesBetween(rows, 0, 1)| == 601;
    assert OverrunsAt(rows, 601, 1024, 600, 0);
  }

  // ---- The pool ----

  /** A buffer of the client's pool, with the payload size from its header. */
  class PoolBuffer {
    var totalSize: nat
    const bytes: array<Byte>

    constructor (size: nat)
      ensures fresh(bytes) && bytes.Length == size && totalSize == 0
    {
      bytes := new Byte[size];
      totalSize := 0;
    }

    /** Assignment of a `std::vector` copies its elements, here header and payload. */
    method Assign(from: PoolBuffer)
      requires from.bytes.Length == bytes.Length
      modifies this, bytes
      ensures totalSize == old(from.totalSize) && bytes[..] == old(from.bytes[..])
    {
      totalSize := from.totalSize;
      forall i | 0 <= i < bytes.Length {
        bytes[i] := from.bytes[i];
      }
    }
  }

  /** Different buffers of one size. */
  ghost predicate IsPool(pool: seq<PoolBuffer>, size: nat) {
    && (forall i :: 0 <= i < |pool| ==> pool[i].bytes.Length == size)
    && forall i, j :: 0 <= i < j < |pool| ==> pool[i] != pool[j] && pool[i].bytes != pool[j].bytes
  }

  ghost predicate IdsBelow(ids: seq<nat>, n: nat) {
    forall k :: 0 <= k < |ids| ==> ids[k] < n
  }

  // ---- The sink's loop ----

  /** Lines `a` to `k` stand at the start of the payload. */
  ghost predicate Holding(s: seq<Byte>, header: nat, rows: seq<seq<Text>>, a: nat, k: nat, written: nat) {
    a <= k <= |rows| && written == |LinesBetween(rows, a, k)| && Written(s, header, LinesBetween(rows, a, k))
  }

  /** Before line `k`: if the buffer is full it is pushed, and a further one is fetched and assigned to the
      reference to the first. */
  method MakeRoom(pool: seq<PoolBuffer>, free: seq<nat>, out: PoolBuffer, size: nat, header: nat, limit: nat, max: nat, k: nat,
                  pushed0: seq<nat>, id0: nat, written0: nat, ghost rows: seq<seq<Text>>) returns (pushed: seq<nat>, id: nat, written: nat)
    requires IsPool(pool, size) && IdsBelow(free, |pool|) && out.bytes.Length == size && header <= size && k < |rows| < |free|
    requires Holding(out.bytes[..], header, rows, Front(rows, max, limit, k), k, written0)
    requires pushed0 == free[..Further(rows, max, limit, k)] && id0 == free[Further(rows, max, limit, k)]
    modifies out, out.bytes
    ensures Holding(out.bytes[..], header, rows, Front(rows, max, limit, k + 1), k, written)
    ensures pushed == free[..Further(rows, max, limit, k + 1)] && id == free[Further(rows, max, limit, k + 1)]
  {
    pushed, id, written := pushed0, id0, written0;
    if written + max > limit {
      out.totalSize := written;
      pushed := pushed + [id];
      id := free[|pushed|];
      out.Assign(pool[id]);
      written := 0;
    }
  }

  lemma HoldsMore(rows: seq<seq<Text>>, a: nat, k: nat)
    requires a <= k < |rows|
    ensures LinesBetween(rows, a, k + 1) == LinesBetween(rows, a, k) + LineText(rows[k])
  {
  }

  lemma SomethingHeld(schema: Schema, rows: seq<seq<Text>>, a: nat, k: nat)
    requires schema != [] && a < k <= |rows| && CanonicalRow(schema, rows[k - 1])
    ensures LinesBetween(rows, a, k) != []
  {
    LineNotEmpty(schema, rows[k - 1]);
  }

  /** The tuples of one input buffer.  `free` are the ids in the order in which they are taken. */
  method SerializeTuples(buf: array<Byte>, base: nat, f: Layout.Format, schema: Schema, perBuffer: nat, pool: seq<PoolBuffer>, free: seq<nat>,
                         size: nat, header: nat, limit: nat, total: nat, ghost rows: seq<seq<Text>>, ghost ts: seq<Tuple>, ghost junk: int)
    returns (pushed: seq<nat>, inside: bool)
    requires Matching(schema) && schema != [] && Encodes(schema, rows, ts, junk) && CanonicalRows(schema, rows) && total == |rows|
    requires Filled(buf[..], base, f, schema, perBuffer, ts, |ts|, 0)
    requires IsPool(pool, size) && IdsBelow(free, |pool|) && |rows| < |free| && header <= size && buf != pool[free[0]].bytes
    modifies pool[free[0]], pool[free[0]].bytes
    ensures inside <==> !Overruns(rows, MaxTuple(schema), limit, size - header)
    ensures inside ==> pushed == free[..if rows == [] then 0 else Further(rows, MaxTuple(schema), limit, |rows|) + 1]
    ensures inside && rows != [] ==> var text := Kept(rows, MaxTuple(schema), limit);
                                     pool[free[0]].totalSize == |text| && Written(pool[free[0]].bytes[..], header, text)
  {
    var out, max := pool[free[0]], MaxTuple(schema);
    ghost var room := size - header;
    var id, written: nat, i: nat := free[0], 0, 0;
    pushed, inside := [], true;
    ghost var cells := buf[..];
    AllSized(schema, rows, ts, junk);
    while i < total
      invariant i <= |rows| && inside && buf[..] == cells
      invariant Holding(out.bytes[..], header, rows, Front(rows, max, limit, i), i, written)
      invariant pushed == free[..Further(rows, max, limit, i)] && id == free[Further(rows, max, limit, i)]
      invariant forall k :: 0 <= k < i ==> !OverrunsAt(rows, max, limit, room, k)
    {
      assert EncodesRow(schema, rows[i], ts[i], junk) && CanonicalRow(schema, rows[i]);
      pushed, id, written := MakeRoom(pool, free, out, size, header, limit, max, i, pushed, id, written, rows);
      ghost var a := Front(rows, max, limit, i + 1);
      HoldsMore(rows, a, i);
      written, inside := SerializeTuple(buf, base, f, schema, perBuffer, i, out.bytes, header, written, rows[i], ts, junk, LinesBetween(rows, a, i));
      if !inside {
        assert OverrunsAt(rows, max, limit, room, i);
        return;
      }
      i := i + 1;
    }
    if i > 0 {
      assert CanonicalRow(schema, rows[i - 1]);
      SomethingHeld(schema, rows, Front(rows, max, limit, i), i);
    }
    if written > 0 {
      out.totalSize := written;
      pushed := pushed + [id];
    }
  }
}
