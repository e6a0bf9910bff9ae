/** Writing tuples into a buffer at the server's addresses and reading them at the client's. */
module TupleBuffer {
  import opened Words
  import opened Layout

  type Cell = seq<Byte>
  type Tuple = seq<Cell>

  predicate WellSized(schema: Schema, t: Tuple) {
    |t| == |schema| && forall j :: 0 <= j < |schema| ==> |t[j]| == Width(schema[j])
  }

  predicate AllWellSized(schema: Schema, ts: seq<Tuple>) {
    forall i {:trigger WellSized(schema, ts[i])} :: 0 <= i < |ts| ==> WellSized(schema, ts[i])
  }

  // ---- Bytes at a place ----

  predicate CellAt(s: seq<Byte>, at: nat, c: Cell) {
    at + |c| <= |s| && s[at..at + |c|] == c
  }

  function Stored(s: seq<Byte>, at: nat, c: Cell): (r: seq<Byte>)
    requires at + |c| <= |s|
    ensures |r| == |s|
  {
    s[..at] + c + s[at + |c|..]
  }

  lemma StoredHas(s: seq<Byte>, at: nat, c: Cell)
    requires at + |c| <= |s|
    ensures CellAt(Stored(s, at, c), at, c)
  {
  }

  /** Cells elsewhere stay as they are. */
  lemma StoredKeeps(s: seq<Byte>, at: nat, c: Cell, at': nat, c': Cell)
    requires at + |c| <= |s| && CellAt(s, at', c') && (at + |c| <= at' || at' + |c'| <= at)
    ensures CellAt(Stored(s, at, c), at', c')
  {
    var r := Stored(s, at, c);
    forall k | 0 <= k < |c'|
      ensures r[at' + k] == c'[k]
    {
      assert s[at'..at' + |c'|][k] == c'[k];
    }
  }

  method StoreCell(buf: array<Byte>, at: nat, c: Cell)
    requires at + |c| <= buf.Length
    modifies buf
    ensures buf[..] == Stored(old(buf[..]), at, c)
  {
    var k: nat := 0;
    while k < |c|
      invariant k <= |c|
      invariant forall x :: 0 <= x < buf.Length ==> buf[x] == if at <= x < at + k then c[x - at] else old(buf[x])
    {
      buf[at + k] := c[k];
      k := k + 1;
    }
  }

  // ---- The server ----

  /** All cells before cell `j` of tuple `i` are in place. */
  ghost predicate Filled(s: seq<Byte>, base: nat, f: Format, schema: Schema, perBuffer: nat, ts: seq<Tuple>, i: nat, j: nat) {
    forall a, b {:trigger ServerAddress(f, schema, perBuffer, a, b)} ::
      0 <= a < |ts| && |ts[a]| == |schema| && 0 <= b < |schema| && (a < i || (a == i && b < j)) ==>
      CellAt(s, base + ServerAddress(f, schema, perBuffer, a, b), ts[a][b])
  }

  lemma FilledStep(s: seq<Byte>, base: nat, f: Format, schema: Schema, perBuffer: nat, ts: seq<Tuple>, i: nat, j: nat)
    requires Matching(schema) && AllWellSized(schema, ts) && |ts| <= perBuffer && i < |ts| && j < |schema| && |ts[i]| == |schema|
    requires Filled(s, base, f, schema, perBuffer, ts, i, j)
    requires base + ServerAddress(f, schema, perBuffer, i, j) + |ts[i][j]| <= |s|
    ensures Filled(Stored(s, base + ServerAddress(f, schema, perBuffer, i, j), ts[i][j]), base, f, schema, perBuffer, ts, i, j + 1)
  {
    var at := base + ServerAddress(f, schema, perBuffer, i, j);
    var s' := Stored(s, at, ts[i][j]);
    forall a, b | 0 <= a < |ts| && |ts[a]| == |schema| && 0 <= b < |schema| && (a < i || (a == i && b < j + 1))
      ensures CellAt(s', base + ServerAddress(f, schema, perBuffer, a, b), ts[a][b])
    {
      assert WellSized(schema, ts[a]) && WellSized(schema, ts[i]);
      if a == i && b == j {
        StoredHas(s, at, ts[i][j]);
      } else {
        assert CellAt(s, base + ServerAddress(f, schema, perBuffer, a, b), ts[a][b]);
        OtherKept(s, base, f, schema, perBuffer, i, j, ts[i][j], a, b, ts[a][b]);
      }
    }
  }

  lemma OtherKept(s: seq<Byte>, base: nat, f: Format, schema: Schema, perBuffer: nat, i: nat, j: nat, c: Cell, a: nat, b: nat, d: Cell)
    requires Matching(schema) && i < perBuffer && a < perBuffer && j < |schema| && b < |schema| && (a != i || b != j)
    requires |c| == Width(schema[j]) && |d| == Width(schema[b])
    requires base + ServerAddress(f, schema, perBuffer, i, j) + |c| <= |s|
    requires CellAt(s, base + ServerAddress(f, schema, perBuffer, a, b), d)
    ensures CellAt(Stored(s, base + ServerAddress(f, schema, perBuffer, i, j), c), base + ServerAddress(f, schema, perBuffer, a, b), d)
  {
    CellsApart(f, schema, perBuffer, i, j, a, b);
    StoredKeeps(s, base + ServerAddress(f, schema, perBuffer, i, j), c, base + ServerAddress(f, schema, perBuffer, a, b), d);
  }

  lemma CellFits(base: nat, f: Format, schema: Schema, perBuffer: nat, ts: seq<Tuple>, i: nat, j: nat, length: nat)
    requires Matching(schema) && AllWellSized(schema, ts) && i < |ts| <= perBuffer && j < |schema|
    requires base + perBuffer * TupleSize(schema) <= length
    ensures |ts[i]| == |schema| && base + ServerAddress(f, schema, perBuffer, i, j) + |ts[i][j]| <= length
  {
    assert WellSized(schema, ts[i]);
    CellInside(f, schema, perBuffer, |ts|, i, j);
  }

  /** One cell, with `bytesInTuple` bytes of the tuple before it. */
  method StoreNext(buf: array<Byte>, base: nat, f: Format, schema: Schema, perBuffer: nat, ts: seq<Tuple>, i: nat, j: nat, bytesInTuple: nat)
    requires Matching(schema) && AllWellSized(schema, ts) && i < |ts| <= perBuffer && j < |schema|
    requires base + perBuffer * TupleSize(schema) <= buf.Length && bytesInTuple == Before(schema, j)
    requires Filled(buf[..], base, f, schema, perBuffer, ts, i, j)
    modifies buf
    ensures Filled(buf[..], base, f, schema, perBuffer, ts, i, j + 1)
  {
    var address := CellAddress(f, TupleSize(schema), perBuffer, Width(schema[j]), i, bytesInTuple);
    CellFits(base, f, schema, perBuffer, ts, i, j, buf.Length);
    FilledStep(buf[..], base, f, schema, perBuffer, ts, i, j);
    StoreCell(buf, base + address, ts[i][j]);
  }

  /** The cells of one tuple; `bytesInTuple` runs along. */
  method StoreTuple(buf: array<Byte>, base: nat, f: Format, schema: Schema, perBuffer: nat, ts: seq<Tuple>, i: nat)
    requires Matching(schema) && AllWellSized(schema, ts) && i < |ts| <= perBuffer
    requires base + perBuffer * TupleSize(schema) <= buf.Length
    requires Filled(buf[..], base, f, schema, perBuffer, ts, i, 0)
    modifies buf
    ensures Filled(buf[..], base, f, schema, perBuffer, ts, i + 1, 0)
  {
    var bytesInTuple: nat, j: nat := 0, 0;
    while j < |schema|
      invariant j <= |schema| && bytesInTuple == Before(schema, j)
      invariant Filled(buf[..], base, f, schema, perBuffer, ts, i, j)
    {
      StoreNext(buf, base, f, schema, perBuffer, ts, i, j, bytesInTuple);
      bytesInTuple := bytesInTuple + schema[j].size;
      j := j + 1;
    }
    RowFilled(buf[..], base, f, schema, perBuffer, ts, i);
  }

  lemma RowFilled(s: seq<Byte>, base: nat, f: Format, schema: Schema, perBuffer: nat, ts: seq<Tuple>, i: nat)
    ensures Filled(s, base, f, schema, perBuffer, ts, i, |schema|) <==> Filled(s, base, f, schema, perBuffer, ts, i + 1, 0)
  {
  }

  method StoreTuples(buf: array<Byte>, base: nat, f: Format, schema: Schema, perBuffer: nat, ts: seq<Tuple>)
    requires Matching(schema) && AllWellSized(schema, ts) && |ts| <= perBuffer
    requires base + perBuffer * TupleSize(schema) <= buf.Length
    modifies buf
    ensures Filled(buf[..], base, f, schema, perBuffer, ts, |ts|, 0)
  {
    var i: nat := 0;
    while i < |ts|
      invariant i <= |ts| && Filled(buf[..], base, f, schema, perBuffer, ts, i, 0)
    {
      StoreTuple(buf, base, f, schema, perBuffer, ts, i);
      i := i + 1;
    }
  }

  // ---- The client ----

  lemma CellRead(s: seq<Byte>, base: nat, f: Format, schema: Schema, perBuffer: nat, ts: seq<Tuple>, i: nat, j: nat)
    requires Matching(schema) && AllWellSized(schema, ts) && i < |ts| && j < |schema|
    requires Filled(s, base, f, schema, perBuffer, ts, |ts|, 0)
    ensures |ts[i]| == |schema|
    ensures var at := base + ClientAddress(f, schema, perBuffer, i, j);
            at + Width(schema[j]) <= |s| && s[at..at + Width(schema[j])] == ts[i][j]
  {
    AddressesAgree(f, schema, perBuffer, i, j);
    assert WellSized(schema, ts[i]);
    assert CellAt(s, base + ServerAddress(f, schema, perBuffer, i, j), ts[i][j]);
  }

  method LoadCell(buf: array<Byte>, base: nat, f: Format, schema: Schema, perBuffer: nat, i: nat, j: nat, ghost ts: seq<Tuple>)
    returns (c: Cell)
    requires Matching(schema) && AllWellSized(schema, ts) && i < |ts| && j < |schema|
    requires Filled(buf[..], base, f, schema, perBuffer, ts, |ts|, 0)
    ensures |ts[i]| == |schema| && c == ts[i][j]
  {
    CellRead(buf[..], base, f, schema, perBuffer, ts, i, j);
    assert WellSized(schema, ts[i]);
    var at := base + ClientAddress(f, schema, perBuffer, i, j);
    c := buf[at..at + Width(schema[j])];
    assert c == buf[..][at..at + Width(schema[j])];
  }

  method LoadTuple(buf: array<Byte>, base: nat, f: Format, schema: Schema, perBuffer: nat, i: nat, ghost ts: seq<Tuple>)
    returns (t: Tuple)
    requires Matching(schema) && AllWellSized(schema, ts) && i < |ts|
    requires Filled(buf[..], base, f, schema, perBuffer, ts, |ts|, 0)
    ensures t == ts[i]
  {
    t := [];
    ghost var want := ts[i];
    assert WellSized(schema, want);
    while |t| < |schema|
      invariant |t| <= |schema| && t == want[..|t|]
      decreases |schema| - |t|
    {
      var cell := LoadCell(buf, base, f, schema, perBuffer, i, |t|, ts);
      t := t + [cell];
    }
  }

  /** What the server stored at its addresses the client finds at its own. */
  method LoadTuples(buf: array<Byte>, base: nat, f: Format, schema: Schema, perBuffer: nat, n: nat, ghost ts: seq<Tuple>)
    returns (r: seq<Tuple>)
    requires Matching(schema) && AllWellSized(schema, ts) && n == |ts|
    requires Filled(buf[..], base, f, schema, perBuffer, ts, n, 0)
    ensures r == ts
  {
    r := [];
    while |r| < n
      invariant |r| <= n && r == ts[..|r|]
      decreases n - |r|
    {
      var t := LoadTuple(buf, base, f, schema, perBuffer, |r|, ts);
      r := r + [t];
    }
  }
}
