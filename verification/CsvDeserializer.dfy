/** The server's loop from the lines of its input buffers to tuples in its output buffers. */
module CsvDeserializer {
  import opened Words
  import opened Digits
  import opened Layout
  import opened TupleBuffer
  import opened RowCodec
  import opened Packing

  /** A buffer as the deserializer pushes it: the tuple count and the payload size of its header, and its bytes. */
  datatype Pushed = Pushed(tuples: nat, size: nat, bytes: seq<Byte>)

  ghost predicate HoldsTuples(b: Pushed, base: nat, f: Layout.Format, schema: Schema, perBuffer: nat, ts: seq<Tuple>) {
    && b.tuples == |ts| && b.size == TotalSize(f, schema, perBuffer, |ts|)
    && Filled(b.bytes, base, f, schema, perBuffer, ts, |ts|, 0)
  }

  /** The buffers hold these tuples, part by part. */
  ghost predicate AllHoldTuples(bs: seq<Pushed>, base: nat, f: Layout.Format, schema: Schema, perBuffer: nat, parts: seq<seq<Tuple>>) {
    && |bs| == |parts|
    && (bs != [] ==>
          && HoldsTuples(bs[|bs| - 1], base, f, schema, perBuffer, parts[|bs| - 1])
          && AllHoldTuples(bs[..|bs| - 1], base, f, schema, perBuffer, parts[..|bs| - 1]))
  }

  lemma {:induction false} EachHoldsTuples(bs: seq<Pushed>, base: nat, f: Layout.Format, schema: Schema, perBuffer: nat, parts: seq<seq<Tuple>>, i: nat)
    requires AllHoldTuples(bs, base, f, schema, perBuffer, parts) && i < |bs|
    ensures HoldsTuples(bs[i], base, f, schema, perBuffer, parts[i])
  {
    if i < |bs| - 1 {
      EachHoldsTuples(bs[..|bs| - 1], base, f, schema, perBuffer, parts[..|bs| - 1], i);
    }
  }

  lemma HoldMore(bs: seq<Pushed>, base: nat, f: Layout.Format, schema: Schema, perBuffer: nat, parts: seq<seq<Tuple>>, b: Pushed, ts: seq<Tuple>)
    requires AllHoldTuples(bs, base, f, schema, perBuffer, parts) && HoldsTuples(b, base, f, schema, perBuffer, ts)
    ensures AllHoldTuples(bs + [b], base, f, schema, perBuffer, parts + [ts])
  {
    assert (bs + [b])[..|bs|] == bs && (parts + [ts])[..|bs|] == parts;
  }

  /** Full buffers with the tuples before `to`. */
  ghost predicate Sent(bs: seq<Pushed>, base: nat, f: Layout.Format, schema: Schema, perBuffer: nat, ts: seq<Tuple>, to: nat) {
    && to <= |ts|
    && (if bs == [] then to == 0
        else
          && perBuffer <= to && HoldsTuples(bs[|bs| - 1], base, f, schema, perBuffer, ts[to - perBuffer..to])
          && Sent(bs[..|bs| - 1], base, f, schema, perBuffer, ts, to - perBuffer))
  }

  lemma SendMore(bs: seq<Pushed>, base: nat, f: Layout.Format, schema: Schema, perBuffer: nat, ts: seq<Tuple>, to: nat, b: Pushed)
    requires Sent(bs, base, f, schema, perBuffer, ts, to) && to + perBuffer <= |ts|
    requires HoldsTuples(b, base, f, schema, perBuffer, ts[to..to + perBuffer])
    ensures Sent(bs + [b], base, f, schema, perBuffer, ts, to + perBuffer)
  {
    assert (bs + [b])[..|bs|] == bs;
  }

  lemma {:induction false} PartsOf(bs: seq<Pushed>, base: nat, f: Layout.Format, schema: Schema, perBuffer: nat, ts: seq<Tuple>, to: nat)
    returns (parts: seq<seq<Tuple>>)
    requires Sent(bs, base, f, schema, perBuffer, ts, to)
    ensures AllHoldTuples(bs, base, f, schema, perBuffer, parts) && AllFull(parts, perBuffer) && Flatten(parts) == ts[..to]
  {
    parts := [];
    if bs != [] {
      var n, part := |bs| - 1, ts[to - perBuffer..to];
      var front := PartsOf(bs[..n], base, f, schema, perBuffer, ts, to - perBuffer);
      HoldMore(bs[..n], base, f, schema, perBuffer, front, bs[n], part);
      FlattenSnoc(front, part);
      parts := front + [part];
      assert bs[..n] + [bs[n]] == bs && parts[..n] == front;
    }
  }

  ghost predicate AllFull<T>(parts: seq<seq<T>>, perBuffer: nat) {
    parts != [] ==> |parts[|parts| - 1]| == perBuffer && AllFull(parts[..|parts| - 1], perBuffer)
  }

  lemma {:induction false} EachFull<T>(parts: seq<seq<T>>, perBuffer: nat, i: nat)
    requires AllFull(parts, perBuffer) && i < |parts|
    ensures |parts[i]| == perBuffer
  {
    if i < |parts| - 1 {
      EachFull(parts[..|parts| - 1], perBuffer, i);
    }
  }

  /** The tuples for the output buffer that starts with tuple `from`. */
  function Share<T>(ts: seq<T>, from: nat, perBuffer: nat): seq<T>
    requires from <= |ts|
  {
    ts[from..Min(from + perBuffer, |ts|)]
  }

  /** `done` tuples have been deserialized; the last `n` are in the output buffer that is not pushed yet. */
  ghost predicate Working(s: seq<Byte>, base: nat, f: Layout.Format, schema: Schema, perBuffer: nat, ts: seq<Tuple>,
                          outs: seq<Pushed>, n: nat, done: nat) {
    && n < perBuffer && n <= done <= |ts| && Sent(outs, base, f, schema, perBuffer, ts, done - n)
    && Filled(s, base, f, schema, perBuffer, Share(ts, done - n, perBuffer), n, 0)
  }

  ghost predicate EncodesAt(schema: Schema, rows: seq<seq<Text>>, ts: seq<Tuple>, from: nat, junk: int) {
    && from + |rows| <= |ts|
    && forall i {:trigger EncodesRow(schema, rows[i], ts[from + i], junk)} :: 0 <= i < |rows| ==>
         EncodesRow(schema, rows[i], ts[from + i], junk)
  }

  lemma ShareSized(schema: Schema, ts: seq<Tuple>, from: nat, perBuffer: nat)
    requires AllWellSized(schema, ts) && from <= |ts|
    ensures AllWellSized(schema, Share(ts, from, perBuffer))
  {
    var mine := Share(ts, from, perBuffer);
    forall i | 0 <= i < |mine|
      ensures WellSized(schema, mine[i])
    {
      assert mine[i] == ts[from + i];
    }
  }

  lemma NextTuple(s: seq<Byte>, base: nat, f: Layout.Format, schema: Schema, perBuffer: nat, ts: seq<Tuple>,
                  outs: seq<Pushed>, n: nat, done: nat)
    requires Working(s, base, f, schema, perBuffer, ts, outs, n, done) && done < |ts| && AllWellSized(schema, ts)
    ensures n <= done
    ensures var mine := Share(ts, done - n, perBuffer);
            && AllWellSized(schema, mine) && n < |mine| <= perBuffer && mine[n] == ts[done]
            && Filled(s, base, f, schema, perBuffer, mine, n, 0)
  {
    ShareSized(schema, ts, done - n, perBuffer);
  }

  lemma NotFull(s: seq<Byte>, s': seq<Byte>, base: nat, f: Layout.Format, schema: Schema, perBuffer: nat, ts: seq<Tuple>,
                outs: seq<Pushed>, n: nat, done: nat)
    requires Working(s, base, f, schema, perBuffer, ts, outs, n, done) && done < |ts| && n + 1 < perBuffer
    requires Filled(s', base, f, schema, perBuffer, Share(ts, done - n, perBuffer), n + 1, 0)
    ensures Working(s', base, f, schema, perBuffer, ts, outs, n + 1, done + 1)
  {
  }

  /** The buffer is full: its header is written, it is pushed, and work goes on in another one. */
  lemma Full(s: seq<Byte>, s': seq<Byte>, next: seq<Byte>, base: nat, f: Layout.Format, schema: Schema, perBuffer: nat, ts: seq<Tuple>,
             outs: seq<Pushed>, n: nat, done: nat)
    requires Working(s, base, f, schema, perBuffer, ts, outs, n, done) && done < |ts| && n + 1 == perBuffer
    requires Filled(s', base, f, schema, perBuffer, Share(ts, done - n, perBuffer), n + 1, 0)
    ensures Working(next, base, f, schema, perBuffer, ts, outs + [Pushed(perBuffer, perBuffer * TupleSize(schema), s')], 0, done + 1)
  {
    SendMore(outs, base, f, schema, perBuffer, ts, done - n, Pushed(perBuffer, perBuffer * TupleSize(schema), s'));
  }

  lemma Start(s: seq<Byte>, base: nat, f: Layout.Format, schema: Schema, perBuffer: nat, ts: seq<Tuple>)
    requires perBuffer >= 1
    ensures Working(s, base, f, schema, perBuffer, ts, [], 0, 0)
  {
  }

  /** At `p` the lines of the rows from the `i`th on begin, and these become the tuples from `at` on. */
  ghost predicate Waiting(text: Text, p: nat, schema: Schema, rows: seq<seq<Text>>, i: nat, ts: seq<Tuple>, at: nat, junk: int)
    decreases |rows| - i
  {
    && i <= |rows| && p <= |text| && at <= |ts|
    && (if i == |rows| then p == |text|
        else
          && p < |text| && at < |ts| && LineAt(text, p, rows[i], 0) && EncodesRow(schema, rows[i], ts[at], junk)
          && Waiting(text, FieldStart(p, rows[i], |rows[i]|), schema, rows, i + 1, ts, at + 1, junk))
  }

  lemma {:induction false} AllWaiting(text: Text, p: nat, schema: Schema, rows: seq<seq<Text>>, i: nat, ts: seq<Tuple>, from: nat, junk: int)
    requires EncodesAt(schema, rows, ts, from, junk) && schema != [] && i <= |rows| && p <= |text| && text[p..] == LinesFrom(rows, i)
    ensures Waiting(text, p, schema, rows, i, ts, from + i, junk)
    decreases |rows| - i
  {
    if i < |rows| {
      assert EncodesRow(schema, rows[i], ts[from + i], junk);
      LineNotEmpty(schema, rows[i]);
      HeadLine(text, p, rows, i);
      AllWaiting(text, FieldStart(p, rows[i], |rows[i]|), schema, rows, i + 1, ts, from, junk);
    }
  }

  /** The line at `p` becomes the next tuple; a full buffer is pushed and a new one taken. */
  method DeserializeNext(text: Text, p: nat, buf0: array<Byte>, base: nat, f: Layout.Format, schema: Schema, perBuffer: nat, junk: int,
                         n0: nat, outs0: seq<Pushed>, ghost rows: seq<seq<Text>>, ghost i: nat, ghost ts: seq<Tuple>, ghost done: nat)
    returns (next: nat, buf: array<Byte>, n: nat, outs: seq<Pushed>)
    requires Matching(schema) && AllWellSized(schema, ts) && p < |text| && Waiting(text, p, schema, rows, i, ts, done, junk)
    requires buf0.Length == base + RoomFor(schema, perBuffer) && Working(buf0[..], base, f, schema, perBuffer, ts, outs0, n0, done)
    modifies buf0
    ensures Waiting(text, next, schema, rows, i + 1, ts, done + 1, junk) && (buf == buf0 || fresh(buf)) && buf.Length == buf0.Length
    ensures Working(buf[..], base, f, schema, perBuffer, ts, outs, n, done + 1)
  {
    ghost var before, mine := buf0[..], Share(ts, done - n0, perBuffer);
    NextTuple(before, base, f, schema, perBuffer, ts, outs0, n0, done);
    next := DeserializeLine(text, p, buf0, base, f, schema, perBuffer, n0, junk, rows[i], mine);
    buf, n, outs := buf0, n0 + 1, outs0;
    if n == perBuffer {
      buf := new Byte[buf0.Length];
      Full(before, buf0[..], buf[..], base, f, schema, perBuffer, ts, outs0, n0, done);
      outs := outs + [Pushed(n, n * TupleSize(schema), buf0[..])];
      n := 0;
    } else {
      NotFull(before, buf[..], base, f, schema, perBuffer, ts, outs0, n0, done);
    }
  }

  /** All lines of an input buffer. */
  method DeserializePayload(text: Text, buf0: array<Byte>, base: nat, f: Layout.Format, schema: Schema, perBuffer: nat, junk: int,
                            n0: nat, outs0: seq<Pushed>, ghost rows: seq<seq<Text>>, ghost ts: seq<Tuple>, ghost done: nat)
    returns (buf: array<Byte>, n: nat, outs: seq<Pushed>)
    requires Matching(schema) && AllWellSized(schema, ts) && Waiting(text, 0, schema, rows, 0, ts, done, junk)
    requires buf0.Length == base + RoomFor(schema, perBuffer) && Working(buf0[..], base, f, schema, perBuffer, ts, outs0, n0, done)
    modifies buf0
    ensures (buf == buf0 || fresh(buf)) && buf.Length == buf0.Length
    ensures Working(buf[..], base, f, schema, perBuffer, ts, outs, n, done + |rows|)
  {
    buf, n, outs := buf0, n0, outs0;
    var readOffset: nat := 0;
    ghost var i: nat, at, bytes := 0, done, buf[..];
    while readOffset < |text|
      invariant Waiting(text, readOffset, schema, rows, i, ts, at, junk) && at == done + i
      invariant (buf == buf0 || fresh(buf)) && buf.Length == buf0.Length
      invariant bytes == buf[..] && Working(bytes, base, f, schema, perBuffer, ts, outs, n, at)
      decreases |rows| - i
    {
      readOffset, buf, n, outs := DeserializeNext(text, readOffset, buf, base, f, schema, perBuffer, junk, n, outs, rows, i, ts, at);
      i, at, bytes := i + 1, at + 1, buf[..];
    }
  }

  /** The payloads are the lines of the groups. */
  ghost predicate AllLinesOf(payloads: seq<Text>, groups: seq<seq<seq<Text>>>) {
    |payloads| == |groups| && forall k {:trigger groups[k]} :: 0 <= k < |groups| ==> payloads[k] == LinesFrom(groups[k], 0)
  }

  lemma {:induction false} FlattenAt<T>(ss: seq<seq<T>>, k: nat, i: nat)
    requires k < |ss| && i < |ss[k]|
    ensures |Flatten(ss[..k])| + i < |Flatten(ss)| && Flatten(ss)[|Flatten(ss[..k])| + i] == ss[k][i]
  {
    var n := |ss| - 1;
    if k < n {
      FlattenAt(ss[..n], k, i);
      assert ss[..n][..k] == ss[..k];
    }
  }

  lemma {:induction false} FlattenShort<T>(ss: seq<seq<T>>, k: nat)
    requires k <= |ss|
    ensures |Flatten(ss[..k])| <= |Flatten(ss)|
  {
    var n := |ss| - 1;
    if k <= n {
      FlattenShort(ss[..n], k);
      assert ss[..n][..k] == ss[..k];
    } else {
      assert ss[..k] == ss;
    }
  }

  /** The payloads from the `b`th on are the lines of the groups, and these become the tuples behind the first `from`. */
  ghost predicate Pending(payloads: seq<Text>, groups: seq<seq<seq<Text>>>, b: nat, schema: Schema, ts: seq<Tuple>, from: nat, junk: int)
    decreases |groups| - b
  {
    && b <= |groups| == |payloads| && from <= |ts|
    && (if b == |groups| then from == |ts|
        else
          && Waiting(payloads[b], 0, schema, groups[b], 0, ts, from, junk)
          && Pending(payloads, groups, b + 1, schema, ts, from + |groups[b]|, junk))
  }

  lemma {:induction false} AllPending(payloads: seq<Text>, groups: seq<seq<seq<Text>>>, b: nat, schema: Schema, ts: seq<Tuple>, junk: int)
    requires schema != [] && AllLinesOf(payloads, groups) && Encodes(schema, Flatten(groups), ts, junk) && b <= |groups|
    ensures Pending(payloads, groups, b, schema, ts, |Flatten(groups[..b])|, junk)
    decreases |groups| - b
  {
    if b < |groups| {
      GroupEncodes(schema, groups, ts, b, junk);
      assert payloads[b] == LinesFrom(groups[b], 0) && payloads[b][0..] == payloads[b];
      AllWaiting(payloads[b], 0, schema, groups[b], 0, ts, |Flatten(groups[..b])|, junk);
      AllPending(payloads, groups, b + 1, schema, ts, junk);
    } else {
      assert groups[..b] == groups;
    }
  }

  lemma GroupEncodes(schema: Schema, groups: seq<seq<seq<Text>>>, ts: seq<Tuple>, k: nat, junk: int)
    requires Encodes(schema, Flatten(groups), ts, junk) && k < |groups|
    ensures EncodesAt(schema, groups[k], ts, |Flatten(groups[..k])|, junk)
    ensures |Flatten(groups[..k])| + |groups[k]| == |Flatten(groups[..k + 1])|
  {
    var from := |Flatten(groups[..k])|;
    assert groups[..k + 1][..k] == groups[..k];
    FlattenShort(groups, k + 1);
    forall i | 0 <= i < |groups[k]|
      ensures EncodesRow(schema, groups[k][i], ts[from + i], junk)
    {
      FlattenAt(groups, k, i);
      assert EncodesRow(schema, Flatten(groups)[from + i], ts[from + i], junk);
    }
  }

  /** Full buffers and the rest are the chunks. */
  lemma FullAndRest<T>(ts: seq<T>, parts: seq<seq<T>>, perBuffer: nat, n: nat)
    requires AllFull(parts, perBuffer) && n < perBuffer && n <= |ts| && Flatten(parts) == ts[..|ts| - n]
    ensures (if n > 0 then parts + [ts[|ts| - n..]] else parts) == Chunks(ts, perBuffer)
  {
    var rest := ts[|ts| - n..];
    var all := if n > 0 then parts + [rest] else parts;
    forall i | 0 <= i < |parts|
      ensures |parts[i]| == perBuffer
    {
      EachFull(parts, perBuffer, i);
    }
    FlattenSnoc(parts, rest);
    assert ts[..|ts| - n] + rest == ts && ts[..|ts|] == ts;
    ChunksFlat(ts, perBuffer);
    ChunksTight(ts, perBuffer);
    TightIsUnique(all, Chunks(ts, perBuffer), perBuffer);
  }

  /** What is left when the input ends. */
  lemma Last(s: seq<Byte>, base: nat, f: Layout.Format, schema: Schema, perBuffer: nat, ts: seq<Tuple>,
             outs: seq<Pushed>, n: nat)
    requires Working(s, base, f, schema, perBuffer, ts, outs, n, |ts|)
    ensures n < perBuffer && n <= |ts|
    ensures var outs' := if n > 0 then outs + [Pushed(n, TotalSize(f, schema, perBuffer, n), s)] else outs;
            AllHoldTuples(outs', base, f, schema, perBuffer, Chunks(ts, perBuffer))
  {
    var parts := PartsOf(outs, base, f, schema, perBuffer, ts, |ts| - n);
    FullAndRest(ts, parts, perBuffer, n);
    if n > 0 {
      var part := ts[|ts| - n..];
      assert part == Share(ts, |ts| - n, perBuffer);
      HoldMore(outs, base, f, schema, perBuffer, parts, Pushed(n, TotalSize(f, schema, perBuffer, n), s), part);
    }
  }

  method NewBuffer(base: nat, schema: Schema, perBuffer: nat) returns (buf: array<Byte>)
    ensures fresh(buf) && buf.Length == base + RoomFor(schema, perBuffer)
  {
    buf := new Byte[base + perBuffer * TupleSize(schema)];
    RoomIsProduct(schema, perBuffer);
  }

  method PushRest(buf: array<Byte>, base: nat, f: Layout.Format, schema: Schema, perBuffer: nat, n: nat, outs0: seq<Pushed>,
                  ghost ts: seq<Tuple>) returns (outs: seq<Pushed>)
    requires Working(buf[..], base, f, schema, perBuffer, ts, outs0, n, |ts|) && perBuffer >= 1
    ensures AllHoldTuples(outs, base, f, schema, perBuffer, Chunks(ts, perBuffer))
  {
    Last(buf[..], base, f, schema, perBuffer, ts, outs0, n);
    outs := outs0;
    if n > 0 && n != perBuffer {
      var size := if f.ColumnFormat? then perBuffer * TupleSize(schema) else n * TupleSize(schema);
      outs := outs + [Pushed(n, size, buf[..])];
    }
  }

  method DeserializePayloads(payloads: seq<Text>, buf0: array<Byte>, base: nat, f: Layout.Format, schema: Schema, perBuffer: nat, junk: int,
                             ghost groups: seq<seq<seq<Text>>>, ghost ts: seq<Tuple>)
    returns (buf: array<Byte>, n: nat, outs: seq<Pushed>)
    requires Matching(schema) && AllWellSized(schema, ts) && perBuffer >= 1
    requires Pending(payloads, groups, 0, schema, ts, 0, junk) && buf0.Length == base + RoomFor(schema, perBuffer)
    modifies buf0
    ensures Working(buf[..], base, f, schema, perBuffer, ts, outs, n, |ts|)
  {
    var b: nat := 0;
    buf, n, outs := buf0, 0, [];
    ghost var done: nat, bytes := 0, buf[..];
    Start(buf[..], base, f, schema, perBuffer, ts);
    while b < |payloads|
      invariant Pending(payloads, groups, b, schema, ts, done, junk) && (buf == buf0 || fresh(buf)) && buf.Length == buf0.Length
      invariant bytes == buf[..] && Working(bytes, base, f, schema, perBuffer, ts, outs, n, done)
    {
      buf, n, outs := DeserializePayload(payloads[b], buf, base, f, schema, perBuffer, junk, n, outs, groups[b], ts, done);
      done, bytes := done + |groups[b]|, buf[..];
      b := b + 1;
    }
  }

  /** The payloads' lines become tuples, all of them and in order, with the cells the deserializers make of the
      fields; the output buffers hold them in order, all but the last are full, and none is empty. */
  method DeserializeAll(payloads: seq<Text>, base: nat, f: Layout.Format, schema: Schema, perBuffer: nat, junk: int,
                        ghost groups: seq<seq<seq<Text>>>, ghost ts: seq<Tuple>) returns (outs: seq<Pushed>)
    requires Matching(schema) && schema != [] && perBuffer >= 1
    requires AllLinesOf(payloads, groups) && Encodes(schema, Flatten(groups), ts, junk)
    ensures AllHoldTuples(outs, base, f, schema, perBuffer, Chunks(ts, perBuffer))
  {
    AllSized(schema, Flatten(groups), ts, junk);
    AllPending(payloads, groups, 0, schema, ts, junk);
    var buf := NewBuffer(base, schema, perBuffer);
    var n;
    buf, n, outs := DeserializePayloads(payloads, buf, base, f, schema, perBuffer, junk, groups, ts);
    outs := PushRest(buf, base, f, schema, perBuffer, n, outs, ts);
  }
}
