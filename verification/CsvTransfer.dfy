/** From the lines in the server's input buffers to the lines the client's writer puts into the file. */
module CsvTransfer {
  import opened Words
  import opened Digits
  import opened Layout
  import opened TupleBuffer
  import opened RowCodec
  import opened Packing
  import opened CsvDeserializer
  import opened CsvSink

  // ---- The writer ----

  /** What the buffers hold for the writer: as many bytes as the headers say. */
  ghost predicate Shows(pool: seq<PoolBuffer>, header: nat, contents: seq<Text>)
    reads set b <- pool, set b <- pool :: b.bytes
  {
    && |contents| == |pool|
    && forall i :: 0 <= i < |pool| ==>
         header + pool[i].totalSize <= pool[i].bytes.Length && contents[i] == pool[i].bytes[header..header + pool[i].totalSize]
  }

  /** The buffers one behind the other. */
  ghost function Assembled(contents: seq<Text>, ids: seq<nat>): Text
    requires IdsBelow(ids, |contents|)
  {
    if ids == [] then [] else Assembled(contents, ids[..|ids| - 1]) + contents[ids[|ids| - 1]]
  }

  /** The writer's loop over the ids in its queue. */
  method WriteBuffers(pool: seq<PoolBuffer>, header: nat, pushed: seq<nat>, ghost contents: seq<Text>) returns (file: Text)
    requires Shows(pool, header, contents) && IdsBelow(pushed, |pool|)
    ensures file == Assembled(contents, pushed)
  {
    file := [];
    var k: nat := 0;
    while k < |pushed|
      invariant k <= |pushed| && file == Assembled(contents, pushed[..k])
    {
      assert pushed[..k + 1][..k] == pushed[..k];
      var b := pool[pushed[k]];
      file := file + b.bytes[header..header + b.totalSize];
      k := k + 1;
    }
    assert pushed[..k] == pushed;
  }

  /** Only the first buffer has been written to. */
  lemma {:induction false} OnlyFirst(contents: seq<Text>, ids: seq<nat>, text: Text)
    requires ids != [] && IdsBelow(ids, |contents|) && forall k :: 0 < k < |ids| ==> ids[k] != ids[0]
    ensures Assembled(contents[ids[0] := text], ids) == text + Assembled(contents, ids[1..])
  {
    var n := |ids| - 1;
    if n > 0 {
      OnlyFirst(contents, ids[..n], text);
      assert ids[1..][..n - 1] == ids[..n][1..];
    }
  }

  // ---- One buffer ----

  method NewPool(n: nat, size: nat) returns (pool: seq<PoolBuffer>)
    ensures |pool| == n && IsPool(pool, size) && forall b <- pool :: fresh(b) && fresh(b.bytes) && b.totalSize == 0
  {
    pool := [];
    while |pool| < n
      invariant |pool| <= n && IsPool(pool, size) && forall b <- pool :: fresh(b) && fresh(b.bytes) && b.totalSize == 0
    {
      var b := new PoolBuffer(size);
      pool := pool + [b];
    }
  }

  /** What the writer makes of the buffers that the sink pushes for one input buffer: the last lines, in the
      first of them, and behind these what the further ones have held before. */
  method SinkBuffer(buf: array<Byte>, base: nat, f: Layout.Format, schema: Schema, perBuffer: nat, pool: seq<PoolBuffer>, free: seq<nat>,
                    size: nat, header: nat, limit: nat, total: nat, ghost rows: seq<seq<Text>>, ghost ts: seq<Tuple>, ghost junk: int, ghost contents: seq<Text>)
    returns (text: Text, inside: bool)
    requires Matching(schema) && schema != [] && Encodes(schema, rows, ts, junk) && CanonicalRows(schema, rows) && total == |rows| >= 1
    requires Filled(buf[..], base, f, schema, perBuffer, ts, |ts|, 0)
    requires IsPool(pool, size) && IdsBelow(free, |pool|) && |rows| < |free| && header <= size && buf != pool[free[0]].bytes
    requires Shows(pool, header, contents) && forall k :: 0 < k < |free| ==> free[k] != free[0]
    modifies pool[free[0]], pool[free[0]].bytes
    ensures inside <==> !Overruns(rows, MaxTuple(schema), limit, size - header)
    ensures inside ==> var further := Further(rows, MaxTuple(schema), limit, |rows|);
                       text == Kept(rows, MaxTuple(schema), limit) + Assembled(contents, free[1..further + 1])
  {
    var pushed;
    pushed, inside := SerializeTuples(buf, base, f, schema, perBuffer, pool, free, size, header, limit, total, rows, ts, junk);
    text := [];
    if inside {
      ghost var kept := Kept(rows, MaxTuple(schema), limit);
      Exchanged(pool, header, contents, free[0], kept);
      text := WriteBuffers(pool, header, pushed, contents[free[0] := kept]);
      OnlyFirst(contents, pushed, kept);
      assert pushed[1..] == free[1..Further(rows, MaxTuple(schema), limit, |rows|) + 1];
    }
  }

  lemma Exchanged(pool: seq<PoolBuffer>, header: nat, contents: seq<Text>, first: nat, text: Text)
    requires first < |pool| == |contents|
    requires forall i :: 0 <= i < |pool| && i != first ==>
               header + pool[i].totalSize <= pool[i].bytes.Length && contents[i] == pool[i].bytes[header..header + pool[i].totalSize]
    requires pool[first].totalSize == |text| && Written(pool[first].bytes[..], header, text)
    ensures Shows(pool, header, contents[first := text])
  {
  }

  // ---- All buffers ----

  /** The lines of the first `b` tables. */
  ghost function TextOf(tables: seq<seq<seq<Text>>>, b: nat): Text
    requires b <= |tables|
  {
    if b == 0 then [] else TextOf(tables, b - 1) + LinesBetween(tables[b - 1], 0, |tables[b - 1]|)
  }

  /** What comes through of them. */
  ghost function KeptOf(tables: seq<seq<seq<Text>>>, max: nat, limit: nat, b: nat): Text
    requires b <= |tables|
  {
    if b == 0 then [] else KeptOf(tables, max, limit, b - 1) + Kept(tables[b - 1], max, limit)
  }

  ghost predicate AllCanonical(schema: Schema, tables: seq<seq<seq<Text>>>) {
    forall k {:trigger tables[k]} :: 0 <= k < |tables| ==> CanonicalRows(schema, tables[k])
  }

  ghost predicate AllOneBuffer(tables: seq<seq<seq<Text>>>, max: nat, limit: nat, b: nat)
    requires b <= |tables|
  {
    forall k {:trigger tables[k]} :: 0 <= k < b ==> OneBuffer(tables[k], max, limit, |tables[k]|)
  }

  /** Everything comes through if and only if one buffer is enough for the text of every input buffer. */
  lemma {:induction false} KeptOfAll(schema: Schema, tables: seq<seq<seq<Text>>>, limit: nat, b: nat)
    requires schema != [] && AllCanonical(schema, tables) && b <= |tables|
    ensures var text, kept := TextOf(tables, b), KeptOf(tables, MaxTuple(schema), limit, b);
            && |kept| <= |text| && (kept == text <==> |kept| == |text|)
            && (kept == text <==> AllOneBuffer(tables, MaxTuple(schema), limit, b))
  {
    if b > 0 {
      KeptOfAll(schema, tables, limit, b - 1);
      KeptIsAll(schema, tables[b - 1], limit);
    }
  }

  lemma {:induction false} LinesOfBoth(x: seq<seq<Text>>, y: seq<seq<Text>>, k: nat)
    requires k <= |y|
    ensures LinesBetween(x + y, 0, |x| + k) == LinesBetween(x, 0, |x|) + LinesBetween(y, 0, k)
  {
    if k > 0 {
      LinesOfBoth(x, y, k - 1);
      Joined(LinesBetween(x, 0, |x|), LinesBetween(y, 0, k - 1), LineText(y[k - 1]));
    } else {
      LinesOfFirst(x, y, |x|);
    }
  }

  lemma {:induction false} LinesOfFirst(x: seq<seq<Text>>, y: seq<seq<Text>>, k: nat)
    requires k <= |x|
    ensures LinesBetween(x + y, 0, k) == LinesBetween(x, 0, k)
  {
    if k > 0 {
      LinesOfFirst(x, y, k - 1);
    }
  }

  lemma {:induction false} TextOfFlat(tables: seq<seq<seq<Text>>>, b: nat)
    requires b <= |tables|
    ensures var rows := Flatten(tables[..b]);
            TextOf(tables, b) == LinesBetween(rows, 0, |rows|)
  {
    if b > 0 {
      TextOfFlat(tables, b - 1);
      assert tables[..b][..b - 1] == tables[..b - 1];
      LinesOfBoth(Flatten(tables[..b - 1]), tables[b - 1], |tables[b - 1]|);
    }
  }

  lemma {:induction false} LinesSame(rows: seq<seq<Text>>, k: nat)
    requires k <= |rows|
    ensures LinesBetween(rows, 0, k) + LinesFrom(rows, k) == LinesFrom(rows, 0)
  {
    if k > 0 {
      LinesSame(rows, k - 1);
      Joined(LinesBetween(rows, 0, k - 1), LineText(rows[k - 1]), LinesFrom(rows, k));
    }
  }

  lemma {:induction false} TextOfPayloads(payloads: seq<Text>, groups: seq<seq<seq<Text>>>, b: nat)
    requires AllLinesOf(payloads, groups) && b <= |groups|
    ensures TextOf(groups, b) == Flatten(payloads[..b])
  {
    if b > 0 {
      TextOfPayloads(payloads, groups, b - 1);
      assert payloads[..b][..b - 1] == payloads[..b - 1];
      assert payloads[b - 1] == LinesFrom(groups[b - 1], 0);
      LinesSame(groups[b - 1], |groups[b - 1]|);
    }
  }

  /** The text is the same, however the lines are grouped. */
  lemma SameText(payloads: seq<Text>, groups: seq<seq<seq<Text>>>, tables: seq<seq<seq<Text>>>)
    requires AllLinesOf(payloads, groups) && Flatten(tables) == Flatten(groups)
    ensures TextOf(tables, |tables|) == Flatten(payloads)
  {
    TextOfPayloads(payloads, groups, |groups|);
    TextOfFlat(tables, |tables|);
    TextOfFlat(groups, |groups|);
    assert payloads[..|payloads|] == payloads && groups[..|groups|] == groups && tables[..|tables|] == tables;
  }

  lemma RowsEncode(schema: Schema, rows: seq<seq<Text>>, ts: seq<Tuple>, n: nat, junk: int)
    requires Encodes(schema, rows, ts, junk) && n <= |rows|
    ensures Encodes(schema, rows[..n], ts[..n], junk) && Encodes(schema, rows[n..], ts[n..], junk)
  {
    forall i | 0 <= i < n
      ensures EncodesRow(schema, rows[..n][i], ts[..n][i], junk)
    {
      assert EncodesRow(schema, rows[i], ts[i], junk);
    }
    forall i | 0 <= i < |rows| - n
      ensures EncodesRow(schema, rows[n..][i], ts[n..][i], junk)
    {
      assert EncodesRow(schema, rows[n + i], ts[n + i], junk);
    }
  }

  lemma RowsCanonical(schema: Schema, rows: seq<seq<Text>>, n: nat)
    requires CanonicalRows(schema, rows) && n <= |rows|
    ensures CanonicalRows(schema, rows[..n]) && CanonicalRows(schema, rows[n..])
  {
    forall i | 0 <= i < n
      ensures CanonicalRow(schema, rows[..n][i])
    {
      assert CanonicalRow(schema, rows[i]);
    }
    forall i | 0 <= i < |rows| - n
      ensures CanonicalRow(schema, rows[n..][i])
    {
      assert CanonicalRow(schema, rows[n + i]);
    }
  }

  /** The lines of the tables are the tuples of the buffers. */
  ghost predicate AllEncode(schema: Schema, tables: seq<seq<seq<Text>>>, parts: seq<seq<Tuple>>, junk: int) {
    |tables| == |parts| && forall k {:trigger tables[k]} :: 0 <= k < |tables| ==> Encodes(schema, tables[k], parts[k], junk)
  }

  /** The lines, grouped as the tuples are. */
  lemma {:induction false} Tabled(schema: Schema, rows: seq<seq<Text>>, ts: seq<Tuple>, parts: seq<seq<Tuple>>, junk: int)
    returns (tables: seq<seq<seq<Text>>>)
    requires Encodes(schema, rows, ts, junk) && CanonicalRows(schema, rows) && Flatten(parts) == ts
    ensures Flatten(tables) == rows && AllEncode(schema, tables, parts, junk) && AllCanonical(schema, tables)
    decreases |parts|
  {
    tables := [];
    if parts != [] {
      var part := parts[|parts| - 1];
      var n := |ts| - |part|;
      RowsEncode(schema, rows, ts, n, junk);
      RowsCanonical(schema, rows, n);
      assert ts[..n] == Flatten(parts[..|parts| - 1]) && ts[n..] == part;
      var front := Tabled(schema, rows[..n], ts[..n], parts[..|parts| - 1], junk);
      tables := front + [rows[n..]];
      FlattenSnoc(front, rows[n..]);
    }
  }

  lemma TightTables(schema: Schema, tables: seq<seq<seq<Text>>>, parts: seq<seq<Tuple>>, perBuffer: nat, junk: int)
    requires AllEncode(schema, tables, parts, junk) && Tight(parts, perBuffer)
    ensures Tight(tables, perBuffer)
  {
    forall k | 0 <= k < |tables|
      ensures |tables[k]| == |parts[k]|
    {
      assert Encodes(schema, tables[k], parts[k], junk);
    }
  }

  // ---- The whole way ----

  lemma {:induction false} NothingBehind(contents: seq<Text>, ids: seq<nat>)
    requires IdsBelow(ids, |contents|) && forall i :: 0 <= i < |contents| ==> contents[i] == []
    ensures Assembled(contents, ids) == []
  {
    if ids != [] {
      NothingBehind(contents, ids[..|ids| - 1]);
    }
  }

  /** A buffer from the server goes through a sink whose pool has not been used yet. */
  method SinkFresh(b: Pushed, f: Layout.Format, schema: Schema, perBuffer: nat, size: nat, header: nat, limit: nat,
                   ghost rows: seq<seq<Text>>, ghost ts: seq<Tuple>, ghost junk: int) returns (text: Text, inside: bool)
    requires Matching(schema) && schema != [] && Encodes(schema, rows, ts, junk) && CanonicalRows(schema, rows) && rows != []
    requires HoldsTuples(b, header, f, schema, perBuffer, ts) && header <= size
    ensures inside <==> !Overruns(rows, MaxTuple(schema), limit, size - header)
    ensures inside ==> text == Kept(rows, MaxTuple(schema), limit)
  {
    var buf := new Byte[|b.bytes|](i requires 0 <= i < |b.bytes| => b.bytes[i]);
    assert buf[..] == b.bytes;
    var n := b.tuples + 1;
    var pool := NewPool(n, size);
    var free := seq(n, k => k);
    ghost var contents: seq<Text> := seq(n, k => []);
    text, inside := SinkBuffer(buf, header, f, schema, perBuffer, pool, free, size, header, limit, b.tuples, rows, ts, junk, contents);
    if inside {
      NothingBehind(contents, free[1..Further(rows, MaxTuple(schema), limit, |rows|) + 1]);
    }
  }

  ghost predicate NoneOverruns(tables: seq<seq<seq<Text>>>, max: nat, limit: nat, room: nat, b: nat)
    requires b <= |tables|
  {
    forall k {:trigger tables[k]} :: 0 <= k < b ==> !Overruns(tables[k], max, limit, room)
  }

  method SinkAll(outs: seq<Pushed>, f: Layout.Format, schema: Schema, perBuffer: nat, size: nat, header: nat, limit: nat,
                 ghost tables: seq<seq<seq<Text>>>, ghost parts: seq<seq<Tuple>>, ghost junk: int) returns (file: Text, inside: bool)
    requires Matching(schema) && schema != [] && perBuffer >= 1 && header <= size
    requires AllEncode(schema, tables, parts, junk) && AllCanonical(schema, tables) && Tight(tables, perBuffer)
    requires AllHoldTuples(outs, header, f, schema, perBuffer, parts)
    ensures inside <==> NoneOverruns(tables, MaxTuple(schema), limit, size - header, |tables|)
    ensures inside ==> file == KeptOf(tables, MaxTuple(schema), limit, |tables|)
  {
    file, inside := [], true;
    var b: nat := 0;
    while b < |outs|
      invariant b <= |outs| && inside && file == KeptOf(tables, MaxTuple(schema), limit, b)
      invariant NoneOverruns(tables, MaxTuple(schema), limit, size - header, b)
    {
      EachHoldsTuples(outs, header, f, schema, perBuffer, parts, b);
      assert Encodes(schema, tables[b], parts[b], junk) && CanonicalRows(schema, tables[b]);
      var text;
      text, inside := SinkFresh(outs[b], f, schema, perBuffer, size, header, limit, tables[b], parts[b], junk);
      if !inside {
        assert Overruns(tables[b], MaxTuple(schema), limit, size - header);
        return;
      }
      file := file + text;
      b := b + 1;
    }
  }

  lemma AllTokens(schema: Schema, rows: seq<seq<Text>>)
    requires CanonicalRows(schema, rows)
    ensures forall i {:trigger Tokens(schema, rows[i])} :: 0 <= i < |rows| ==> Tokens(schema, rows[i])
  {
    forall i | 0 <= i < |rows|
      ensures Tokens(schema, rows[i])
    {
      assert CanonicalRow(schema, rows[i]);
      CanonicalTokens(schema, rows[i]);
    }
  }

  /** The lines whose tuples share a buffer. */
  function Tables(schema: Schema, limit: nat, rows: seq<seq<Text>>): seq<seq<seq<Text>>>
    requires 1 <= TupleSize(schema) <= limit
  {
    Chunks(rows, PerBuffer(schema, limit))
  }

  /** Lines deserialized by the server, sent, serialized by the client and written come out as they went in, in
      either format, if and only if one buffer is enough for the text of every buffer of tuples; and no write goes
      beyond the end of a buffer if and only if none of these texts overruns. */
  method Transfer(payloads: seq<Text>, f: Layout.Format, schema: Schema, header: nat, limit: nat, junk: int, ghost groups: seq<seq<seq<Text>>>)
    returns (file: Text, inside: bool)
    requires Matching(schema) && 1 <= TupleSize(schema) <= limit && AllLinesOf(payloads, groups) && CanonicalRows(schema, Flatten(groups))
    ensures var tables := Tables(schema, limit, Flatten(groups));
            && (inside <==> NoneOverruns(tables, MaxTuple(schema), limit, Room(schema, limit), |tables|))
            && (inside ==> file == KeptOf(tables, MaxTuple(schema), limit, |tables|))
            && (inside ==> (file == Flatten(payloads) <==> AllOneBuffer(tables, MaxTuple(schema), limit, |tables|)))
  {
    var perBuffer := PerBuffer(schema, limit);
    ghost var rows := Flatten(groups);
    AllTokens(schema, rows);
    ghost var ts := TuplesOf(schema, rows, junk);
    var outs := DeserializeAll(payloads, header, f, schema, perBuffer, junk, groups, ts);
    ghost var tables := Tables(schema, limit, rows);
    TablesEncode(schema, limit, rows, ts, junk);
    file, inside := SinkAll(outs, f, schema, perBuffer, header + Room(schema, limit), header, limit, tables, Chunks(ts, perBuffer), junk);
    ChunksFlat(rows, perBuffer);
    KeptOfAll(schema, tables, limit, |tables|);
    SameText(payloads, groups, tables);
  }

  lemma TablesEncode(schema: Schema, limit: nat, rows: seq<seq<Text>>, ts: seq<Tuple>, junk: int)
    requires 1 <= TupleSize(schema) <= limit && Encodes(schema, rows, ts, junk) && CanonicalRows(schema, rows)
    ensures var tables, perBuffer := Tables(schema, limit, rows), PerBuffer(schema, limit);
            AllEncode(schema, tables, Chunks(ts, perBuffer), junk) && AllCanonical(schema, tables) && Tight(tables, perBuffer)
  {
    var perBuffer := PerBuffer(schema, limit);
    var parts := Chunks(ts, perBuffer);
    ChunksFlat(ts, perBuffer);
    ChunksTight(ts, perBuffer);
    var tables := Tabled(schema, rows, ts, parts, junk);
    TightTables(schema, tables, parts, perBuffer, junk);
    ChunksFlat(rows, perBuffer);
    ChunksTight(rows, perBuffer);
    TightIsUnique(tables, Tables(schema, limit, rows), perBuffer);
  }

  // ---- From file to file ----

  ghost predicate LinesOf(lines: seq<Line>, rows: seq<seq<Text>>) {
    |lines| == |rows| && forall i {:trigger lines[i]} :: 0 <= i < |lines| ==> lines[i] == LineText(rows[i])
  }

  lemma {:induction false} LinesFlat(lines: seq<Line>, rows: seq<seq<Text>>)
    requires LinesOf(lines, rows)
    ensures Flatten(lines) == LinesBetween(rows, 0, |rows|)
  {
    if lines != [] {
      var n := |lines| - 1;
      LinesFlat(lines[..n], rows[..n]);
      LinesOfFirst(rows[..n], [rows[n]], n);
      assert rows[..n] + [rows[n]] == rows;
    }
  }

  lemma TextOfGroup(lines: seq<Line>, rows: seq<seq<Text>>)
    requires LinesOf(lines, rows)
    ensures Flatten(lines) == LinesFrom(rows, 0)
  {
    LinesFlat(lines, rows);
    LinesSame(rows, |rows|);
    assert LinesBetween(rows, 0, |rows|) + [] == LinesBetween(rows, 0, |rows|);
  }

  lemma LinesSplit(x: seq<Line>, y: seq<Line>, rows: seq<seq<Text>>)
    requires LinesOf(x + y, rows)
    ensures LinesOf(x, rows[..|x|]) && LinesOf(y, rows[|x|..])
  {
    forall i | 0 <= i < |x|
      ensures x[i] == LineText(rows[i])
    {
      assert (x + y)[i] == x[i];
    }
    forall i | 0 <= i < |y|
      ensures y[i] == LineText(rows[|x| + i])
    {
      assert (x + y)[|x| + i] == y[i];
    }
  }

  /** The rows, grouped as their lines are. */
  lemma {:induction false} Grouped(bs: seq<Packed>, groups: seq<seq<Line>>, rows: seq<seq<Text>>, size: nat, header: nat)
    returns (tables: seq<seq<seq<Text>>>)
    requires LinesOf(Flatten(groups), rows) && AllHold(bs, groups, size, header)
    ensures Flatten(tables) == rows && AllLinesOf(Payloads(bs), tables)
    decreases |groups|
  {
    tables := [];
    if groups != [] {
      var m := |groups| - 1;
      var n := |Flatten(groups[..m])|;
      LinesSplit(Flatten(groups[..m]), groups[m], rows);
      var front := Grouped(bs[..m], groups[..m], rows[..n], size, header);
      TextOfGroup(groups[m], rows[n..]);
      tables := front + [rows[n..]];
      MoreLinesOf(bs, front, rows[n..]);
      FlattenSnoc(front, rows[n..]);
      assert rows == rows[..n] + rows[n..];
    }
  }

  lemma MoreLinesOf(bs: seq<Packed>, front: seq<seq<seq<Text>>>, table: seq<seq<Text>>)
    requires bs != [] && AllLinesOf(Payloads(bs[..|bs| - 1]), front) && bs[|bs| - 1].payload == LinesFrom(table, 0)
    ensures AllLinesOf(Payloads(bs), front + [table])
  {
    var m := |bs| - 1;
    forall k | 0 <= k < |front|
      ensures Payloads(bs)[k] == LinesFrom(front[k], 0)
    {
      assert Payloads(bs[..m])[k] == LinesFrom(front[k], 0);
    }
  }

  function Payloads(bs: seq<Packed>): (r: seq<Text>)
    ensures |r| == |bs| && forall i :: 0 <= i < |r| ==> r[i] == bs[i].payload
  {
    seq(|bs|, i requires 0 <= i < |bs| => bs[i].payload)
  }

  /** A file of canonical lines arrives as it is, or not, on just these conditions. */
  method CopyFile(lines: seq<Line>, f: Layout.Format, schema: Schema, header: nat, limit: nat, junk: int, ghost rows: seq<seq<Text>>)
    returns (file: Text, inside: bool)
    requires Matching(schema) && 1 <= TupleSize(schema) <= limit && CanonicalRows(schema, rows) && LinesOf(lines, rows)
    ensures var tables := Tables(schema, limit, rows);
            && (inside <==>
                && (forall i :: 0 <= i < |lines| ==> |lines[i]| <= Room(schema, limit))
                && NoneOverruns(tables, MaxTuple(schema), limit, Room(schema, limit), |tables|))
            && (inside ==> file == KeptOf(tables, MaxTuple(schema), limit, |tables|))
            && (inside ==> (file == Flatten(lines) <==> AllOneBuffer(tables, MaxTuple(schema), limit, |tables|)))
  {
    var bs;
    bs, inside := PackLines(lines, header + Room(schema, limit), header);
    file := [];
    if inside {
      ghost var packed :| AllHold(bs, packed, header + Room(schema, limit), header) && Flatten(packed) == lines && Snug(packed, header + Room(schema, limit), header);
      ghost var groups := Grouped(bs, packed, rows, header + Room(schema, limit), header);
      file, inside := Transfer(Payloads(bs), f, schema, header, limit, junk, groups);
      SameText(Payloads(bs), groups, groups);
      TextOfFlat(groups, |groups|);
      assert groups[..|groups|] == groups;
      LinesFlat(lines, rows);
    }
  }
}
