/** How lines are divided among reader threads, packed into buffers, and repacked as tuples. */
module Packing {
  import opened Powers
  import opened Words
  import opened TupleBuffer

  function Flatten<T>(ss: seq<seq<T>>): seq<T> {
    if ss == [] then [] else Flatten(ss[..|ss| - 1]) + ss[|ss| - 1]
  }

  lemma FlattenSnoc<T>(ss: seq<seq<T>>, s: seq<T>)
    ensures Flatten(ss + [s]) == Flatten(ss) + s
  {
    assert (ss + [s])[..|ss + [s]| - 1] == ss;
  }

  // ---- Partitions ----

  datatype Part = Part(id: nat, startOff: nat, endOff: nat)

  function PartSize(rows: nat, parts: nat): nat
    requires parts >= 1
  {
    if rows % parts > 0 then rows / parts + 1 else rows / parts
  }

  function PartOf(rows: nat, parts: nat, i: nat): Part
    requires parts >= 1
  {
    Part(i, i * PartSize(rows, parts), if i == parts - 1 then rows else (i + 1) * PartSize(rows, parts))
  }

  /** The least size with which the partitions have room for all rows. */
  lemma PartSizeIsLeast(rows: nat, parts: nat, s: nat)
    requires parts >= 1
    ensures rows <= parts * s <==> PartSize(rows, parts) <= s
  {
    var q, r := rows / parts, rows % parts;
    assert rows == parts * q + r;
    if q < s {
      MulRight(q + 1, s, parts);
    } else {
      MulRight(s, q, parts);
    }
  }

  lemma MulRight(a: int, b: int, c: nat)
    requires a <= b
    ensures c * a <= c * b && c * (a + 1) == c * a + c
  {
    assert c * (b - a) >= 0;
  }

  /** The partitions as they are queued: the last one first. */
  method MakeParts(rows: nat, parts: nat) returns (queue: seq<Part>)
    requires parts >= 1
    ensures |queue| == parts && forall i :: 0 <= i < parts ==> queue[i] == PartOf(rows, parts, parts - 1 - i)
  {
    var partSize := rows / parts;
    if rows % parts > 0 {
      partSize := partSize + 1;
    }
    queue := [];
    var i := parts - 1;
    while i >= 0
      invariant -1 <= i < parts && |queue| == parts - 1 - i
      invariant forall k :: 0 <= k < |queue| ==> queue[k] == PartOf(rows, parts, parts - 1 - k)
    {
      queue := queue + [Part(i, i * partSize, if i == parts - 1 then rows else (i + 1) * partSize)];
      i := i - 1;
    }
  }

  function Min(a: nat, b: nat): nat {
    if a < b then a else b
  }

  /** The lines a reader gets from a partition: those up to its end, or to the end of the file. */
  function LinesOf<T>(lines: seq<T>, p: Part): seq<T> {
    if Min(p.startOff, |lines|) <= Min(p.endOff, |lines|) then lines[Min(p.startOff, |lines|)..Min(p.endOff, |lines|)] else []
  }

  /** Skip to the start of the partition, then read to its end. */
  method ReadPart<T>(lines: seq<T>, p: Part) returns (r: seq<T>)
    ensures r == LinesOf(lines, p)
  {
    var currentLine: nat := 0;
    while currentLine < p.startOff && currentLine < |lines|
      invariant currentLine <= p.startOff && currentLine <= |lines|
    {
      currentLine := currentLine + 1;
    }
    ghost var start := currentLine;
    r := [];
    while currentLine < p.endOff && currentLine < |lines|
      invariant start <= currentLine <= |lines| && (currentLine <= p.endOff || r == []) && r == lines[start..currentLine]
    {
      assert lines[start..currentLine + 1] == lines[start..currentLine] + [lines[currentLine]];
      r := r + [lines[currentLine]];
      currentLine := currentLine + 1;
    }
  }

  function PartLines<T>(lines: seq<T>, parts: nat, n: nat): seq<seq<T>>
    requires parts >= 1 && n <= parts
  {
    seq(n, i requires 0 <= i < n => LinesOf(lines, PartOf(|lines|, parts, i)))
  }

  lemma {:induction false} PartsPrefix<T>(lines: seq<T>, parts: nat, n: nat)
    requires parts >= 1 && n < parts
    ensures Flatten(PartLines(lines, parts, n)) == lines[..Min(n * PartSize(|lines|, parts), |lines|)]
  {
    if n > 0 {
      PartsPrefix(lines, parts, n - 1);
      PartLinesSnoc(lines, parts, n);
      PartIs(|lines|, parts, n - 1);
      NextSlice(lines, (n - 1) * PartSize(|lines|, parts), n * PartSize(|lines|, parts), n - 1);
    }
  }

  lemma PartLinesSnoc<T>(lines: seq<T>, parts: nat, n: nat)
    requires 1 <= n <= parts
    ensures Flatten(PartLines(lines, parts, n)) == Flatten(PartLines(lines, parts, n - 1)) + LinesOf(lines, PartOf(|lines|, parts, n - 1))
  {
    var last := LinesOf(lines, PartOf(|lines|, parts, n - 1));
    assert PartLines(lines, parts, n) == PartLines(lines, parts, n - 1) + [last];
    FlattenSnoc(PartLines(lines, parts, n - 1), last);
  }

  lemma PartIs(rows: nat, parts: nat, i: nat)
    requires i < parts - 1
    ensures PartOf(rows, parts, i) == Part(i, i * PartSize(rows, parts), (i + 1) * PartSize(rows, parts))
    ensures i * PartSize(rows, parts) <= (i + 1) * PartSize(rows, parts)
  {
    MulLeft(i, i + 1, PartSize(rows, parts));
  }

  lemma NextSlice<T>(lines: seq<T>, a: nat, b: nat, id: nat)
    requires a <= b
    ensures lines[..Min(a, |lines|)] + LinesOf(lines, Part(id, a, b)) == lines[..Min(b, |lines|)]
  {
  }

  /** The partitions together are the file: no line is left out and none is read twice. */
  lemma PartsTile<T>(lines: seq<T>, parts: nat)
    requires parts >= 1
    ensures Flatten(PartLines(lines, parts, parts)) == lines
  {
    var n, s := parts - 1, PartSize(|lines|, parts);
    PartsPrefix(lines, parts, n);
    PartLinesSnoc(lines, parts, parts);
    LastSlice(lines, n * s, n);
  }

  lemma LastSlice<T>(lines: seq<T>, a: nat, id: nat)
    ensures lines[..Min(a, |lines|)] + LinesOf(lines, Part(id, a, |lines|)) == lines
  {
  }

  // ---- Packing lines into buffers ----

  type Line = seq<Byte>

  /** A buffer as the reader pushes it. */
  datatype Packed = Packed(payload: Line, tuples: nat)

  /** The buffer holds exactly these lines, and they fit into it; several leave room for a second header. */
  ghost predicate Holds(b: Packed, lines: seq<Line>, size: nat, header: nat) {
    && b.payload == Flatten(lines) && b.tuples == |lines| && header + |b.payload| <= size
    && (|lines| > 1 ==> 2 * header + |b.payload| <= size)
  }

  /** No group ends before its lines and the next one would need more room than that. */
  ghost predicate Snug(groups: seq<seq<Line>>, size: nat, header: nat) {
    |groups| > 1 ==>
      var n := |groups| - 1;
      && groups[n] != [] && 2 * header + |Flatten(groups[n - 1])| + |groups[n][0]| > size
      && Snug(groups[..n], size, header)
  }

  ghost predicate AllHold(bs: seq<Packed>, groups: seq<seq<Line>>, size: nat, header: nat) {
    && |bs| == |groups|
    && (bs != [] ==> Holds(bs[|bs| - 1], groups[|bs| - 1], size, header) && AllHold(bs[..|bs| - 1], groups[..|bs| - 1], size, header))
  }

  /** The buffers hold all the lines, in order and none split, and none was pushed before the next line did not fit;
      there is always one. */
  ghost predicate Packs(bs: seq<Packed>, lines: seq<Line>, size: nat, header: nat) {
    bs != [] && exists groups :: AllHold(bs, groups, size, header) && Flatten(groups) == lines && Snug(groups, size, header)
  }

  lemma SnugMore(groups: seq<seq<Line>>, group: seq<Line>, line: Line, size: nat, header: nat)
    requires Snug(groups + [group], size, header)
    ensures group != [] || groups == [] ==> Snug(groups + [group + [line]], size, header)
    ensures 2 * header + |Flatten(group)| + |line| > size ==> Snug(groups + [group] + [[line]], size, header)
  {
    var n := |groups|;
    assert (groups + [group])[..n] == groups && (groups + [group + [line]])[..n] == groups;
    assert (groups + [group] + [[line]])[..n + 1] == groups + [group];
  }

  lemma HoldMore(bs: seq<Packed>, groups: seq<seq<Line>>, b: Packed, group: seq<Line>, size: nat, header: nat)
    requires AllHold(bs, groups, size, header) && Holds(b, group, size, header)
    ensures AllHold(bs + [b], groups + [group], size, header)
  {
    assert (bs + [b])[..|bs|] == bs && (groups + [group])[..|bs|] == groups;
  }

  /** The first `i` lines are in the buffers pushed and in the one in hand. */
  ghost predicate Underway(cur: Packed, bs: seq<Packed>, groups: seq<seq<Line>>, group: seq<Line>, lines: seq<Line>, i: nat, size: nat, header: nat) {
    && i <= |lines| && Flatten(groups) + group == lines[..i]
    && AllHold(bs, groups, size, header) && Holds(cur, group, size, header)
  }

  /** Nothing was pushed too early, and only at the very start there is nothing in hand. */
  ghost predicate InTime(groups: seq<seq<Line>>, group: seq<Line>, size: nat, header: nat) {
    Snug(groups + [group], size, header) && (group == [] ==> groups == [])
  }

  /** The next line goes behind the others, or alone into a new buffer because it does not fit. */
  lemma InTimeNext(groups: seq<seq<Line>>, group: seq<Line>, line: Line, size: nat, header: nat)
    requires InTime(groups, group, size, header)
    ensures InTime(groups, group + [line], size, header)
    ensures 2 * header + |Flatten(group)| + |line| > size ==> InTime(groups + [group], [] + [line], size, header)
  {
    SnugMore(groups, group, line, size, header);
    assert [] + [line] == [line];
  }

  lemma PushCurrent(cur: Packed, bs: seq<Packed>, groups: seq<seq<Line>>, group: seq<Line>, lines: seq<Line>, i: nat, size: nat, header: nat)
    requires Underway(cur, bs, groups, group, lines, i, size, header) && header <= size
    ensures Underway(Packed([], 0), bs + [cur], groups + [group], [], lines, i, size, header)
  {
    FlattenSnoc(groups, group);
    HoldMore(bs, groups, cur, group, size, header);
    assert Flatten(groups + [group]) + [] == Flatten(groups) + group;
  }

  lemma AddLine(cur: Packed, bs: seq<Packed>, groups: seq<seq<Line>>, group: seq<Line>, lines: seq<Line>, i: nat, size: nat, header: nat)
    requires Underway(cur, bs, groups, group, lines, i, size, header) && i < |lines| && header + |cur.payload| + |lines[i]| <= size
    requires group == [] || 2 * header + |cur.payload| + |lines[i]| <= size
    ensures Underway(Packed(cur.payload + lines[i], cur.tuples + 1), bs, groups, group + [lines[i]], lines, i + 1, size, header)
  {
    FlattenSnoc(group, lines[i]);
    assert lines[..i + 1] == lines[..i] + [lines[i]];
    assert Flatten(groups) + (group + [lines[i]]) == Flatten(groups) + group + [lines[i]];
  }

  lemma PackedAll(cur: Packed, bs: seq<Packed>, groups: seq<seq<Line>>, group: seq<Line>, lines: seq<Line>, size: nat, header: nat)
    requires Underway(cur, bs, groups, group, lines, |lines|, size, header) && InTime(groups, group, size, header)
    ensures Packs(bs + [cur], lines, size, header)
  {
    FlattenSnoc(groups, group);
    assert lines[..|lines|] == lines;
    HoldMore(bs, groups, cur, group, size, header);
  }

  /** What is in the buffer in hand. */
  ghost predicate InHand(buf: array<Byte>, size: nat, header: nat, sizeWritten: nat, tuplesWritten: nat, cur: Packed)
    reads buf
  {
    buf.Length == size && header + sizeWritten <= size && cur == Packed(buf[header..header + sizeWritten], tuplesWritten)
  }

  /** The next line, behind the others or in a new buffer. */
  method PackNext(line: Line, buf0: array<Byte>, size: nat, header: nat, sizeWritten0: nat, tuplesWritten0: nat, bs0: seq<Packed>,
                  ghost cur: Packed, ghost groups0: seq<seq<Line>>, ghost group0: seq<Line>, ghost lines: seq<Line>, ghost i: nat)
    returns (buf: array<Byte>, sizeWritten: nat, tuplesWritten: nat, bs: seq<Packed>, inside: bool,
             ghost cur': Packed, ghost groups: seq<seq<Line>>, ghost group: seq<Line>)
    requires header <= size && InHand(buf0, size, header, sizeWritten0, tuplesWritten0, cur)
    requires i < |lines| && line == lines[i] && Underway(cur, bs0, groups0, group0, lines, i, size, header)
    requires InTime(groups0, group0, size, header)
    modifies buf0
    ensures (buf == buf0 || fresh(buf)) && (inside <==> header + |line| <= size)
    ensures inside ==> InHand(buf, size, header, sizeWritten, tuplesWritten, cur') && Underway(cur', bs, groups, group, lines, i + 1, size, header)
    ensures inside ==> InTime(groups, group, size, header)
  {
    buf, sizeWritten, tuplesWritten, bs := buf0, sizeWritten0, tuplesWritten0, bs0;
    cur', groups, group := cur, groups0, group0;
    InTimeNext(groups, group, line, size, header);
    if header + sizeWritten + |line| > size - header {
      PushCurrent(cur, bs, groups, group, lines, i, size, header);
      bs := bs + [Packed(buf[header..header + sizeWritten], tuplesWritten)];
      groups, group, cur' := groups + [group], [], Packed([], 0);
      buf := new Byte[size];
      sizeWritten, tuplesWritten := 0, 0;
    }
    inside := header + sizeWritten + |line| <= size;
    if inside {
      AddLine(cur', bs, groups, group, lines, i, size, header);
      AppendLine(buf, header, sizeWritten, line);
      group, cur' := group + [line], Packed(cur'.payload + line, cur'.tuples + 1);
      sizeWritten, tuplesWritten := sizeWritten + |line|, tuplesWritten + 1;
    }
  }

  /** The reader's loop.  A line that does not fit behind the others goes into a new buffer, where it may leave no
      room for a second header, or may not fit at all; `inside` is whether every copy stays within its buffer. */
  method PackLines(lines: seq<Line>, size: nat, header: nat) returns (bs: seq<Packed>, inside: bool)
    requires header <= size
    ensures inside <==> forall i :: 0 <= i < |lines| ==> header + |lines[i]| <= size
    ensures inside ==> Packs(bs, lines, size, header)
  {
    var buf := new Byte[size];
    bs, inside := [], true;
    ghost var groups: seq<seq<Line>>, group: seq<Line>, cur := [], [], Packed([], 0);
    var sizeWritten: nat, tuplesWritten: nat, i: nat := 0, 0, 0;
    while i < |lines|
      invariant i <= |lines| && fresh(buf) && inside && forall k :: 0 <= k < i ==> header + |lines[k]| <= size
      invariant InHand(buf, size, header, sizeWritten, tuplesWritten, cur) && Underway(cur, bs, groups, group, lines, i, size, header)
      invariant InTime(groups, group, size, header)
    {
      buf, sizeWritten, tuplesWritten, bs, inside, cur, groups, group :=
        PackNext(lines[i], buf, size, header, sizeWritten, tuplesWritten, bs, cur, groups, group, lines, i);
      if !inside {
        return;
      }
      i := i + 1;
    }
    PackedAll(cur, bs, groups, group, lines, size, header);
    bs := bs + [Packed(buf[header..header + sizeWritten], tuplesWritten)];
  }

  method AppendLine(buf: array<Byte>, header: nat, sizeWritten: nat, line: Line)
    requires header + sizeWritten + |line| <= buf.Length
    modifies buf
    ensures buf[header..header + sizeWritten + |line|] == old(buf[header..header + sizeWritten]) + line
  {
    ghost var was := buf[..];
    StoreCell(buf, header + sizeWritten, line);
    assert buf[header..header + sizeWritten + |line|] == buf[..][header..header + sizeWritten + |line|];
  }

  // ---- Repacking ----

  /** All buffers but the last are full, and the last is not empty. */
  ghost predicate Tight<T>(outs: seq<seq<T>>, perBuffer: nat) {
    && (forall i :: 0 <= i < |outs| - 1 ==> |outs[i]| == perBuffer)
    && (outs != [] ==> 1 <= |outs[|outs| - 1]| <= perBuffer)
  }

  /** Groups of `perBuffer`, and what is left. */
  function Chunks<T>(s: seq<T>, perBuffer: nat): seq<seq<T>>
    requires perBuffer >= 1
    decreases |s|
  {
    if s == [] then []
    else if |s| <= perBuffer then [s]
    else [s[..perBuffer]] + Chunks(s[perBuffer..], perBuffer)
  }

  lemma {:induction false} FlattenCons<T>(s: seq<T>, ss: seq<seq<T>>)
    ensures Flatten([s] + ss) == s + Flatten(ss)
  {
    if ss != [] {
      var n := |ss| - 1;
      FlattenCons(s, ss[..n]);
      assert ([s] + ss)[..n + 1] == [s] + ss[..n];
    } else {
      assert [s] + ss == [] + [s];
      FlattenSnoc([], s);
    }
  }

  lemma {:induction false} ChunksFlat<T>(s: seq<T>, perBuffer: nat)
    requires perBuffer >= 1
    ensures Flatten(Chunks(s, perBuffer)) == s
    decreases |s|
  {
    if |s| > perBuffer {
      ChunksFlat(s[perBuffer..], perBuffer);
      FlattenCons(s[..perBuffer], Chunks(s[perBuffer..], perBuffer));
      assert s[..perBuffer] + s[perBuffer..] == s;
    } else if s != [] {
      FlattenCons(s, []);
    }
  }

  lemma {:induction false} ChunksTight<T>(s: seq<T>, perBuffer: nat)
    requires perBuffer >= 1
    ensures Tight(Chunks(s, perBuffer), perBuffer) && (Chunks(s, perBuffer) == [] ==> s == [])
    decreases |s|
  {
    if |s| > perBuffer {
      ChunksTight(s[perBuffer..], perBuffer);
      TightCons(s[..perBuffer], Chunks(s[perBuffer..], perBuffer), perBuffer);
    }
  }

  lemma TightCons<T>(s: seq<T>, ss: seq<seq<T>>, perBuffer: nat)
    requires Tight(ss, perBuffer) && ss != [] && |s| == perBuffer
    ensures Tight([s] + ss, perBuffer)
  {
  }

  lemma {:induction false} TightLength<T>(outs: seq<seq<T>>, perBuffer: nat)
    requires Tight(outs, perBuffer) && outs != []
    ensures |Flatten(outs)| == (|outs| - 1) * perBuffer + |outs[|outs| - 1]|
  {
    var n := |outs| - 1;
    if n > 0 {
      TightLength(outs[..n], perBuffer);
      OneMore(n - 1, perBuffer);
    } else {
      assert Flatten(outs[..0]) == [];
    }
  }

  lemma SameQuotient(a: int, b: int, x: int, y: int, p: int)
    requires 1 <= x <= p && 1 <= y <= p && a * p + x == b * p + y
    ensures a == b && x == y
  {
    if a < b {
      MulLeft(a + 1, b, p);
      OneMore(a, p);
    } else if b < a {
      MulLeft(b + 1, a, p);
      OneMore(b, p);
    }
  }

  /** What full buffers hold is determined by what they hold together. */
  lemma {:induction false} TightIsUnique<T>(x: seq<seq<T>>, y: seq<seq<T>>, perBuffer: nat)
    requires Tight(x, perBuffer) && Tight(y, perBuffer) && Flatten(x) == Flatten(y)
    ensures x == y
    decreases |x|
  {
    if x != [] && y != [] {
      var n := |x| - 1;
      SameLast(x, y, perBuffer);
      TightFront(x, perBuffer);
      TightFront(y, perBuffer);
      TightIsUnique(x[..n], y[..n], perBuffer);
      assert x == x[..n] + [x[n]] && y == y[..n] + [y[n]];
    }
  }

  lemma TightFront<T>(outs: seq<seq<T>>, perBuffer: nat)
    requires Tight(outs, perBuffer) && outs != []
    ensures Tight(outs[..|outs| - 1], perBuffer)
  {
    assert |outs| > 1 ==> |outs[|outs| - 2]| == perBuffer;
  }

  lemma SameLast<T>(x: seq<seq<T>>, y: seq<seq<T>>, perBuffer: nat)
    requires Tight(x, perBuffer) && Tight(y, perBuffer) && x != [] && y != [] && Flatten(x) == Flatten(y)
    ensures |x| == |y| && x[|x| - 1] == y[|y| - 1] && Flatten(x[..|x| - 1]) == Flatten(y[..|y| - 1])
  {
    TightLength(x, perBuffer);
    TightLength(y, perBuffer);
    SameQuotient(|x| - 1, |y| - 1, |x[|x| - 1]|, |y[|y| - 1]|, perBuffer);
    EqualEnds(Flatten(x[..|x| - 1]), x[|x| - 1], Flatten(y[..|y| - 1]), y[|y| - 1]);
  }

  lemma EqualEnds<T>(a: seq<T>, b: seq<T>, c: seq<T>, d: seq<T>)
    requires a + b == c + d && |b| == |d|
    ensures a == c && b == d
  {
    assert (a + b)[..|a|] == a && (c + d)[..|c|] == c;
    assert (a + b)[|a|..] == b && (c + d)[|c|..] == d;
  }
}
