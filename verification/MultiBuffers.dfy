/** Lists of buffers: splitting, merging and compacting them without losing or reordering a byte. */
module MultiBuffers {
  import opened Bytes
  import opened Buffers

  /** The buffers in order; entries may be nil. */
  type MultiBuffer = seq<Buffer?>

  ghost predicate Differ(mb: MultiBuffer, i: int, j: int) {
    0 <= i < j < |mb| && mb[i] != null ==> mb[i] != mb[j]
  }

  /** No buffer is in the list twice. */
  ghost predicate Apart(mb: MultiBuffer) { forall i, j :: Differ(mb, i, j) }

  lemma ApartAt(mb: MultiBuffer, k: nat)
    requires Apart(mb) && k < |mb| && mb[k] != null
    ensures forall i :: 0 <= i < |mb| && i != k ==> mb[i] != mb[k]
  {
    forall i | 0 <= i < |mb| && i != k ensures mb[i] != mb[k] {
      assert Differ(mb, i, k) && Differ(mb, k, i);
    }
  }

  lemma ApartParts(mb: MultiBuffer, k: nat)
    requires Apart(mb) && k <= |mb|
    ensures Apart(mb[..k]) && Apart(mb[k..])
  {
    forall i, j ensures Differ(mb[..k], i, j) && Differ(mb[k..], i, j) {
      assert Differ(mb, i, j) && Differ(mb, k + i, k + j);
    }
  }

  lemma ApartAppend(mb: MultiBuffer, b: Buffer)
    requires Apart(mb) && b !in mb
    ensures Apart(mb + [b])
  {
    forall i, j ensures Differ(mb + [b], i, j) {
      assert Differ(mb, i, j);
    }
  }

  /** The list consists of different live buffers, and nils. */
  ghost predicate Held(p: Pools, mb: MultiBuffer)
    reads p
  {
    Apart(mb) && forall i :: 0 <= i < |mb| && mb[i] != null ==> mb[i] in p.live
  }

  /** The contents of the buffers, a nil entry counting as empty. */
  ghost function Contents(p: Pools, mb: MultiBuffer): (cs: seq<Chunk>)
    reads p, p.repr
    ensures |cs| == |mb|
  {
    seq(|mb|, i requires 0 <= i < |mb| reads p, p.repr => ContentOf(p, mb[i]))
  }

  ghost function ContentOf(p: Pools, b: Buffer?): Chunk
    reads p, p.repr
  {
    if b == null || b !in p.repr then [] else b.content
  }

  /** The bytes of a list of buffers. */
  ghost function BytesOf(p: Pools, mb: MultiBuffer): Chunk
    reads p, p.repr
  {
    Flatten(Contents(p, mb))
  }

  /** All there is to know about a live buffer. */
  datatype Look = Look(v: Block?, vlen: nat, start: nat, end: nat, unmanaged: bool, content: Chunk)

  ghost function LookOf(b: Buffer): Look
    reads b
  {
    Look(b.v, b.vlen, b.start, b.end, b.unmanaged, b.content)
  }

  /** Only buffers of the list changed or were released; the pools' footprint grew by new objects only. */
  twostate predicate OthersKept(p: Pools, new mb: MultiBuffer)
    reads *
  {
    && old(p.repr) <= p.repr && fresh(p.repr - old(p.repr))
    && (forall b :: b in old(p.live) && b !in mb ==> b in p.live && LookOf(b) == old(LookOf(b)))
  }

  /** The live buffers at some moment. */
  ghost function Snapshot(p: Pools): map<Buffer, Look>
    reads p, p.repr
  {
    map b | b in p.live && b in p.repr :: LookOf(b)
  }

  /** The same as OthersKept, since the moment of the snapshot and with no new object; loops keep this. */
  ghost predicate KeptSince(p: Pools, snap: map<Buffer, Look>, repr: set<object>, mb: MultiBuffer)
    reads p, p.repr
  {
    p.repr == repr && forall b :: b in snap && b !in mb ==> b in p.live && b in p.repr && LookOf(b) == snap[b]
  }

  /** Reads from one buffer and releases it when that empties it. */
  method Drain(p: Pools, b: Buffer, max: nat) returns (part: seq<byte>, emptied: bool)
    requires p.Owned() && b in p.live
    modifies p, b, b.v
    ensures p.Owned() && p.repr == old(p.repr) && OthersKept(p, [b]) && p.live <= old(p.live)
    ensures |part| == Min(max, |old(b.content)|)
    ensures old(b.content) == part + b.content
    ensures emptied == (b.content == [])
    ensures if emptied then b in p.live ==> b.unmanaged else b in p.live
  {
    part := p.ReadOff(b, max);
    emptied := b.Len() == 0;
    if emptied { p.Release(b); }
  }

  /** A chunk list whose first k + 1 chunks were taken but for `left`. */
  lemma SplitInside(cs: seq<Chunk>, k: nat, out: Chunk, left: Chunk)
    requires k < |cs| && Flatten(cs[..k + 1]) == out + left
    ensures Flatten(cs) == out + Flatten([left] + cs[k + 1..])
  {
    FlattenSplit(cs, k + 1);
    FlattenCons(left, cs[k + 1..]);
    Associative(out, left, Flatten(cs[k + 1..]));
  }

  /** What the last of the first d buffers holds. */
  ghost function Left(p: Pools, mb: MultiBuffer, d: nat): Chunk
    reads p, p.repr
  {
    if 0 < d <= |mb| then ContentOf(p, mb[d - 1]) else []
  }

  /** The first d buffers were drained into `out`, but for what the last of them keeps back; `cs` is what the
      list held before, and still holds from index d on. */
  ghost predicate DrainedTo(p: Pools, mb: MultiBuffer, cs: seq<Chunk>, d: nat, out: Chunk, max: nat, stop: bool)
    reads p, p.repr
  {
    && p.Owned() && Apart(mb) && d <= |mb| == |cs| && |out| <= max
    && Flatten(cs[..d]) == out + Left(p, mb, d)
    && (if stop then Left(p, mb, d) != [] && mb[d - 1] in p.live && |out| == max else Left(p, mb, d) == [])
    && (forall i :: d <= i < |mb| && mb[i] != null ==> mb[i] in p.live)
    && (forall i :: d <= i < |mb| ==> ContentOf(p, mb[i]) == cs[i])
    && Emptied(p, mb, if stop then d - 1 else d)
  }

  /** The first k buffers were released, so that none of them is live, unless its owner keeps the array. */
  ghost predicate Emptied(p: Pools, mb: MultiBuffer, k: int)
    reads p, p.repr
  {
    forall i :: 0 <= i < k && i < |mb| && mb[i] != null && mb[i] in p.live ==> mb[i] in p.repr && mb[i].unmanaged
  }

  /** The loop of SplitBytes: drains buffers until one keeps bytes back or none is left. */
  method DrainUpTo(p: Pools, mb: MultiBuffer, max: nat, ghost cs: seq<Chunk>, ghost snap: map<Buffer, Look>)
    returns (d: nat, out: seq<byte>, stop: bool)
    requires DrainedTo(p, mb, cs, 0, [], max, false) && KeptSince(p, snap, p.repr, mb)
    modifies p.repr
    ensures DrainedTo(p, mb, cs, d, out, max, stop) && KeptSince(p, snap, old(p.repr), mb) && (stop || d >= |mb|)
  {
    ghost var repr := p.repr;
    d, out, stop := 0, [], false;
    while d < |mb| && !stop
      invariant DrainedTo(p, mb, cs, d, out, max, stop) && KeptSince(p, snap, repr, mb)
    {
      out, stop := DrainStep(p, mb, cs, d, out, max, snap);
      d := d + 1;
    }
  }

  method DrainStep(p: Pools, mb: MultiBuffer, ghost cs: seq<Chunk>, d: nat, out: seq<byte>, max: nat,
                   ghost snap: map<Buffer, Look>)
    returns (out': seq<byte>, stop: bool)
    requires d < |mb| && DrainedTo(p, mb, cs, d, out, max, false) && KeptSince(p, snap, p.repr, mb)
    modifies p.repr
    ensures DrainedTo(p, mb, cs, d + 1, out', max, stop) && KeptSince(p, snap, old(p.repr), mb)
  {
    FlattenTake(cs, d);
    if mb[d] != null { ApartAt(mb, d); }
    out', stop := DrainNext(p, mb[d], out, max);
  }

  /** One round of it: moves bytes of one buffer behind `out`. */
  method DrainNext(p: Pools, b: Buffer?, out: seq<byte>, max: nat) returns (out': seq<byte>, stop: bool)
    requires p.Owned() && (b != null ==> b in p.live) && |out| <= max
    modifies p.repr
    ensures p.Owned() && p.repr == old(p.repr) && OthersKept(p, [b]) && |out'| <= max
    ensures p.live <= old(p.live) && (!stop && b != null && b in p.live ==> b.unmanaged)
    ensures out + old(ContentOf(p, b)) == out' + ContentOf(p, b)
    ensures stop <==> ContentOf(p, b) != []
    ensures stop ==> b in p.live && |out'| == max
  {
    out', stop := out, false;
    if b != null {
      var part, emptied := Drain(p, b, max - |out|);
      Associative(out, part, b.content);
      out', stop := out + part, !emptied;
    }
  }

  /** The loop, from its start. */
  method DrainFrom(p: Pools, mb: MultiBuffer, max: nat) returns (d: nat, out: seq<byte>, stop: bool)
    requires p.Owned() && Held(p, mb)
    modifies p.repr
    ensures DrainedTo(p, mb, old(Contents(p, mb)), d, out, max, stop) && (stop || d >= |mb|)
    ensures p.repr == old(p.repr) && OthersKept(p, mb)
  {
    d, out, stop := DrainUpTo(p, mb, max, Contents(p, mb), Snapshot(p));
  }

  /** SplitBytes: moves the first `max` bytes out, or all there are, and releases emptied buffers. */
  method SplitBytes(p: Pools, mb: MultiBuffer, max: nat) returns (rest: MultiBuffer, out: seq<byte>)
    requires p.Owned() && Held(p, mb)
    modifies p.repr
    ensures p.Owned() && Held(p, rest) && OthersKept(p, mb)
    ensures |rest| <= |mb| && rest == mb[|mb| - |rest|..]
    ensures |out| == Min(max, |old(BytesOf(p, mb))|)
    ensures old(BytesOf(p, mb)) == out + BytesOf(p, rest)
    ensures Emptied(p, mb, |mb| - |rest|)
  {
    ghost var cs := Contents(p, mb);
    var d, stop;
    d, out, stop := DrainFrom(p, mb, max);
    rest := if stop then mb[d - 1..] else [];
    AfterDrain(p, mb, cs, d, out, max, stop, rest);
  }

  /** What is left is the buffer that kept bytes back, if any, and the untouched ones behind it. */
  lemma AfterDrain(p: Pools, mb: MultiBuffer, cs: seq<Chunk>, d: nat, out: Chunk, max: nat, stop: bool,
                   rest: MultiBuffer)
    requires DrainedTo(p, mb, cs, d, out, max, stop) && (stop || d >= |mb|)
    requires rest == if stop then mb[d - 1..] else []
    ensures Held(p, rest) && |rest| <= |mb| && rest == mb[|mb| - |rest|..]
    ensures Flatten(cs) == out + BytesOf(p, rest) && |out| == Min(max, |Flatten(cs)|)
    ensures Emptied(p, mb, |mb| - |rest|)
  {
    if stop {
      ApartParts(mb, d - 1);
      KeptBack(p, mb, cs, d, out);
    } else {
      assert cs[..d] == cs && Contents(p, rest) == [];
    }
  }

  lemma KeptBack(p: Pools, mb: MultiBuffer, cs: seq<Chunk>, d: nat, out: Chunk)
    requires 0 < d <= |mb| == |cs| && Flatten(cs[..d]) == out + ContentOf(p, mb[d - 1])
    requires forall i :: d <= i < |mb| ==> ContentOf(p, mb[i]) == cs[i]
    ensures Flatten(cs) == out + BytesOf(p, mb[d - 1..])
  {
    var left := ContentOf(p, mb[d - 1]);
    SplitInside(cs, d - 1, out, left);
    assert Contents(p, mb[d - 1..]) == [left] + cs[d..];
  }

  // ----- merging -----

  lemma BytesAppend(p: Pools, a: MultiBuffer, b: MultiBuffer)
    requires p.Owned() && Held(p, a + b) && Held(p, a) && Held(p, b)
    ensures BytesOf(p, a + b) == BytesOf(p, a) + BytesOf(p, b)
  {
    assert Contents(p, a + b) == Contents(p, a) + Contents(p, b);
    FlattenAppend(Contents(p, a), Contents(p, b));
  }

  lemma HeldAppend(p: Pools, mb: MultiBuffer, b: Buffer)
    requires p.Owned() && Held(p, mb) && b in p.live && b !in mb
    ensures Held(p, mb + [b]) && BytesOf(p, mb + [b]) == BytesOf(p, mb) + b.content
  {
    ApartAppend(mb, b);
    SingleList(p, b);
    BytesAppend(p, mb, [b]);
  }

  lemma SingleList(p: Pools, b: Buffer)
    requires p.Owned() && b in p.live
    ensures Held(p, [b]) && BytesOf(p, [b]) == b.content
  {
    assert forall i, j :: Differ([b], i, j);
    assert Contents(p, [b]) == [b.content];
    FlattenSingle(b.content);
  }

  /** MergeMulti: the source's buffers go behind the destination's and the source is left empty. */
  function MergeMulti(dest: MultiBuffer, src: MultiBuffer): (MultiBuffer, MultiBuffer) { (dest + src, []) }

  lemma MergeMultiAppends(p: Pools, dest: MultiBuffer, src: MultiBuffer)
    requires p.Owned() && Held(p, dest + src) && Held(p, dest) && Held(p, src)
    ensures var (merged, left) := MergeMulti(dest, src);
            && Held(p, merged) && BytesOf(p, merged) == BytesOf(p, dest) + BytesOf(p, src)
            && BytesOf(p, left) == []
  {
    BytesAppend(p, dest, src);
    assert Contents(p, []) == [];
  }

  method NewEmpty(p: Pools) returns (b: Buffer)
    requires p.Owned()
    modifies p, p.pools[1]
    ensures p.Owned() && OthersKept(p, []) && fresh(b) && p.live == old(p.live) + {b}
    ensures b.vlen == SIZE && b.start == b.end == 0 && !b.unmanaged && b.content == []
  {
    b := p.New();
  }

  /** A new buffer with as much of `src` as it takes. */
  method NewWith(p: Pools, src: seq<byte>) returns (b: Buffer, n: nat)
    requires p.Owned()
    modifies p, p.pools[1]
    ensures p.Owned() && OthersKept(p, []) && fresh(b) && p.live == old(p.live) + {b}
    ensures n == Min(|src|, SIZE) && b.content == src[..n]
  {
    b := NewEmpty(p);
    n := p.WriteTo(b, src);
  }

  /** A new buffer behind the list, filled with as much of `src` as it takes. */
  method AppendOne(p: Pools, mb: MultiBuffer, src: seq<byte>) returns (r: MultiBuffer, n: nat)
    requires p.Owned() && Held(p, mb)
    modifies p.repr
    ensures p.Owned() && Held(p, r) && OthersKept(p, []) && |r| == |mb| + 1 && mb <= r && fresh(r[|mb|])
    ensures n == Min(|src|, SIZE)
    ensures BytesOf(p, r) == old(BytesOf(p, mb)) + src[..n]
  {
    ghost var cs := Contents(p, mb);
    var b;
    b, n := NewWith(p, src);
    assert Contents(p, mb) == cs;
    HeldAppend(p, mb, b);
    r := mb + [b];
  }

  lemma TakeMore(base: Chunk, src: seq<byte>, k: nat, n: nat)
    requires k + n <= |src|
    ensures base + src[..k] + src[k..][..n] == base + src[..k + n]
  {
    assert src[..k] + src[k..][..n] == src[..k + n];
  }

  /** The loop of MergeBytes: new buffers for `src` from position `from` on. */
  method AppendAll(p: Pools, mb: MultiBuffer, src: seq<byte>, from: nat) returns (r: MultiBuffer)
    requires p.Owned() && Held(p, mb) && from <= |src|
    modifies p.repr
    ensures p.Owned() && Held(p, r) && OthersKept(p, []) && mb <= r
    ensures forall i :: |mb| <= i < |r| ==> r[i] != null && fresh(r[i])
    ensures forall base :: old(BytesOf(p, mb)) == base + src[..from] ==> BytesOf(p, r) == base + src
  {
    r := mb;
    var k := from;
    while k < |src|
      invariant from <= k <= |src| && p.Owned() && Held(p, r) && OthersKept(p, []) && mb <= r
      invariant forall i :: |mb| <= i < |r| ==> r[i] != null && fresh(r[i])
      invariant forall base :: old(BytesOf(p, mb)) == base + src[..from] ==> BytesOf(p, r) == base + src[..k]
    {
      var n;
      ghost var before := BytesOf(p, r);
      r, n := AppendOne(p, r, src[k..]);
      forall base | before == base + src[..k] ensures BytesOf(p, r) == base + src[..k + n] {
        TakeMore(base, src, k, n);
      }
      k := k + n;
    }
    assert src[..k] == src;
  }

  /** New buffers that hold exactly `src`. */
  method ListOf(p: Pools, src: seq<byte>) returns (mb: MultiBuffer)
    requires p.Owned()
    modifies p.repr
    ensures p.Owned() && Held(p, mb) && OthersKept(p, []) && BytesOf(p, mb) == src
    ensures forall i :: 0 <= i < |mb| ==> mb[i] != null && fresh(mb[i])
  {
    assert BytesOf(p, []) == [] + src[..0];
    mb := AppendAll(p, [], src, 0);
    assert [] + src == src;
  }

  /** MergeBytes: fills the last buffer, then new ones, so that exactly `src` is appended. A nil last
      entry is the one thing it cannot take. */
  method MergeBytes(p: Pools, dest: MultiBuffer, src: seq<byte>) returns (r: MultiBuffer)
    requires p.Owned() && Held(p, dest) && (dest != [] ==> dest[|dest| - 1] != null)
    modifies p.repr
    ensures p.Owned() && Held(p, r) && dest <= r
    ensures OthersKept(p, if dest == [] then [] else [dest[|dest| - 1]])
    ensures BytesOf(p, r) == old(BytesOf(p, dest)) + src
  {
    var n := 0;
    ghost var base := BytesOf(p, dest);
    if |dest| > 0 && !dest[|dest| - 1].IsFull() {
      n := TopUp(p, dest, src);
    }
    assert BytesOf(p, dest) == base + src[..n];
    r := AppendAll(p, dest, src, n);
  }

  /** Buffer.Write, as the other buffers see it. */
  method WriteBeside(p: Pools, b: Buffer, src: seq<byte>) returns (n: nat)
    requires p.Owned() && b in p.live
    modifies b, b.v
    ensures p.Owned() && b in p.live && OthersKept(p, [b])
    ensures n <= |src| && ContentOf(p, b) == old(ContentOf(p, b)) + src[..n]
  {
    n := p.WriteTo(b, src);
  }

  /** Writes what fits behind the last buffer's content. */
  method TopUp(p: Pools, mb: MultiBuffer, src: seq<byte>) returns (n: nat)
    requires p.Owned() && Held(p, mb) && mb != [] && mb[|mb| - 1] != null
    modifies mb[|mb| - 1], mb[|mb| - 1].v
    ensures p.Owned() && Held(p, mb) && OthersKept(p, [mb[|mb| - 1]])
    ensures n <= |src| && BytesOf(p, mb) == old(BytesOf(p, mb)) + src[..n]
  {
    var k := |mb| - 1;
    ghost var cs := Contents(p, mb);
    ApartAt(mb, k);
    n := WriteBeside(p, mb[k], src);
    LastGrows(cs, Contents(p, mb), src[..n]);
  }

  lemma LastGrows(cs: seq<Chunk>, cs': seq<Chunk>, more: Chunk)
    requires |cs'| == |cs| > 0 && cs'[|cs| - 1] == cs[|cs| - 1] + more
    requires forall i :: 0 <= i < |cs| - 1 ==> cs'[i] == cs[i]
    ensures Flatten(cs') == Flatten(cs) + more
  {
    var k := |cs| - 1;
    assert cs'[..k] == cs[..k] && cs[..k + 1] == cs && cs'[..k + 1] == cs';
    FlattenTake(cs, k);
    FlattenTake(cs', k);
    Associative(Flatten(cs[..k]), cs[k], more);
  }
}
