/** BufferToBytesWriter, the writer of lists of buffers over a connection. */
module ListWriting {
  import opened Bytes
  import opened Buffers
  import opened MultiBuffers
  import opened MultiBufferSplit
  import opened Compaction
  import opened BufferedWriting

  /** net.Buffers.WriteTo over a writer that keeps io.Writer's promise: one slice after the other. */
  method BuffersWriteTo(w: Sink, bs: seq<Chunk>) returns (n: nat, ok: bool)
    requires !w.short
    modifies w
    ensures ok ==> w.received == old(w.received) + Flatten(bs) && n == |Flatten(bs)|
    ensures old(w.received) <= w.received <= old(w.received) + Flatten(bs)
    ensures ok <==> w.failures == old(w.failures)
  {
    n, ok := 0, true;
    for i := 0 to |bs|
      invariant ok && w.received == old(w.received) + Flatten(bs[..i]) && n == |Flatten(bs[..i])|
      invariant w.failures == old(w.failures)
    {
      FlattenTake(bs, i);
      FlattenSplit(bs, i + 1);
      Associative(old(w.received), Flatten(bs[..i]), bs[i]);
      Associative(old(w.received), Flatten(bs[..i + 1]), Flatten(bs[i + 1..]));
      var k;
      k, ok := w.Write(bs[i]);
      n := n + k;
      if !ok { return; }
      assert bs[i][..k] == bs[i];
    }
    assert bs[..|bs|] == bs;
  }

  /** The loop that writes until the 32-bit count of what is left is no longer positive. */
  method WriteUntilCounted(w: Sink, bs: seq<Chunk>) returns (ok: bool)
    requires !w.short
    modifies w
    ensures ok ==> w.received == old(w.received) + if Int32(|Flatten(bs)|) > 0 then Flatten(bs) else []
    ensures Int32(|Flatten(bs)|) <= 0 ==> ok && w.received == old(w.received)
    ensures old(w.received) <= w.received <= old(w.received) + Flatten(bs)
    ensures ok <==> w.failures == old(w.failures)
  {
    var size, nb := Int32(|Flatten(bs)|), bs;
    ok := true;
    while size > 0
      invariant ok && w.failures == old(w.failures)
      invariant if nb == bs && size == Int32(|Flatten(bs)|) then w.received == old(w.received)
                else size == 0 && w.received == old(w.received) + Flatten(bs) && Int32(|Flatten(bs)|) > 0
      decreases size
    {
      var n;
      n, ok := BuffersWriteTo(w, nb);
      if !ok { return; }
      nb, size := [], Int32(size - Int32(n));
    }
  }

  /** The slices of the buffers; a nil one has none to give. */
  method Slices(p: Pools, mb: MultiBuffer) returns (bs: seq<Chunk>)
    requires p.Owned() && Held(p, mb) && null !in mb
    ensures bs == Contents(p, mb)
  {
    bs := [];
    for i := 0 to |mb|
      modifies {}
      invariant bs == Contents(p, mb)[..i]
    {
      var b := mb[i];
      assert b != null;
      bs := bs + [b.Bytes()];
    }
  }

  /** BufferToBytesWriter.WriteMultiBuffer. A call without an error delivers the list if and only if it is
      empty or its 32-bit length is positive, and otherwise nothing of it; the list is released either way. */
  method WriteList(p: Pools, w: Sink, mb: MultiBuffer) returns (ok: bool, panicked: bool)
    requires p.Owned() && Held(p, mb) && w !in p.repr && !w.short
    modifies w, p.repr
    ensures p.Owned() && OthersKept(p, mb)
    ensures panicked <==> |mb| >= 2 && null in mb && Int32(|old(BytesOf(p, mb))|) != 0
    ensures ok && !panicked ==> w.received == old(w.received) + Arriving(true, old(BytesOf(p, mb)))
    ensures Dropped(old(BytesOf(p, mb))) && !panicked ==> ok && w.received == old(w.received)
    ensures ok && !panicked ==>
              (w.received == old(w.received) + old(BytesOf(p, mb)) <==>
                 |old(BytesOf(p, mb))| == 0 || Int32(|old(BytesOf(p, mb))|) > 0)
    ensures old(w.received) <= w.received <= old(w.received) + old(BytesOf(p, mb))
    ensures ok <==> w.failures == old(w.failures)
    ensures forall i :: 0 <= i < |mb| && mb[i] != null && !old(mb[i].unmanaged) ==> mb[i] !in p.live
  {
    ok, panicked := WriteHeldList(p, w, mb);
    ReleaseMulti(p, mb);
  }

  /** All of it but the deferred release. */
  method WriteHeldList(p: Pools, w: Sink, mb: MultiBuffer) returns (ok: bool, panicked: bool)
    requires p.Owned() && Held(p, mb) && w !in p.repr && !w.short
    modifies w
    ensures panicked <==> |mb| >= 2 && null in mb && Int32(|BytesOf(p, mb)|) != 0
    ensures ok && !panicked ==> w.received == old(w.received) + Arriving(true, BytesOf(p, mb))
    ensures Dropped(BytesOf(p, mb)) && !panicked ==> ok && w.received == old(w.received)
    ensures old(w.received) <= w.received <= old(w.received) + BytesOf(p, mb)
    ensures ok <==> w.failures == old(w.failures)
  {
    ok, panicked := true, false;
    assert w.received + [] == w.received;
    var size := Len(p, mb);
    if size == 0 { return; }
    if |mb| == 1 {
      OneBuffer(p, mb);
      ok := WriteAllBytes(w, mb[0].Bytes());
      return;
    }
    if null in mb {
      panicked := true;
      return;
    }
    var bs := Slices(p, mb);
    ok := WriteUntilCounted(w, bs);
  }

  lemma OneBuffer(p: Pools, mb: MultiBuffer)
    requires p.Owned() && Held(p, mb) && |mb| == 1 && BytesOf(p, mb) != []
    ensures mb[0] != null && mb[0] in p.live && BytesOf(p, mb) == mb[0].content && !Dropped(BytesOf(p, mb))
  {
    assert Contents(p, mb) == [ContentOf(p, mb[0])];
    FlattenSingle(ContentOf(p, mb[0]));
    LenIs(p, mb[0]);
  }

  /** Two full buffers of 2^30 bytes make a list of 2^31: nothing is written, and no error returned. */
  method LongListVanishes(p: Pools, w: Sink, x: Block, y: Block) returns (ok: bool, panicked: bool)
    requires p.Owned() && x != y && x.holder == y.holder == Nobody && |x.cells| == |y.cells| == 0x4000_0000
    requires w !in p.repr && !w.short
    modifies p, p.repr, x, y, w
    ensures p.Owned() && !panicked && ok && w.received == old(w.received)
  {
    var a := LongBuffer(p, x);
    var b := LongBuffer(p, y);
    TwoBuffers(p, a, b);
    Int32Exact(0x8000_0000);
    ok, panicked := WriteList(p, w, [a, b]);
  }

  // ----- one buffer after the other -----

  /** The index of the first nil entry, or the length of the list. */
  function FirstNil(mb: MultiBuffer): (k: nat)
    ensures k <= |mb| && null !in mb[..k] && (k < |mb| ==> mb[k] == null)
  {
    if mb == [] || mb[0] == null then 0 else
      var k := 1 + FirstNil(mb[1..]);
      assert mb[..k] == [mb[0]] + mb[1..][..k - 1];
      k
  }

  /** Writes the content of one buffer and releases it. */
  method WriteOne(p: Pools, w: Sink, b: Buffer) returns (ok: bool)
    requires p.Owned() && b in p.live && w !in p.repr && !w.short
    modifies w, p, b, b.v
    ensures p.Owned() && p.repr == old(p.repr) && OthersKept(p, [b])
    ensures p.live <= old(p.live) && (b in p.live ==> b.unmanaged)
    ensures ok ==> w.received == old(w.received) + old(ContentOf(p, b))
    ensures old(w.received) <= w.received <= old(w.received) + old(ContentOf(p, b))
    ensures ok <==> w.failures == old(w.failures)
  {
    var bytes := b.Bytes();
    var n;
    n, ok := w.Write(bytes);
    assert n == |bytes| ==> bytes[..n] == bytes;
    p.Release(b);
  }

  /** The buffers before index i were written and released, the others are as they were. */
  ghost predicate WrittenTo(p: Pools, mb: MultiBuffer, cs: seq<Chunk>, i: nat)
    reads p, p.repr
  {
    && p.Owned() && Apart(mb) && i <= |mb| == |cs|
    && (forall j :: i <= j < |mb| && mb[j] != null ==> mb[j] in p.live)
    && (forall j :: i <= j < |mb| ==> ContentOf(p, mb[j]) == cs[j])
    && Emptied(p, mb, i)
  }

  method WriteStep(p: Pools, w: Sink, mb: MultiBuffer, i: nat, ghost cs: seq<Chunk>, ghost snap: map<Buffer, Look>)
    returns (ok: bool)
    requires i < |mb| && mb[i] != null && WrittenTo(p, mb, cs, i) && KeptSince(p, snap, p.repr, mb)
    requires w !in p.repr && !w.short
    modifies w, p.repr
    ensures WrittenTo(p, mb, cs, i + 1) && KeptSince(p, snap, old(p.repr), mb)
    ensures ok ==> w.received == old(w.received) + cs[i]
    ensures old(w.received) <= w.received <= old(w.received) + cs[i]
    ensures ok <==> w.failures == old(w.failures)
  {
    ApartAt(mb, i);
    ok := WriteOne(p, w, mb[i]);
  }

  /** The loop of WriteMultiBuffer over a plain writer: it ends at the first nil entry as at the list's end. */
  method WriteUpToNil(p: Pools, w: Sink, mb: MultiBuffer, ghost cs: seq<Chunk>, ghost snap: map<Buffer, Look>)
    returns (i: nat, ok: bool)
    requires WrittenTo(p, mb, cs, 0) && KeptSince(p, snap, p.repr, mb) && w !in p.repr && !w.short
    modifies w, p.repr
    ensures WrittenTo(p, mb, cs, i) && KeptSince(p, snap, old(p.repr), mb)
    ensures ok ==> (i == |mb| || mb[i] == null) && null !in mb[..i]
    ensures ok ==> w.received == old(w.received) + Flatten(cs[..i])
    ensures old(w.received) <= w.received <= old(w.received) + Flatten(cs[..i])
    ensures ok <==> w.failures == old(w.failures)
  {
    ghost var repr := p.repr;
    i, ok := 0, true;
    while i < |mb| && mb[i] != null && ok
      invariant WrittenTo(p, mb, cs, i) && KeptSince(p, snap, repr, mb) && null !in mb[..i]
      invariant ok ==> w.received == old(w.received) + Flatten(cs[..i])
      invariant old(w.received) <= w.received <= old(w.received) + Flatten(cs[..i])
      invariant ok <==> w.failures == old(w.failures)
      decreases |mb| - i
    {
      FlattenTake(cs, i);
      Associative(old(w.received), Flatten(cs[..i]), cs[i]);
      ok := WriteStep(p, w, mb, i, cs, snap);
      i := i + 1;
    }
  }

  /** WriteMultiBuffer over a plain writer, and SequentialWriter, which releases what is left. Without an error
      exactly the buffers before the first nil entry were written; what stands behind it is neither written
      nor, without an error, released. */
  method WriteOneByOne(p: Pools, w: Sink, mb: MultiBuffer) returns (ok: bool)
    requires p.Owned() && Held(p, mb) && w !in p.repr && !w.short
    modifies w, p.repr
    ensures p.Owned() && OthersKept(p, mb)
    ensures Emptied(p, mb, if ok then FirstNil(mb) else |mb|)
    ensures ok ==> forall j :: FirstNil(mb) <= j < |mb| && mb[j] != null ==> mb[j] in p.live
    ensures ok ==> w.received == old(w.received) + old(BytesOf(p, mb[..FirstNil(mb)]))
    ensures ok ==> (w.received == old(w.received) + old(BytesOf(p, mb)) <==> old(BytesOf(p, mb[FirstNil(mb)..])) == [])
    ensures old(w.received) <= w.received <= old(w.received) + old(BytesOf(p, mb))
    ensures ok <==> w.failures == old(w.failures)
  {
    ghost var cs := Contents(p, mb);
    BytesSplit(p, mb, FirstNil(mb));
    ContentsTake(p, mb, FirstNil(mb));
    var i;
    i, ok := WriteUpToNil(p, w, mb, cs, Snapshot(p));
    FlattenSplit(cs, i);
    Associative(old(w.received), Flatten(cs[..i]), Flatten(cs[i..]));
    if ok { SameFirstNil(mb, i); }
    if !ok { ReleaseRest(p, mb, i, cs); }
  }

  lemma SameFirstNil(mb: MultiBuffer, i: nat)
    requires i <= |mb| && null !in mb[..i] && (i < |mb| ==> mb[i] == null)
    ensures i == FirstNil(mb)
  {
    var k := FirstNil(mb);
    assert forall j :: 0 <= j < i ==> mb[j] == mb[..i][j];
    assert forall j :: 0 <= j < k ==> mb[j] == mb[..k][j];
  }

  /** After an error the sequential writer releases the leftover list. */
  method ReleaseRest(p: Pools, mb: MultiBuffer, i: nat, ghost cs: seq<Chunk>)
    requires WrittenTo(p, mb, cs, i)
    modifies p.repr
    ensures p.Owned() && OthersKept(p, mb) && Emptied(p, mb, |mb|)
  {
    ApartParts(mb, i);
    ReleaseMulti(p, mb[i..]);
    forall j | 0 <= j < |mb| && mb[j] != null && mb[j] in p.live ensures mb[j] in p.repr && mb[j].unmanaged {
      if j >= i { assert mb[j] == mb[i..][j - i]; }
    }
  }
}
