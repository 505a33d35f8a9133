/** Splitting a list of buffers at a size, and releasing a whole list. */
module MultiBufferSplit {
  import opened Bytes
  import opened Buffers
  import opened MultiBuffers

  lemma ContentsTake(p: Pools, mb: MultiBuffer, k: nat)
    requires k <= |mb|
    ensures Contents(p, mb[..k]) == Contents(p, mb)[..k] && Contents(p, mb[k..]) == Contents(p, mb)[k..]
  {
  }

  /** Splitting the list splits its bytes. */
  lemma BytesSplit(p: Pools, mb: MultiBuffer, k: nat)
    requires k <= |mb|
    ensures BytesOf(p, mb) == BytesOf(p, mb[..k]) + BytesOf(p, mb[k..])
  {
    ContentsTake(p, mb, k);
    FlattenSplit(Contents(p, mb), k);
  }

  lemma HeldParts(p: Pools, mb: MultiBuffer, k: nat)
    requires k <= |mb| && Held(p, mb)
    ensures Held(p, mb[..k]) && Held(p, mb[k..])
  {
    ApartParts(mb, k);
  }

  lemma BytesGrow(p: Pools, mb: MultiBuffer, k: nat)
    requires k < |mb|
    ensures BytesOf(p, mb[..k + 1]) == BytesOf(p, mb[..k]) + ContentOf(p, mb[k])
  {
    ContentsTake(p, mb, k);
    ContentsTake(p, mb, k + 1);
    FlattenTake(Contents(p, mb), k);
  }

  // ----- how many whole buffers fit, from their lengths alone -----

  /** The first k lengths added up. */
  function Total(lens: seq<nat>, k: nat): nat {
    if k == 0 || k > |lens| then 0 else Total(lens, k - 1) + lens[k - 1]
  }

  /** Where the loop of SplitSize, which adds in 32 bits, stops. */
  ghost predicate StopsAt(lens: seq<nat>, size: int, k: nat) {
    && k <= |lens| && (forall j :: 1 <= j <= k ==> Int32(Total(lens, j)) <= size)
    && (k < |lens| ==> Int32(Total(lens, k + 1)) > size)
  }

  /** The loop has taken k buffers and has their total. */
  ghost predicate GoesOn(lens: seq<nat>, size: int, k: nat, total: int) {
    k <= |lens| && total == Int32(Total(lens, k)) && forall j :: 1 <= j <= k ==> Int32(Total(lens, j)) <= size
  }

  lemma AddsOne(lens: seq<nat>, size: int, k: nat, total: int, n: nat)
    requires GoesOn(lens, size, k, total) && k < |lens| && n == lens[k]
    ensures if Int32(total + n) > size then StopsAt(lens, size, k) else GoesOn(lens, size, k + 1, Int32(total + n))
  {
    Int32Add(Total(lens, k), n);
  }

  /** The sum that first exceeds `size` still fits in 31 bits, if there is one. */
  ghost predicate SumsFit(lens: seq<nat>, size: int) {
    forall j :: 0 <= j < |lens| && Total(lens, j) <= size < Total(lens, j + 1) ==> Total(lens, j + 1) < 0x8000_0000
  }

  ghost predicate Short(lens: seq<nat>) { forall i :: 0 <= i < |lens| ==> lens[i] < 0x8000_0000 }

  lemma {:induction false} TotalsUpTo(lens: seq<nat>, size: int, k: nat, j: nat)
    requires 0 <= size && SumsFit(lens, size) && StopsAt(lens, size, k) && j <= k
    ensures Total(lens, j) <= size
  {
    if j > 0 {
      TotalsUpTo(lens, size, k, j - 1);
      Int32Exact(Total(lens, j));
    }
  }

  lemma {:induction false} TotalsMonotone(lens: seq<nat>, i: nat, j: nat)
    requires i <= j <= |lens|
    ensures Total(lens, i) <= Total(lens, j)
    decreases j
  {
    if i < j { TotalsMonotone(lens, i, j - 1); }
  }

  /** The loop takes as many buffers as fit, exactly when no sum it compares leaves 31 bits. */
  lemma GreedyExactly(lens: seq<nat>, size: int, k: nat)
    requires Short(lens) && 0 <= size < 0x8000_0000 && StopsAt(lens, size, k)
    ensures (Total(lens, k) <= size && (k < |lens| ==> Total(lens, k + 1) > size)) <==> SumsFit(lens, size)
    ensures Total(lens, k) <= size <==> SumsFit(lens, size)
  {
    if k < |lens| { Int32Exact(Total(lens, k + 1)); }
    if SumsFit(lens, size) {
      TotalsUpTo(lens, size, k, k);
    } else {
      var j :| 0 <= j < |lens| && Total(lens, j) <= size < Total(lens, j + 1) && Total(lens, j + 1) >= 0x8000_0000;
      Int32Exact(Total(lens, j + 1));
      if j < k {
        TotalsMonotone(lens, j + 1, k);
      } else if k < j {
        TotalsMonotone(lens, k + 1, j);
      }
    }
  }

  /** Fewer than 2^31 bytes in all is enough for every comparison. */
  lemma ShortListsFit(lens: seq<nat>, size: int)
    requires Total(lens, |lens|) < 0x8000_0000
    ensures SumsFit(lens, size)
  {
    forall j | 0 <= j < |lens| && Total(lens, j) <= size < Total(lens, j + 1)
      ensures Total(lens, j + 1) < 0x8000_0000
    {
      TotalsMonotone(lens, j + 1, |lens|);
    }
  }

  // ----- the same on a list of buffers -----

  function Lengths(cs: seq<Chunk>): (lens: seq<nat>)
    ensures |lens| == |cs|
  {
    seq(|cs|, i requires 0 <= i < |cs| => |cs[i]|)
  }

  ghost function Lens(p: Pools, mb: MultiBuffer): (lens: seq<nat>)
    reads p, p.repr
    ensures |lens| == |mb|
  {
    Lengths(Contents(p, mb))
  }

  lemma {:induction false} TotalIs(p: Pools, mb: MultiBuffer, k: nat)
    requires k <= |mb|
    ensures Total(Lens(p, mb), k) == |BytesOf(p, mb[..k])|
  {
    if k == 0 {
      assert Contents(p, mb[..0]) == [];
    } else {
      TotalIs(p, mb, k - 1);
      BytesGrow(p, mb, k - 1);
    }
  }

  lemma TotalOfAll(p: Pools, mb: MultiBuffer)
    ensures Total(Lens(p, mb), |mb|) == |BytesOf(p, mb)|
  {
    TotalIs(p, mb, |mb|);
    assert mb[..|mb|] == mb;
  }

  lemma LenIs(p: Pools, b: Buffer?)
    requires p.Owned() && (b != null ==> b in p.live)
    ensures if b == null then ContentOf(p, b) == [] else b.Valid() && b.Len() == |ContentOf(p, b)|
    ensures |ContentOf(p, b)| < 0x8000_0000
  {
  }

  lemma LensAt(p: Pools, mb: MultiBuffer, k: nat)
    requires p.Owned() && Held(p, mb) && k < |mb|
    ensures Lens(p, mb)[k] == if mb[k] == null then 0 else mb[k].Len()
  {
    LenIs(p, mb[k]);
  }

  lemma LensShort(p: Pools, mb: MultiBuffer)
    requires p.Owned() && Held(p, mb)
    ensures Short(Lens(p, mb))
  {
    forall i | 0 <= i < |mb| ensures Lens(p, mb)[i] < 0x8000_0000 {
      LenIs(p, mb[i]);
    }
  }

  /** How many whole buffers the loop of SplitSize takes. */
  method WholeBuffers(p: Pools, mb: MultiBuffer, size: int) returns (k: nat)
    requires p.Owned() && Held(p, mb)
    ensures StopsAt(Lens(p, mb), size, k)
  {
    ghost var lens := Lens(p, mb);
    var total := 0;
    k := 0;
    while k < |mb|
      modifies {}
      invariant GoesOn(lens, size, k, total)
    {
      LensAt(p, mb, k);
      var n := if mb[k] == null then 0 else mb[k].Len();
      AddsOne(lens, size, k, total, n);
      if Int32(total + n) > size { return; }
      total := Int32(total + n);
      k := k + 1;
    }
  }

  /** Cuts `size` bytes off the front of the first buffer into a new one. */
  method CutFirst(p: Pools, mb: MultiBuffer, size: nat) returns (b: Buffer)
    requires p.Owned() && Held(p, mb) && mb != [] && mb[0] != null && size < mb[0].Len() && size <= SIZE
    modifies p.repr
    ensures p.Owned() && Held(p, mb) && OthersKept(p, [mb[0]]) && fresh(b) && b in p.live
    ensures b.content + BytesOf(p, mb) == old(BytesOf(p, mb)) && |b.content| == size
  {
    var first := mb[0];
    ghost var cs := Contents(p, mb);
    b := CopyFront(p, first, size);
    assert Contents(p, mb) == cs;
    DropFront(p, mb, size);
    CutLemma(cs, Contents(p, mb), size);
  }

  method CopyFront(p: Pools, from: Buffer, size: nat) returns (b: Buffer)
    requires p.Owned() && from in p.live && size <= from.end - from.start && size <= SIZE
    modifies p, p.pools[1]
    ensures p.Owned() && OthersKept(p, []) && fresh(b) && p.live == old(p.live) + {b}
    ensures b.content == from.content[..size]
  {
    ghost var c := from.content;
    var front := from.Bytes()[..size];
    var n;
    b, n := NewWith(p, front);
    assert front[..n] == front;
  }

  method DropFront(p: Pools, mb: MultiBuffer, size: nat)
    requires p.Owned() && Held(p, mb) && mb != [] && mb[0] != null && size <= mb[0].end - mb[0].start
    modifies mb[0]
    ensures p.Owned() && OthersKept(p, [mb[0]])
    ensures var cs, cs' := old(Contents(p, mb)), Contents(p, mb);
            && cs[0] == cs[0][..size] + cs'[0]
            && forall i :: 1 <= i < |mb| ==> cs'[i] == cs[i]
  {
    ghost var cs := Contents(p, mb);
    ApartAt(mb, 0);
    p.AdvanceBy(mb[0], size);
    assert forall i :: 1 <= i < |mb| ==> ContentOf(p, mb[i]) == cs[i];
  }

  lemma CutLemma(cs: seq<Chunk>, cs': seq<Chunk>, size: nat)
    requires cs != [] && |cs'| == |cs| && size <= |cs[0]| && cs[0] == cs[0][..size] + cs'[0]
    requires forall i :: 1 <= i < |cs| ==> cs'[i] == cs[i]
    ensures cs[0][..size] + Flatten(cs') == Flatten(cs)
  {
    assert cs'[1..] == cs[1..];
    Associative(cs[0][..size], cs'[0], Flatten(cs[1..]));
  }

  /** The part of SplitSize that takes whole buffers. */
  method TakeWhole(p: Pools, mb: MultiBuffer, size: int) returns (rest: MultiBuffer, first: MultiBuffer)
    requires p.Owned() && Held(p, mb) && 0 <= size < 0x8000_0000
    ensures first + rest == mb && Held(p, rest) && Held(p, first)
    ensures BytesOf(p, mb) == BytesOf(p, first) + BytesOf(p, rest)
    ensures Greedy(p, mb, |first|, size) <==> SumsFit(Lens(p, mb), size)
    ensures |BytesOf(p, first)| <= size <==> SumsFit(Lens(p, mb), size)
  {
    var k := WholeBuffers(p, mb, size);
    BytesSplit(p, mb, k);
    HeldParts(p, mb, k);
    first, rest := mb[..k], mb[k..];
    GreedyList(p, mb, size, k);
  }

  lemma GreedyList(p: Pools, mb: MultiBuffer, size: int, k: nat)
    requires p.Owned() && Held(p, mb) && 0 <= size < 0x8000_0000 && StopsAt(Lens(p, mb), size, k)
    ensures Greedy(p, mb, k, size) <==> SumsFit(Lens(p, mb), size)
    ensures |BytesOf(p, mb[..k])| <= size <==> SumsFit(Lens(p, mb), size)
  {
    LensShort(p, mb);
    GreedyExactly(Lens(p, mb), size, k);
    TotalIs(p, mb, k);
    if k < |mb| { TotalIs(p, mb, k + 1); }
  }

  /** The first k buffers hold at most `size` bytes, and one more would be too much. */
  ghost predicate Greedy(p: Pools, mb: MultiBuffer, k: nat, size: int)
    reads p, p.repr
  {
    && k <= |mb| && |BytesOf(p, mb[..k])| <= size
    && (k < |mb| ==> |BytesOf(p, mb[..k + 1])| > size)
  }

  /** SplitSize: at most `size` bytes off the front. If the first buffer alone is longer it is cut;
      otherwise whole buffers are taken, as many as fit, exactly if no sum compared on the way leaves 31
      bits. Cutting a piece longer than a regular buffer (or of negative length) is the one thing that panics. */
  method SplitSize(p: Pools, mb: MultiBuffer, size: int) returns (rest: MultiBuffer, first: MultiBuffer, panicked: bool)
    requires p.Owned() && Held(p, mb) && -0x8000_0000 <= size < 0x8000_0000
    modifies p.repr
    ensures p.Owned() && Held(p, rest) && Held(p, first) && OthersKept(p, if mb == [] then [] else [mb[0]])
    ensures panicked <==> mb != [] && |old(ContentOf(p, mb[0]))| > size && (size < 0 || size > SIZE)
    ensures !panicked ==> old(BytesOf(p, mb)) == BytesOf(p, first) + BytesOf(p, rest)
    ensures !panicked && mb != [] && |old(ContentOf(p, mb[0]))| > size ==> |BytesOf(p, first)| == size && rest == mb
    ensures !panicked && (mb == [] || |old(ContentOf(p, mb[0]))| <= size) ==>
              first + rest == mb && Contents(p, mb) == old(Contents(p, mb))
    ensures mb != [] && |old(ContentOf(p, mb[0]))| <= size ==>
              && (Greedy(p, mb, |first|, size) <==> old(SumsFit(Lens(p, mb), size)))
              && (|BytesOf(p, first)| <= size <==> old(SumsFit(Lens(p, mb), size)))
  {
    rest, first, panicked := mb, [], false;
    if |mb| == 0 { return; }
    LenIs(p, mb[0]);
    var n := if mb[0] == null then 0 else mb[0].Len();
    if n <= size {
      rest, first := TakeWhole(p, mb, size);
    } else if size < 0 || size > SIZE {
      panicked := true;
    } else {
      first := CutList(p, mb, size);
    }
  }

  method CutList(p: Pools, mb: MultiBuffer, size: nat) returns (first: MultiBuffer)
    requires p.Owned() && Held(p, mb) && mb != [] && mb[0] != null && size < mb[0].Len() && size <= SIZE
    modifies p.repr
    ensures p.Owned() && Held(p, mb) && Held(p, first) && OthersKept(p, [mb[0]])
    ensures BytesOf(p, first) + BytesOf(p, mb) == old(BytesOf(p, mb)) && |BytesOf(p, first)| == size
  {
    var b := CutFirst(p, mb, size);
    SingleList(p, b);
    first := [b];
  }

  /** SplitMulti: the list from index `i` on becomes a list of its own; out of range splits nothing. */
  function SplitMulti(mb: MultiBuffer, i: int): (MultiBuffer, MultiBuffer) {
    if 0 <= i < |mb| then (mb[..i], mb[i..]) else (mb, [])
  }

  lemma SplitMultiPartitions(p: Pools, mb: MultiBuffer, i: int)
    ensures BytesOf(p, mb) == BytesOf(p, SplitMulti(mb, i).0) + BytesOf(p, SplitMulti(mb, i).1)
  {
    if 0 <= i < |mb| {
      BytesSplit(p, mb, i);
    }
  }

  /** ReleaseMulti: no managed buffer of the list stays live, and no other buffer is touched. */
  method ReleaseMulti(p: Pools, mb: MultiBuffer)
    requires p.Owned() && Held(p, mb)
    modifies p.repr
    ensures p.Owned() && OthersKept(p, mb) && p.live <= old(p.live)
    ensures forall i :: 0 <= i < |mb| && mb[i] != null && !old(mb[i].unmanaged) ==> mb[i] !in p.live
    ensures Emptied(p, mb, |mb|)
  {
    for i := 0 to |mb|
      invariant p.Owned() && OthersKept(p, mb[..i]) && p.live <= old(p.live)
      invariant forall j :: 0 <= j < i && mb[j] != null && !old(mb[j].unmanaged) ==> mb[j] !in p.live
      invariant Emptied(p, mb, i)
    {
      if mb[i] != null { ApartAt(mb, i); }
      p.Release(mb[i]);
    }
    assert mb[..|mb|] == mb;
  }
}
