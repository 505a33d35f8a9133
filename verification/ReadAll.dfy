/** Reading a whole byte source into buffers, and the scatter read over several buffers at once. */
module ReadAll {
  import opened Bytes
  import opened Buffers
  import opened MultiBuffers
  import opened MultiBufferSplit
  import opened BufferedWriting
  import opened BufferedReading

  /** An io.Reader over finite input; each read gives at least one byte or an error, or both. */
  class ByteReader {
    var remaining: seq<byte>
    ghost var lastErr: Option<ReadError>  // the error of the latest answer
    ghost var breaks: nat  // how many answers had an error that is not end of file

    method Read(max: nat) returns (out: seq<byte>, err: Option<ReadError>)
      requires max > 0
      modifies this
      ensures old(remaining) == out + remaining && |out| <= max
      ensures out != [] || err.Some?
      ensures err == Some(Eof) ==> remaining == []
      ensures lastErr == err && breaks == old(breaks) + if err.None? || err == Some(Eof) then 0 else 1
    {
      var most := Min(max, |remaining|);
      var n: nat :| n <= most;
      out, remaining := remaining[..n], remaining[n..];
      var failed: bool :| out == [] ==> failed;
      var e: ReadError :| e == Eof ==> remaining == [];
      err := if failed then Some(e) else None;
      lastErr := err;
      if err.Some? && err != Some(Eof) { breaks := breaks + 1; }
    }

    /** readv(2): some bytes, or an error, or nothing at the end of the input. */
    method Scatter(max: nat) returns (out: Option<seq<byte>>)
      requires max > 0
      modifies this
      ensures out.None? ==> remaining == old(remaining)
      ensures out.Some? ==> old(remaining) == out.value + remaining && |out.value| <= max
      ensures out == Some([]) ==> remaining == []
      ensures lastErr == if out.None? then Some(Broken) else if out.value == [] then Some(Eof) else None
    {
      var failed: bool :| true;
      lastErr := if failed then Some(Broken) else if remaining == [] then Some(Eof) else None;
      if failed { return None; }
      if remaining == [] { return Some([]); }
      var most := Min(max, |remaining|);
      var n: nat :| 0 < n <= most;
      out, remaining := Some(remaining[..n]), remaining[n..];
    }
  }

  /** The source answered end of file, or something else (again) since there were `breaks` such answers. */
  ghost predicate EndedOrBroke(r: ByteReader, breaks: nat)
    reads r
  {
    r.lastErr == Some(Eof) || r.breaks > breaks
  }

  /** io.ReadFull: exactly `size` bytes, or an error and what came before it; end of file after some bytes
      becomes an unexpected one. */
  method ReadFull(r: ByteReader, size: nat) returns (out: seq<byte>, err: Option<ReadError>)
    modifies r
    ensures old(r.remaining) == out + r.remaining && |out| <= size
    ensures err.None? <==> |out| == size
    ensures err.Some? ==> err == if r.lastErr == Some(Eof) && out != [] then Some(UnexpectedEof) else r.lastErr
    ensures r.breaks >= old(r.breaks) && (err.Some? ==> EndedOrBroke(r, old(r.breaks)))
    ensures err.Some? && r.lastErr == Some(Eof) ==> r.remaining == []
  {
    out := [];
    while |out| < size
      invariant old(r.remaining) == out + r.remaining && |out| <= size && r.breaks >= old(r.breaks)
      decreases size - |out|
    {
      var part;
      part, err := r.Read(size - |out|);
      Associative(out, part, r.remaining);
      out := out + part;
      if err.Some? && |out| < size {
        if err == Some(Eof) && |out| > 0 { err := Some(UnexpectedEof); }
        return;
      }
    }
    err := None;
  }

  /** buf.ReadFrom: SIZE bytes per buffer until the source ends or fails. It reports a failure if and only if the
      source's last answer was an error that is neither kind of end of file; what a source had left when it
      answered an unexpected end is missing without an error. */
  method ReadFrom(p: Pools, r: ByteReader) returns (mb: MultiBuffer, failed: bool)
    requires p.Owned() && r !in p.repr
    modifies r, p.repr
    ensures p.Owned() && Held(p, mb) && old(p.repr) <= p.repr && fresh(p.repr - old(p.repr))
    ensures old(r.remaining) == BytesOf(p, mb) + r.remaining
    ensures r.lastErr.Some? && (failed <==> r.lastErr == Some(Broken))
    ensures r.lastErr == Some(Eof) ==> r.remaining == []
    ensures EndedOrBroke(r, old(r.breaks))
  {
    mb := [];
    assert BytesOf(p, []) == [];
    while true
      invariant p.Owned() && Held(p, mb) && old(p.repr) <= p.repr && fresh(p.repr - old(p.repr)) && r !in p.repr
      invariant old(r.remaining) == BytesOf(p, mb) + r.remaining && r.breaks >= old(r.breaks)
      decreases |r.remaining|
    {
      var err;
      mb, err := ReadMore(p, r, mb);
      match err {
        case None =>
        case Some(Eof) => return mb, false;
        case Some(UnexpectedEof) => return mb, false;
        case Some(Broken) => return mb, true;
      }
    }
  }

  /** One round of its loop. */
  method ReadMore(p: Pools, r: ByteReader, mb: MultiBuffer) returns (mb': MultiBuffer, err: Option<ReadError>)
    requires p.Owned() && Held(p, mb) && r !in p.repr
    modifies r, p.repr
    ensures p.Owned() && Held(p, mb') && old(p.repr) <= p.repr && fresh(p.repr - old(p.repr)) && r !in p.repr
    ensures BytesOf(p, mb') + r.remaining == old(BytesOf(p, mb) + r.remaining)
    ensures err.None? ==> |r.remaining| < |old(r.remaining)|
    ensures err.Some? ==> r.lastErr.Some? && (err == Some(Broken) <==> r.lastErr == Some(Broken))
    ensures err.Some? && r.lastErr == Some(Eof) ==> r.remaining == []
    ensures r.breaks >= old(r.breaks) && (err.Some? ==> EndedOrBroke(r, old(r.breaks)))
  {
    ghost var before := BytesOf(p, mb);
    var out;
    out, err := ReadFull(r, SIZE);
    Associative(before, out, r.remaining);
    mb' := mb;
    if |out| > 0 {
      var n;
      mb', n := AppendOne(p, mb, out);
      assert out[..n] == out;
    }
  }

  datatype Gathering = Got(bytes: seq<byte>) | ReadError | Panic

  /** ReadAllToBytes: the length of what was read is kept in 32 bits, so the bytes returned are the first
      Int32(total) of them, and a negative length panics. It fails if and only if the source's last answer was
      an error that is neither kind of end of file. Unless it fails, the result is the whole source if and only
      if all of it was read and that is fewer than 2^31 bytes; so a shorter source that never answers anything
      but bytes and end of file is always returned whole. */
  method ReadAllToBytes(p: Pools, r: ByteReader) returns (result: Gathering, ghost read: seq<byte>)
    requires p.Owned() && r !in p.repr
    modifies r, p.repr
    ensures p.Owned() && old(r.remaining) == read + r.remaining
    ensures result.ReadError? <==> r.lastErr == Some(Broken)
    ensures var n := Int32(|read|);
            !result.ReadError? ==> result == if n < 0 then Panic else Got(read[..n])
    ensures !result.ReadError? ==>
              (result == Got(old(r.remaining)) <==> r.remaining == [] && |old(r.remaining)| < 0x8000_0000)
    ensures r.lastErr == Some(Eof) ==> r.remaining == []
    ensures r.breaks == old(r.breaks) ==> r.lastErr == Some(Eof)
    ensures r.breaks == old(r.breaks) && |old(r.remaining)| < 0x8000_0000 ==> result == Got(old(r.remaining))
  {
    var mb, failed := ReadFrom(p, r);
    read := BytesOf(p, mb);
    Int32Exact(|read|);
    assert read[..|read|] == read;
    if failed { return ReadError, read; }
    var n := Len(p, mb);
    if n == 0 { return Got([]), read; }
    if n < 0 { return Panic, read; }
    var rest, out := SplitBytes(p, mb, n);
    assert out == read[..n];
    ReleaseMulti(p, rest);
    result := Got(out);
  }

  /** A source of 2^31 bytes that only ever ends panics, one of 2^32 gives nothing and one of 2^32 + 5 its
      first five bytes: no error. */
  method ReadLongSource(p: Pools, r: ByteReader) returns (result: Gathering)
    requires p.Owned() && r !in p.repr
    modifies r, p.repr
    ensures r.lastErr == Some(Eof) && |old(r.remaining)| == 0x8000_0000 ==> result == Panic
    ensures r.lastErr == Some(Eof) && |old(r.remaining)| == 0x1_0000_0000 ==> result == Got([])
    ensures r.lastErr == Some(Eof) && |old(r.remaining)| == 0x1_0000_0005 ==> result == Got(old(r.remaining)[..5])
    ensures r.breaks == old(r.breaks) ==> r.lastErr == Some(Eof)
  {
    LongLengths();
    ghost var read;
    result, read := ReadAllToBytes(p, r);
  }

  lemma LongLengths()
    ensures Int32(0x8000_0000) < 0 && Int32(0x1_0000_0000) == 0 && Int32(0x1_0000_0005) == 5
  {
  }

  // ----- scatter read -----

  /** How many buffers the next scatter read offers. */
  class AllocStrategy {
    var current: nat

    constructor ()
      ensures current == 1
    {
      current := 1;
    }

    /** Doubles after a full read, otherwise follows the last read; always between 1 and 8. */
    method Adjust(n: nat)
      requires 1 <= current <= 8
      modifies this
      ensures 1 <= current <= 8
      ensures n >= old(current) ==> current == Min(2 * old(current), 8)
      ensures n < old(current) ==> current == if n == 0 then 1 else n
    {
      if n >= current {
        current := current * 2;
      } else {
        current := n;
      }
      if current > 8 { current := 8; }
      if current == 0 { current := 1; }
    }
  }

  /** The part of `data` that readv puts into the i-th buffer. */
  function Share(data: seq<byte>, i: nat): seq<byte> {
    if i * SIZE >= |data| then [] else data[i * SIZE..Min(|data|, (i + 1) * SIZE)]
  }

  function Shares(data: seq<byte>, k: nat): (ss: seq<Chunk>)
    ensures |ss| == k && forall i :: 0 <= i < k ==> ss[i] == Share(data, i)
  {
    if k == 0 then [] else Shares(data, k - 1) + [Share(data, k - 1)]
  }

  /** The shares of the first k buffers are the first k * SIZE bytes. */
  lemma {:induction false} SharesConcatenate(data: seq<byte>, k: nat)
    ensures Flatten(Shares(data, k)) == data[..Min(|data|, k * SIZE)]
  {
    if k > 0 {
      SharesConcatenate(data, k - 1);
      FlattenAppend(Shares(data, k - 1), [Share(data, k - 1)]);
      FlattenSingle(Share(data, k - 1));
    }
  }

  /** New, still empty regular buffers. */
  ghost predicate Offered(p: Pools, bs: seq<Buffer>, i: nat)
    reads p, p.repr
  {
    forall j :: i <= j < |bs| ==> bs[j] in p.live && bs[j] in p.repr && bs[j].start == bs[j].end == 0
                                  && bs[j].vlen == SIZE && !bs[j].unmanaged
  }

  /** Every buffer that is live now was live before or is in the list. */
  twostate predicate OnlyAdds(p: Pools, new mb: MultiBuffer)
    reads p
  {
    forall b :: b in p.live ==> b in old(p.live) || b in mb
  }

  /** allocStrategy.Alloc. */
  method Offer(p: Pools, count: nat) returns (bs: seq<Buffer>)
    requires p.Owned()
    modifies p.repr
    ensures p.Owned() && |bs| == count && Apart(bs) && Offered(p, bs, 0)
    ensures OthersKept(p, []) && OnlyAdds(p, bs) && forall i :: 0 <= i < |bs| ==> fresh(bs[i])
  {
    bs := [];
    while |bs| < count
      invariant p.Owned() && |bs| <= count && Apart(bs) && Offered(p, bs, 0)
      invariant OthersKept(p, []) && OnlyAdds(p, bs) && forall i :: 0 <= i < |bs| ==> fresh(bs[i])
      decreases count - |bs|
    {
      var b := p.New();
      ApartAppend(bs, b);
      bs := bs + [b];
    }
  }

  /** The buffer's array begins with `share`, though its window is still empty. */
  ghost predicate Loaded(b: Buffer, share: Chunk)
    reads b, b.v
  {
    b.v != null && |share| <= |b.v.cells| && b.v.cells[..|share|] == share
  }

  lemma ShareLen(data: seq<byte>, i: nat)
    ensures |Share(data, i)| == Min(SIZE, |data| - Min(|data|, i * SIZE))
  {
  }

  /** The shares of the first i arrays are in place. */
  ghost predicate Filled(p: Pools, bs: seq<Buffer>, i: nat, data: seq<byte>)
    reads p, p.repr
  {
    p.Owned() && Apart(bs) && Offered(p, bs, 0) && FilledUpTo(p, bs, i, data)
  }

  ghost predicate FilledUpTo(p: Pools, bs: seq<Buffer>, i: nat, data: seq<byte>)
    reads p, p.repr
  {
    forall j :: 0 <= j < i && j < |bs| && bs[j] in p.repr && bs[j].v in p.repr ==> Loaded(bs[j], Share(data, j))
  }

  /** The kernel fills one array. */
  method FillOne(p: Pools, bs: seq<Buffer>, i: nat, data: seq<byte>)
    requires i < |bs| && Filled(p, bs, i, data)
    modifies bs[i].v
    ensures Filled(p, bs, i + 1, data) && OthersKept(p, [bs[i]])
  {
    ShareLen(data, i);
    ApartAt(bs, i);
    var share, v := Share(data, i), bs[i].v;
    v.cells := share + v.cells[|share|..];
  }

  /** readv: the kernel fills the arrays one after the other; the buffers do not know yet. */
  method Readv(p: Pools, bs: seq<Buffer>, data: seq<byte>)
    requires p.Owned() && Apart(bs) && Offered(p, bs, 0)
    modifies p.repr
    ensures Declared(p, bs, 0, data) && p.repr == old(p.repr) && p.live == old(p.live) && OthersKept(p, bs)
  {
    for i := 0 to |bs|
      invariant Filled(p, bs, i, data) && p.repr == old(p.repr) && p.live == old(p.live) && OthersKept(p, bs)
    {
      FillOne(p, bs, i, data);
    }
  }

  /** How many buffers `n` bytes reach into. */
  function Needed(n: nat): nat { (n + SIZE - 1) / SIZE }

  /** How many of `n` bytes the first k buffers leave. */
  function Beyond(n: nat, k: nat): nat { if n < k * SIZE then 0 else n - k * SIZE }

  lemma BeyondStep(data: seq<byte>, k: nat)
    ensures |Share(data, k)| == Min(SIZE, Beyond(|data|, k)) <= SIZE
    ensures Beyond(|data|, k + 1) == Beyond(|data|, k) - Min(SIZE, Beyond(|data|, k))
  {
  }

  lemma NeededIs(n: nat, k: nat)
    requires Beyond(n, k) == 0 && (k > 0 ==> Beyond(n, k - 1) > 0)
    ensures k == Needed(n)
  {
  }

  /** The first k buffers carry their shares; in the others the shares are loaded but not yet declared. */
  ghost predicate Declared(p: Pools, bs: seq<Buffer>, k: nat, data: seq<byte>)
    reads p, p.repr
  {
    && p.Owned() && Apart(bs) && Offered(p, bs, k)
    && (forall i :: 0 <= i < |bs| ==> bs[i] in p.live)
    && (forall i :: 0 <= i < k && i < |bs| ==> ContentOf(p, bs[i]) == Share(data, i))
    && (forall i :: k <= i < |bs| ==> Loaded(bs[i], Share(data, i)))
  }

  /** Tells one buffer how far it was filled. */
  method DeclareOne(p: Pools, bs: seq<Buffer>, k: nat, end: nat, ghost data: seq<byte>)
    requires Declared(p, bs, k, data) && k < |bs| && end == |Share(data, k)| <= SIZE
    modifies bs[k]
    ensures Declared(p, bs, k + 1, data) && OthersKept(p, [bs[k]])
  {
    ApartAt(bs, k);
    p.SetEnd(bs[k], end);
  }

  /** The loop that tells the buffers how far the kernel filled them. */
  method SetEnds(p: Pools, bs: seq<Buffer>, n: nat, ghost data: seq<byte>) returns (nBuf: nat)
    requires Declared(p, bs, 0, data) && n == |data| <= |bs| * SIZE
    modifies bs
    ensures nBuf == Needed(n) <= |bs| && Declared(p, bs, nBuf, data)
  {
    var nBytes: int := n;
    nBuf := 0;
    while nBuf < |bs| && nBytes > 0
      invariant nBuf <= |bs| && nBytes == Beyond(n, nBuf) && (nBuf > 0 ==> Beyond(n, nBuf - 1) > 0)
      invariant Declared(p, bs, nBuf, data)
    {
      var end := if nBytes > SIZE then SIZE else nBytes;
      BeyondStep(data, nBuf);
      DeclareOne(p, bs, nBuf, end, data);
      nBytes := nBytes - end;
      nBuf := nBuf + 1;
    }
    NeededIs(n, nBuf);
  }

  /** Releases the buffers the data did not reach, from index `k` on. */
  method ReleaseUnused(p: Pools, bs: seq<Buffer>, k: nat, ghost data: seq<byte>)
    requires Declared(p, bs, k, data) && k <= |bs|
    modifies p.repr
    ensures p.Owned() && (forall i :: 0 <= i < k ==> bs[i] in p.live && ContentOf(p, bs[i]) == Share(data, i))
    ensures OthersKept(p, bs[k..]) && p.live <= old(p.live) && forall i :: k <= i < |bs| ==> bs[i] !in p.live
  {
    var unused: MultiBuffer := bs[k..];
    ApartParts(bs, k);
    forall i | 0 <= i < k ensures bs[i] !in unused {
      ApartAt(bs, i);
    }
    ReleaseMulti(p, unused);
    assert forall i :: k <= i < |bs| ==> bs[i] == unused[i - k];
  }

  lemma NeededCovers(n: nat)
    ensures n <= Needed(n) * SIZE
  {
  }

  /** Buffers that hold the successive shares of `data` hold `data`. */
  lemma Gathered(p: Pools, bs: seq<Buffer>, mb: MultiBuffer, data: seq<byte>)
    requires p.Owned() && Apart(bs) && |mb| == Needed(|data|) <= |bs| && mb == bs[..|mb|]
    requires forall i :: 0 <= i < |mb| ==> bs[i] in p.live && ContentOf(p, bs[i]) == Share(data, i)
    ensures Held(p, mb) && BytesOf(p, mb) == data
  {
    ApartParts(bs, |mb|);
    assert forall i :: 0 <= i < |mb| ==> mb[i] == bs[i];
    assert Contents(p, mb) == Shares(data, |mb|);
    SharesGather(data);
  }

  lemma SharesGather(data: seq<byte>)
    ensures Flatten(Shares(data, Needed(|data|))) == data
  {
    SharesConcatenate(data, Needed(|data|));
    NeededCovers(|data|);
    assert data[..|data|] == data;
  }

  /** What readMulti does with `data` the kernel scattered: exactly these bytes, in the buffers they need. */
  method Deliver(p: Pools, bs: seq<Buffer>, data: seq<byte>) returns (mb: MultiBuffer)
    requires p.Owned() && Apart(bs) && Offered(p, bs, 0) && |data| <= |bs| * SIZE
    modifies p.repr
    ensures p.Owned() && Held(p, mb) && BytesOf(p, mb) == data && |mb| == Needed(|data|) <= |bs|
    ensures OthersKept(p, bs) && p.live <= old(p.live) && mb == bs[..|mb|]
    ensures forall i :: |mb| <= i < |bs| ==> bs[i] !in p.live
  {
    var nBuf := Scattered(p, bs, data);
    ReleaseUnused(p, bs, nBuf, data);
    mb := bs[..nBuf];
    Gathered(p, bs, mb, data);
  }

  /** The kernel's part and the loop after it. */
  method Scattered(p: Pools, bs: seq<Buffer>, data: seq<byte>) returns (nBuf: nat)
    requires p.Owned() && Apart(bs) && Offered(p, bs, 0) && |data| <= |bs| * SIZE
    modifies p.repr
    ensures nBuf == Needed(|data|) <= |bs| && Declared(p, bs, nBuf, data) && OthersKept(p, bs) && p.live == old(p.live)
  {
    Readv(p, bs, data);
    nBuf := SetEndsBeside(p, bs, |data|, data);
  }

  /** SetEnds, as the other buffers see it. */
  method SetEndsBeside(p: Pools, bs: seq<Buffer>, n: nat, ghost data: seq<byte>) returns (nBuf: nat)
    requires Declared(p, bs, 0, data) && n == |data| <= |bs| * SIZE
    modifies bs
    ensures nBuf == Needed(n) <= |bs| && Declared(p, bs, nBuf, data) && OthersKept(p, bs) && p.live == old(p.live)
  {
    nBuf := SetEnds(p, bs, n, data);
  }

  /** readMulti over `count` new buffers, given what readv answered: exactly the scattered bytes, in as many
      buffers as they need; no other buffer stays live and none that was is touched. */
  method ReadMulti(p: Pools, count: nat, answer: Option<seq<byte>>) returns (mb: MultiBuffer, err: Option<ReadError>)
    requires p.Owned() && (answer.Some? ==> |answer.value| <= count * SIZE)
    modifies p.repr
    ensures p.Owned() && Held(p, mb) && OthersKept(p, []) && OnlyAdds(p, mb)
    ensures err == if answer.None? then Some(Broken) else if answer.value == [] then Some(Eof) else None
    ensures err.Some? ==> mb == []
    ensures err.None? ==> BytesOf(p, mb) == answer.value && |mb| == Needed(|answer.value|) <= count
  {
    var bs := Offer(p, count);
    if answer.None? || answer.value == [] {
      ReleaseMulti(p, bs);
      mb, err := [], Some(if answer.None? then Broken else Eof);
    } else {
      mb := Deliver(p, bs, answer.value);
      err := None;
    }
  }

  /** ReadBuffer: one read into a new buffer, which is released again if nothing came. */
  method ReadBuffer(p: Pools, r: ByteReader) returns (b: Buffer?, err: Option<ReadError>)
    requires p.Owned() && r !in p.repr
    modifies r, p.repr
    ensures p.Owned() && Held(p, [b]) && OthersKept(p, []) && OnlyAdds(p, [b]) && r !in p.repr
    ensures old(r.remaining) == ContentOf(p, b) + r.remaining && (b != null <==> ContentOf(p, b) != [])
    ensures b == null ==> err.Some?
    ensures err == r.lastErr && (err == Some(Eof) ==> r.remaining == [])
    ensures b != null ==> b.vlen == SIZE && b.start == 0
  {
    b := NewEmpty(p);
    var out;
    out, err := r.Read(b.vlen);
    if |out| > 0 {
      var n := p.WriteTo(b, out);
      assert out[..n] == out;
    } else {
      p.Release(b);
      b := null;
    }
  }

  class ReadVReader {
    const p: Pools
    const source: ByteReader
    const alloc: AllocStrategy

    ghost predicate Valid()
      reads this, p, p.repr, alloc
    {
      p.Owned() && source !in p.repr && alloc !in p.repr && 1 <= alloc.current <= 8
    }

    constructor (p: Pools, source: ByteReader)
      requires p.Owned() && source !in p.repr
      ensures Valid() && this.p == p && this.source == source && fresh(alloc)
    {
      var a := new AllocStrategy();
      this.p, this.source, this.alloc := p, source, a;
    }

    /** ReadMultiBuffer: the next bytes of the source, none lost; and Valid bounds the number of buffers
        any later call offers. */
    method ReadMultiBuffer() returns (mb: MultiBuffer, err: Option<ReadError>)
      requires Valid()
      modifies alloc, source, p.repr
      ensures Valid() && Held(p, mb) && OthersKept(p, []) && OnlyAdds(p, mb) && |mb| <= 8
      ensures old(source.remaining) == BytesOf(p, mb) + source.remaining
      ensures BytesOf(p, mb) != [] || err.Some?
      ensures err == source.lastErr && (err == Some(Eof) ==> source.remaining == [])
      ensures old(alloc.current) == 1 ==> |mb| == 1 && alloc.current == if |BytesOf(p, mb)| == SIZE then 2 else 1
      ensures old(alloc.current) > 1 && err.Some? ==> mb == [] && alloc.current == old(alloc.current)
      ensures old(alloc.current) > 1 && err.None? ==>
                && |mb| == Needed(|BytesOf(p, mb)|) <= old(alloc.current)
                && alloc.current == if |mb| == old(alloc.current) then Min(2 * |mb|, 8) else |mb|
    {
      if alloc.current == 1 {
        mb, err := ReadOne();
        return;
      }
      var answer := source.Scatter(alloc.current * SIZE);
      mb, err := ReadMulti(p, alloc.current, answer);
      if err.Some? {
        assert BytesOf(p, []) == [];
        return;
      }
      alloc.Adjust(|mb|);
    }

    /** The call that offers a single buffer and may make room for more next time. */
    method ReadOne() returns (mb: MultiBuffer, err: Option<ReadError>)
      requires Valid() && alloc.current == 1
      modifies alloc, source, p.repr
      ensures Valid() && Held(p, mb) && OthersKept(p, []) && OnlyAdds(p, mb) && |mb| == 1
      ensures old(source.remaining) == BytesOf(p, mb) + source.remaining
      ensures BytesOf(p, mb) != [] || err.Some?
      ensures err == source.lastErr && (err == Some(Eof) ==> source.remaining == [])
      ensures alloc.current == if |BytesOf(p, mb)| == SIZE then 2 else 1
    {
      var b;
      b, err := ReadBuffer(p, source);
      mb := [b];
      assert Contents(p, mb) == [ContentOf(p, b)];
      FlattenSingle(ContentOf(p, b));
      if b != null && b.IsFull() { alloc.Adjust(1); }
    }
  }
}
