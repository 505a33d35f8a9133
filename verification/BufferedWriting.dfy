/** BufferedWriter: an internal buffer in front of a sink, refining a plain byte stream. */
module BufferedWriting {
  import opened Bytes
  import opened Buffers
  import opened MultiBuffers
  import opened MultiBufferSplit

  /** MultiBuffer.IsEmpty. */
  method IsEmptyList(p: Pools, mb: MultiBuffer) returns (empty: bool)
    requires p.Owned() && Held(p, mb)
    ensures empty <==> BytesOf(p, mb) == []
  {
    TotalOfAll(p, mb);
    empty := AllEmpty(p, mb, Lens(p, mb));
  }

  method AllEmpty(p: Pools, mb: MultiBuffer, ghost lens: seq<nat>) returns (empty: bool)
    requires p.Owned() && Held(p, mb) && lens == Lens(p, mb)
    ensures empty <==> Total(lens, |mb|) == 0
  {
    for k := 0 to |mb|
      modifies {}
      invariant Total(lens, k) == 0
    {
      LensAt(p, mb, k);
      if mb[k] != null && mb[k].Len() != 0 {
        TotalsMonotone(lens, k + 1, |mb|);
        return false;
      }
    }
    return true;
  }

  /** The first bytes of a list, which is then released. */
  method TakeOff(p: Pools, mb: MultiBuffer, max: nat) returns (out: seq<byte>, all: bool)
    requires p.Owned() && Held(p, mb)
    modifies p.repr
    ensures p.Owned() && OthersKept(p, mb)
    ensures out <= old(BytesOf(p, mb)) && (all <==> out == old(BytesOf(p, mb)))
  {
    var rest;
    rest, out := SplitBytes(p, mb, max);
    all := IsEmptyList(p, rest);
    ReleaseMulti(p, rest);
  }

  /** The writer underneath; it may also accept plain bytes, and then take less than it is given without
      failing (io.Writer forbids that, WriteAllBytes copes with it). Which writes fail is not determined. */
  class Sink {
    const takesBytes: bool
    const short: bool
    const narrow: bool  // counts a list in 32 bits, as the writer for connections does
    var received: seq<byte>
    ghost var failures: nat  // how many writes have failed

    constructor (takesBytes: bool, short: bool, narrow: bool)
      ensures this.takesBytes == takesBytes && this.short == short && this.narrow == narrow
      ensures received == [] && failures == 0
    {
      this.takesBytes, this.short, this.narrow, received, failures := takesBytes, short, narrow, [], 0;
    }

    /** io.Writer: takes a prefix, at least one byte unless it fails. */
    method Write(b: seq<byte>) returns (n: nat, ok: bool)
      modifies this
      ensures n <= |b| && received == old(received) + b[..n]
      ensures ok && |b| > 0 ==> n > 0
      ensures ok && !short ==> n == |b|
      ensures failures == old(failures) + if ok then 0 else 1
    {
      n :| 0 <= n <= |b|;
      ok :| ok ==> if short then |b| > 0 ==> n > 0 else n == |b|;
      received := received + b[..n];
      if !ok { failures := failures + 1; }
    }

    /** Writer: takes the whole list, or fails having taken a prefix, or is narrow and drops it; the buffers
        are released. */
    method WriteMultiBuffer(p: Pools, mb: MultiBuffer) returns (ok: bool)
      requires p.Owned() && Held(p, mb) && this !in p.repr
      modifies this, p.repr
      ensures p.Owned() && OthersKept(p, mb)
      ensures ok ==> received == old(received) + Arriving(narrow, old(BytesOf(p, mb)))
      ensures old(received) <= received <= old(received) + Arriving(narrow, old(BytesOf(p, mb)))
      ensures failures == old(failures) + if ok then 0 else 1
      ensures this !in p.repr
    {
      var drops := Drops(p, mb);
      if narrow && drops {
        ReleaseMulti(p, mb);
        assert received == received + [];
        return true;
      }
      ok := TakeSome(p, mb);
    }

    method TakeSome(p: Pools, mb: MultiBuffer) returns (ok: bool)
      requires p.Owned() && Held(p, mb) && this !in p.repr
      modifies this, p.repr
      ensures p.Owned() && OthersKept(p, mb) && this !in p.repr
      ensures ok ==> received == old(received) + old(BytesOf(p, mb))
      ensures old(received) <= received <= old(received) + old(BytesOf(p, mb))
      ensures failures == old(failures) + if ok then 0 else 1
    {
      var n: nat :| true;
      var out;
      out, ok := TakeOff(p, mb, n);
      if * { ok := false; }
      received := received + out;
      if !ok { failures := failures + 1; }
    }
  }

  /** What a writer that counts in 32 bits takes for nothing to write. */
  predicate Dropped(c: Chunk) { c != [] && Int32(|c|) <= 0 }

  /** What arrives of a list that a writer took without failing. */
  function Arriving(narrow: bool, c: Chunk): Chunk { if narrow && Dropped(c) then [] else c }

  lemma ShortListsArrive(narrow: bool, c: Chunk)
    requires |c| < 0x8000_0000
    ensures Arriving(narrow, c) == c
  {
  }

  method Drops(p: Pools, mb: MultiBuffer) returns (drops: bool)
    requires p.Owned() && Held(p, mb)
    ensures drops <==> Dropped(BytesOf(p, mb))
  {
    TotalOfAll(p, mb);
    var empty := AllEmpty(p, mb, Lens(p, mb));
    var n := AddLens(p, mb, Lens(p, mb));
    drops := !empty && n <= 0;
  }

  /** MultiBuffer.Len, which adds in 32 bits. */
  method Len(p: Pools, mb: MultiBuffer) returns (n: int)
    requires p.Owned() && Held(p, mb)
    ensures n == Int32(|BytesOf(p, mb)|)
  {
    TotalOfAll(p, mb);
    n := AddLens(p, mb, Lens(p, mb));
  }

  method AddLens(p: Pools, mb: MultiBuffer, ghost lens: seq<nat>) returns (n: int)
    requires p.Owned() && Held(p, mb) && lens == Lens(p, mb)
    ensures n == Int32(Total(lens, |mb|))
  {
    n := 0;
    for i := 0 to |mb|
      modifies {}
      invariant n == Int32(Total(lens, i))
    {
      LensAt(p, mb, i);
      OneMoreLen(lens, i);
      var more := if mb[i] == null then 0 else mb[i].Len();
      n := Int32(n + more);
    }
  }

  lemma OneMoreLen(lens: seq<nat>, i: nat)
    requires i < |lens|
    ensures Int32(Int32(Total(lens, i)) + lens[i]) == Int32(Total(lens, i + 1))
  {
    Int32Add(Total(lens, i), lens[i]);
  }

  /** WriteAllBytes: repeats short writes until everything is written or one fails. */
  method WriteAllBytes(w: Sink, payload: seq<byte>) returns (ok: bool)
    modifies w
    ensures ok ==> w.received == old(w.received) + payload
    ensures old(w.received) <= w.received <= old(w.received) + payload
    ensures ok <==> w.failures == old(w.failures)
  {
    var k := 0;
    while k < |payload|
      invariant k <= |payload| && w.received == old(w.received) + payload[..k] && w.failures == old(w.failures)
    {
      var n;
      n, ok := w.Write(payload[k..]);
      TakeMore(old(w.received), payload, k, n);
      k := k + n;
      if !ok { return; }
    }
    ok := true;
  }

  class BufferedWriter {
    const p: Pools
    const writer: Sink
    var buffer: Buffer?
    var buffered: bool

    /** The internal buffer is a regular one with room left; in unbuffered mode it holds nothing. */
    ghost predicate Valid()
      reads this, p, p.repr
    {
      && p.Owned() && this !in p.repr && writer !in p.repr
      && (buffer != null ==> Regular(buffer) && buffer.end < SIZE)
      && (!buffered ==> ContentOf(p, buffer) == [])
    }

    ghost predicate Regular(b: Buffer)
      reads p, p.repr
    {
      b in p.live && b in p.repr && b.start == 0 && b.vlen == SIZE && !b.unmanaged
    }

    /** The pools' footprint grew by new objects only. */
    twostate predicate Grown()
      reads p
    {
      old(p.repr) <= p.repr && fresh(p.repr - old(p.repr))
    }

    /** How many bytes the internal buffer takes before it is full. */
    ghost function Room(): (n: nat)
      requires Valid()
      reads this, p, p.repr
      ensures n > 0
    {
      if buffer == null then SIZE else SIZE - buffer.end
    }

    /** The byte stream this writer is: what the sink got, then what is still buffered. */
    ghost function Stream(): Chunk
      reads this, p, p.repr, writer
    {
      writer.received + ContentOf(p, buffer)
    }

    constructor (p: Pools, writer: Sink)
      requires p.Owned() && writer !in p.repr
      modifies p, p.pools[1]
      ensures Valid() && this.p == p && this.writer == writer && buffered && Stream() == writer.received
    {
      this.p, this.writer, buffered := p, writer, true;
      buffer := null;
      new;
      buffer := p.New();
    }

    /** Makes sure there is a buffer, as both loops do first. */
    method EnsureBuffer()
      requires Valid()
      modifies this`buffer, p, p.pools[1]
      ensures Valid() && buffer != null && OthersKept(p, []) && (old(buffer) != null ==> buffer == old(buffer))
      ensures ContentOf(p, buffer) == old(ContentOf(p, buffer))
      ensures old(buffer) == null ==> fresh(buffer)
    {
      if buffer == null { buffer := p.New(); }
    }

    method EnsureBufferBeside(mb: MultiBuffer)
      requires Valid() && Held(p, mb) && (buffer != null ==> buffer !in mb)
      modifies this`buffer, p, p.pools[1]
      ensures Valid() && buffer != null && buffer !in mb && Held(p, mb)
      ensures old(p.repr) <= p.repr && fresh(p.repr - old(p.repr))
      ensures Stream() == old(Stream()) && BytesOf(p, mb) == old(BytesOf(p, mb))
    {
      ghost var cs := Contents(p, mb);
      EnsureBuffer();
      assert Contents(p, mb) == cs;
    }

    /** flushInternal: the buffer goes to the sink whatever happens; on failure its rest is dropped. */
    method FlushInternal() returns (ok: bool)
      requires p.Owned() && this !in p.repr && writer !in p.repr
      requires buffer != null ==> Regular(buffer)
      modifies this`buffer, writer, p.repr
      ensures Valid() && ContentOf(p, buffer) == [] && OthersKept(p, [old(buffer)])
      ensures buffer == null || buffer == old(buffer)
      ensures ok ==> writer.received == old(Stream())
      ensures old(writer.received) <= writer.received <= old(Stream())
      ensures ok <==> writer.failures == old(writer.failures)
    {
      if buffer == null || buffer.Len() == 0 { return true; }
      var b := buffer;
      buffer := null;
      if writer.takesBytes {
        ok := WriteAllBytes(writer, b.Bytes());
        p.Release(b);
      } else {
        SingleList(p, b);
        ShortListsArrive(writer.narrow, b.content);
        ok := writer.WriteMultiBuffer(p, [b]);
      }
    }

    /** New bytes go behind the buffered ones, as many as fit. */
    method Fill(data: seq<byte>) returns (n: nat)
      requires Valid()
      modifies this`buffer, p.repr
      ensures p.Owned() && this !in p.repr && writer !in p.repr && OthersKept(p, [old(buffer)])
      ensures buffer != null && Regular(buffer) && (old(buffer) == null || buffer == old(buffer))
      ensures n == Min(|data|, old(Room()))
      ensures Stream() == old(Stream()) + data[..n]
      ensures old(buffer) == null ==> fresh(buffer)
    {
      EnsureBuffer();
      ghost var c := ContentOf(p, buffer);
      n := p.WriteTo(buffer, data);
      Associative(writer.received, c, data[..n]);
    }

    /** One round of either loop: fill, and flush a full buffer (any, in unbuffered mode). */
    method Round(data: seq<byte>) returns (n: nat, ok: bool)
      requires Valid()
      modifies this`buffer, writer, p.repr
      ensures Valid() && n == Min(|data|, old(Room())) && OthersKept(p, [old(buffer)])
      ensures buffer == null || buffer == old(buffer) || fresh(buffer)
      ensures ok ==> Stream() == old(Stream()) + data[..n]
      ensures old(writer.received) <= writer.received
      ensures !ok ==> writer.received <= old(Stream()) + data[..n]
      ensures ok <==> writer.failures == old(writer.failures)
      ensures buffered && n < old(Room()) ==> ok && writer.received == old(writer.received)
    {
      n := Fill(data);
      ok := true;
      if !buffered || buffer.IsFull() {
        ghost var held := Stream();
        ok := FlushInternal();
        assert held <= old(Stream()) + data[..n];
      }
    }

    /** Write: everything submitted follows everything submitted before. In unbuffered mode over a
        byte writer the count is the sink's own. */
    method Write(b: seq<byte>) returns (total: nat, ok: bool)
      requires Valid()
      modifies this`buffer, writer, p.repr
      ensures Valid() && Grown() && total <= |b|
      ensures ok ==> Stream() == old(Stream()) + b[..total]
      ensures ok && (buffered || !writer.takesBytes || !writer.short) ==> total == |b|
      ensures old(writer.received) <= writer.received
      ensures !ok ==> writer.received <= old(Stream()) + b[..total]
      ensures !buffered && writer.takesBytes ==> writer.received == old(writer.received) + b[..total]
      ensures ok <==> writer.failures == old(writer.failures)
      ensures buffered && |b| < old(Room()) ==> ok && writer.received == old(writer.received)
    {
      total, ok := 0, true;
      ghost var fits := buffered && |b| < Room();
      if |b| == 0 { return; }
      if !buffered && writer.takesBytes {
        total, ok := writer.Write(b);
        return;
      }
      while total < |b|
        invariant Valid() && total <= |b| && ok && old(p.repr) <= p.repr && fresh(p.repr - old(p.repr))
        invariant Stream() == old(Stream()) + b[..total] && old(writer.received) <= writer.received
        invariant writer.failures == old(writer.failures)
        invariant fits ==> writer.received == old(writer.received) && (total == |b| || (total == 0 && Room() > |b|))
      {
        var n;
        ghost var before := Stream();
        n, ok := Round(b[total..]);
        TakeMore(old(Stream()), b, total, n);
        total := total + n;
        if !ok { return; }
      }
    }

    /** A round that leaves a list of other buffers alone. */
    method RoundBeside(data: seq<byte>, rest: MultiBuffer) returns (n: nat, ok: bool)
      requires Valid() && Held(p, rest) && (buffer != null ==> buffer !in rest)
      modifies this`buffer, writer, p.repr
      ensures Valid() && n == Min(|data|, old(Room())) && Held(p, rest) && BytesOf(p, rest) == old(BytesOf(p, rest))
      ensures buffer != null ==> buffer !in rest
      ensures old(p.repr) <= p.repr && fresh(p.repr - old(p.repr))
      ensures ok ==> Stream() == old(Stream()) + data[..n]
      ensures old(writer.received) <= writer.received
      ensures !ok ==> writer.received <= old(Stream()) + data[..n]
      ensures ok <==> writer.failures == old(writer.failures)
      ensures buffered && n < old(Room()) ==> ok && writer.received == old(writer.received)
    {
      ghost var cs := Contents(p, rest);
      n, ok := Round(data);
      assert Held(p, rest) && Contents(p, rest) == cs;
    }

    /** Takes off the list what the internal buffer has room for. */
    method Take(mb: MultiBuffer) returns (rest: MultiBuffer, out: seq<byte>)
      requires Valid() && buffer != null && Held(p, mb) && buffer !in mb
      modifies p.repr
      ensures Valid() && Held(p, rest) && buffer !in rest && Stream() == old(Stream()) && Room() == old(Room())
      ensures old(p.repr) <= p.repr && fresh(p.repr - old(p.repr))
      ensures |out| == Min(old(Room()), |old(BytesOf(p, mb))|) && old(BytesOf(p, mb)) == out + BytesOf(p, rest)
    {
      rest, out := SplitBytes(p, mb, buffer.vlen - buffer.end);
    }

    /** One round of WriteMultiBuffer: as many bytes of the list as the buffer takes. */
    method PourRound(mb: MultiBuffer) returns (rest: MultiBuffer, ok: bool)
      requires Valid() && Held(p, mb) && BytesOf(p, mb) != [] && (buffer != null ==> buffer !in mb)
      modifies this`buffer, writer, p.repr
      ensures Valid() && Held(p, rest) && (buffer != null ==> buffer !in rest)
      ensures old(p.repr) <= p.repr && fresh(p.repr - old(p.repr))
      ensures |BytesOf(p, rest)| < |old(BytesOf(p, mb))|
      ensures ok ==> Stream() + BytesOf(p, rest) == old(Stream()) + old(BytesOf(p, mb))
      ensures old(writer.received) <= writer.received
      ensures !ok ==> writer.received <= old(Stream()) + old(BytesOf(p, mb))
      ensures ok <==> writer.failures == old(writer.failures)
      ensures buffered && |old(BytesOf(p, mb))| < old(Room()) ==>
                BytesOf(p, rest) == [] && ok && writer.received == old(writer.received)
    {
      var out;
      rest, out := TakeBeside(mb);
      ok := PourTaken(out, rest);
    }

    /** Makes sure there is a buffer, and takes off the list what it has room for. */
    method TakeBeside(mb: MultiBuffer) returns (rest: MultiBuffer, out: seq<byte>)
      requires Valid() && Held(p, mb) && (buffer != null ==> buffer !in mb)
      modifies this`buffer, p.repr
      ensures Valid() && Grown() && Held(p, rest) && buffer != null && buffer !in rest
      ensures Stream() == old(Stream()) && writer.received == old(writer.received)
      ensures |out| == Min(Room(), |old(BytesOf(p, mb))|) && Room() == old(Room())
      ensures old(BytesOf(p, mb)) == out + BytesOf(p, rest) && (old(BytesOf(p, mb)) != [] ==> out != [])
    {
      EnsureBufferBeside(mb);
      rest, out := Take(mb);
    }

    /** The bytes taken off the list go behind the stream. */
    method PourTaken(out: seq<byte>, rest: MultiBuffer) returns (ok: bool)
      requires Valid() && Held(p, rest) && (buffer != null ==> buffer !in rest) && |out| <= Room()
      modifies this`buffer, writer, p.repr
      ensures Valid() && Grown() && Held(p, rest) && (buffer != null ==> buffer !in rest)
      ensures BytesOf(p, rest) == old(BytesOf(p, rest))
      ensures ok ==> Stream() + BytesOf(p, rest) == old(Stream()) + (out + BytesOf(p, rest))
      ensures old(writer.received) <= writer.received
      ensures !ok ==> writer.received <= old(Stream()) + (out + BytesOf(p, rest))
      ensures ok <==> writer.failures == old(writer.failures)
      ensures buffered && |out| < old(Room()) ==> ok && writer.received == old(writer.received)
    {
      var n;
      ghost var stream := Stream();
      n, ok := RoundBeside(out, rest);
      assert out[..n] == out;
      Associative(stream, out, BytesOf(p, rest));
    }

    /** WriteMultiBuffer: the bytes of the list follow everything submitted before, in its order. In
        unbuffered mode the list is the writer's, which may be a narrow one. */
    method WriteMultiBuffer(mb: MultiBuffer) returns (ok: bool)
      requires Valid() && Held(p, mb) && (buffer != null ==> buffer !in mb)
      modifies this`buffer, writer, p.repr
      ensures Valid() && Grown()
      ensures ok ==> Stream() == old(Stream()) + Entering(old(BytesOf(p, mb)))
      ensures old(writer.received) <= writer.received
      ensures !ok ==> writer.received <= old(Stream()) + old(BytesOf(p, mb))
      ensures ok <==> writer.failures == old(writer.failures)
      ensures buffered && |old(BytesOf(p, mb))| < old(Room()) ==> ok && writer.received == old(writer.received)
    {
      var empty := IsEmptyList(p, mb);
      if empty { return true; }
      if buffered {
        ok := PourAll(mb);
      } else {
        ok := PassOn(mb);
      }
    }

    /** In unbuffered mode the list is the writer's. */
    method PassOn(mb: MultiBuffer) returns (ok: bool)
      requires Valid() && Held(p, mb) && (buffer != null ==> buffer !in mb) && !buffered
      modifies writer, p.repr
      ensures Valid() && Grown()
      ensures ok ==> Stream() == old(Stream()) + Arriving(writer.narrow, old(BytesOf(p, mb)))
      ensures old(writer.received) <= writer.received
      ensures !ok ==> writer.received <= old(Stream()) + old(BytesOf(p, mb))
      ensures ok <==> writer.failures == old(writer.failures)
    {
      ok := writer.WriteMultiBuffer(p, mb);
    }

    /** What of a list enters the stream if the call does not fail. */
    function Entering(c: Chunk): Chunk
      reads this
    {
      if buffered then c else Arriving(writer.narrow, c)
    }

    method PourAll(mb: MultiBuffer) returns (ok: bool)
      requires Valid() && Held(p, mb) && (buffer != null ==> buffer !in mb)
      modifies this`buffer, writer, p.repr
      ensures Valid() && Grown()
      ensures ok ==> Stream() == old(Stream()) + old(BytesOf(p, mb))
      ensures old(writer.received) <= writer.received
      ensures !ok ==> writer.received <= old(Stream()) + old(BytesOf(p, mb))
      ensures ok <==> writer.failures == old(writer.failures)
      ensures buffered && |old(BytesOf(p, mb))| < old(Room()) ==> ok && writer.received == old(writer.received)
    {
      var rest := mb;
      ghost var all, fits := Stream() + BytesOf(p, mb), buffered && |BytesOf(p, mb)| < Room();
      ghost var got, failed := writer.received, writer.failures;
      var empty := IsEmptyList(p, rest);
      while !empty
        invariant Valid() && Held(p, rest) && (buffer != null ==> buffer !in rest)
        invariant old(p.repr) <= p.repr && fresh(p.repr - old(p.repr))
        invariant Stream() + BytesOf(p, rest) == all && got <= writer.received && writer.failures == failed
        invariant fits ==> writer.received == got && (empty || |BytesOf(p, rest)| < Room())
        invariant empty <==> BytesOf(p, rest) == []
        decreases |BytesOf(p, rest)|
      {
        rest, empty, ok := PourStep(rest);
        if !ok { return; }
      }
      CloseRest(rest);
      ok := true;
    }

    /** A round, and the end of the call if it fails. */
    method PourStep(mb: MultiBuffer) returns (rest: MultiBuffer, empty: bool, ok: bool)
      requires Valid() && Held(p, mb) && BytesOf(p, mb) != [] && (buffer != null ==> buffer !in mb)
      modifies this`buffer, writer, p.repr
      ensures Valid() && Grown()
      ensures ok ==> Held(p, rest) && (buffer != null ==> buffer !in rest) && (empty <==> BytesOf(p, rest) == [])
      ensures ok ==> |BytesOf(p, rest)| < |old(BytesOf(p, mb))|
      ensures ok ==> Stream() + BytesOf(p, rest) == old(Stream()) + old(BytesOf(p, mb))
      ensures old(writer.received) <= writer.received
      ensures !ok ==> writer.received <= old(Stream()) + old(BytesOf(p, mb))
      ensures ok <==> writer.failures == old(writer.failures)
      ensures buffered && |old(BytesOf(p, mb))| < old(Room()) ==> ok && empty && writer.received == old(writer.received)
    {
      rest, ok := PourRound(mb);
      empty := IsEmptyList(p, rest);
      if !ok { CloseRest(rest); }
    }

    /** The deferred Close of the list being read: what is left of it is released. */
    method CloseRest(rest: MultiBuffer)
      requires Valid() && Held(p, rest) && (buffer != null ==> buffer !in rest)
      modifies p.repr
      ensures Valid() && Grown() && Stream() == old(Stream())
    {
      ReleaseMulti(p, rest);
    }

    /** Flush. */
    method Flush() returns (ok: bool)
      requires Valid()
      modifies this`buffer, writer, p.repr
      ensures Valid() && Grown() && ContentOf(p, buffer) == []
      ensures ok ==> Stream() == old(Stream()) == writer.received
      ensures old(writer.received) <= writer.received <= old(Stream())
      ensures ok <==> writer.failures == old(writer.failures)
    {
      ok := FlushInternal();
    }

    /** SetBuffered: switching buffering off sends out what is buffered, so no mode switch reorders. */
    method SetBuffered(f: bool) returns (ok: bool)
      requires Valid()
      modifies this`buffer, this`buffered, writer, p.repr
      ensures Valid() && Grown() && buffered == f
      ensures ok ==> Stream() == old(Stream())
      ensures old(writer.received) <= writer.received <= old(Stream())
      ensures ok <==> writer.failures == old(writer.failures)
    {
      if f {
        buffered := f;
        return true;
      }
      buffered := false;
      ok := FlushInternal();
    }

    // ----- any sequence of calls -----

    /** One call of a client, and what of it was accepted. */
    method Do(op: Op) returns (ok: bool, ghost accepted: Chunk)
      requires Valid()
      modifies this`buffer, this`buffered, writer, p.repr
      ensures Valid() && Grown()
      ensures ok ==> Stream() == old(Stream()) + accepted && accepted <= op.Submits()
      ensures ok && !writer.short && op.Arrives(writer.narrow) ==> accepted == op.Submits()
      ensures !ok ==> writer.received <= old(Stream()) + op.Submits()
      ensures ok <==> writer.failures == old(writer.failures)
    {
      var n;
      accepted := op.Submits();
      match op {
        case Bytes(b) =>
          n, ok := Write(b);
          accepted := b[..n];
        case Byte(c) =>
          n, ok := Write([c]);
          accepted := [c][..n];
        case List(b) =>
          ok := DoList(b);
          accepted := Entering(b);
        case Flush =>
          ok := Flush();
        case SetMode(f) =>
          ok := SetBuffered(f);
      }
    }

    method DoList(b: seq<byte>) returns (ok: bool)
      requires Valid()
      modifies this`buffer, writer, p.repr
      ensures Valid() && Grown()
      ensures ok ==> Stream() == old(Stream()) + Entering(b)
      ensures !ok ==> writer.received <= old(Stream()) + b
      ensures ok <==> writer.failures == old(writer.failures)
    {
      ghost var stream := Stream();
      var mb := ListOf(p, b);
      ok := WriteMultiBuffer(mb);
    }

    /** Any sequence of calls up to the first that fails, across all switches of mode: if none fails, sink and
        internal buffer make up what was accepted, in order. That is all that was submitted, and what the sink
        has got is a prefix of it also after a failure, unless the sink takes less than it is given without
        failing, or counts in 32 bits and was given a list that it takes for an empty one. */
    method Session(ops: seq<Op>) returns (ok: bool, ghost accepted: Chunk)
      requires Valid()
      modifies this`buffer, this`buffered, writer, p.repr
      ensures Valid()
      ensures ok ==> Stream() == old(Stream()) + accepted
      ensures ok && !writer.short && AllArrive(ops, writer.narrow) ==> accepted == AllSubmitted(ops)
      ensures !writer.short && AllArrive(ops, writer.narrow) ==> writer.received <= old(Stream()) + AllSubmitted(ops)
      ensures ok <==> writer.failures == old(writer.failures)
    {
      accepted := [];
      ghost var stream, whole := Stream(), !writer.short && AllArrive(ops, writer.narrow);
      for i := 0 to |ops|
        invariant Valid() && Grown() && writer.failures == old(writer.failures)
        invariant Stream() == stream + accepted && (whole ==> accepted == AllSubmitted(ops[..i]))
      {
        SubmittedGrows(stream, ops, i);
        ghost var part;
        ok, part := Do(ops[i]);
        if !ok { return; }
        Associative(stream, accepted, part);
        accepted := accepted + part;
      }
      ok := true;
      assert ops[..|ops|] == ops;
    }
  }

  /** The calls a client can make; List is WriteMultiBuffer of new buffers holding these bytes. */
  datatype Op = Bytes(b: seq<byte>) | Byte(c: byte) | List(b: seq<byte>) | Flush | SetMode(f: bool)
  {
    predicate Arrives(narrow: bool) { narrow && List? ==> !Dropped(b) }

    function Submits(): Chunk {
      match this
      case Bytes(b) => b
      case Byte(c) => [c]
      case List(b) => b
      case _ => []
    }
  }

  /** No list among the calls is one that a narrow writer drops. */
  ghost predicate AllArrive(ops: seq<Op>, narrow: bool) { forall i :: 0 <= i < |ops| ==> ops[i].Arrives(narrow) }

  function AllSubmitted(ops: seq<Op>): Chunk {
    if ops == [] then [] else AllSubmitted(ops[..|ops| - 1]) + ops[|ops| - 1].Submits()
  }

  lemma SubmittedIsPrefix(ops: seq<Op>, i: nat)
    requires i <= |ops|
    ensures AllSubmitted(ops[..i]) <= AllSubmitted(ops)
    decreases |ops|
  {
    if i < |ops| {
      SubmittedIsPrefix(ops[..|ops| - 1], i);
      assert ops[..|ops| - 1][..i] == ops[..i];
    } else {
      assert ops[..i] == ops;
    }
  }

  lemma SubmittedGrows(base: Chunk, ops: seq<Op>, i: nat)
    requires i < |ops|
    ensures AllSubmitted(ops[..i + 1]) == AllSubmitted(ops[..i]) + ops[i].Submits()
    ensures base + AllSubmitted(ops[..i]) + ops[i].Submits() == base + AllSubmitted(ops[..i + 1])
    ensures base + AllSubmitted(ops[..i + 1]) <= base + AllSubmitted(ops)
  {
    assert ops[..i + 1][..i] == ops[..i];
    SubmittedIsPrefix(ops, i + 1);
    Associative(base, AllSubmitted(ops[..i]), ops[i].Submits());
  }
}
