/** BufferedReader: a list of buffers in front of a source, refining a plain byte stream. */
module BufferedReading {
  import opened Bytes
  import opened Buffers
  import opened MultiBuffers
  import opened MultiBufferSplit
  import opened BufferedWriting

  /** What a reader can answer besides bytes: io.EOF, io.ErrUnexpectedEOF, or anything else. */
  datatype ReadError = Eof | UnexpectedEof | Broken

  /** The reader underneath. Each call answers some bytes, an error, or (unless `exclusive`, as a pipe is)
      both; what and how much is not determined, but end of file is answered only with the last byte or
      after it. */
  class Source {
    const exclusive: bool
    var remaining: seq<byte>
    var last: seq<byte>  // the bytes of the latest answer
    ghost var lastErr: Option<ReadError>  // and its error

    constructor (bytes: seq<byte>, exclusive: bool)
      ensures remaining == bytes && last == [] && lastErr.None? && this.exclusive == exclusive
    {
      remaining, last, lastErr, this.exclusive := bytes, [], None, exclusive;
    }

    method ReadMultiBuffer(p: Pools) returns (mb: MultiBuffer, err: Option<ReadError>)
      requires p.Owned() && this !in p.repr
      modifies this, p.repr
      ensures p.Owned() && Held(p, mb) && OthersKept(p, []) && this !in p.repr
      ensures forall i :: 0 <= i < |mb| ==> mb[i] != null && fresh(mb[i])
      ensures BytesOf(p, mb) == last && old(remaining) == last + remaining
      ensures last != [] || err.Some?
      ensures exclusive && err.Some? ==> last == []
      ensures lastErr == err && (err == Some(Eof) ==> remaining == [])
    {
      var n: nat :| n <= |remaining|;
      last, remaining := remaining[..n], remaining[n..];
      mb := ListOf(p, last);
      var failed: bool :| if last == [] then failed else exclusive ==> !failed;
      var e: ReadError :| e == Eof ==> remaining == [];
      err := if failed then Some(e) else None;
      lastErr := err;
    }
  }

  datatype CopyEnd = AtEof | ReadFailed | WriteFailed

  /** How a copy ends that was given this answer and whose writes failed or not. */
  ghost predicate EndsWith(end: Option<CopyEnd>, lastErr: Option<ReadError>, failed: bool) {
    && (end == Some(WriteFailed) <==> failed)
    && (end == Some(AtEof) <==> !failed && lastErr == Some(Eof))
    && (end == Some(ReadFailed) <==> !failed && lastErr.Some? && lastErr != Some(Eof))
    && (end.None? <==> !failed && lastErr.None?)
  }

  /** SplitSize panics on a list with these contents. */
  ghost predicate CutPanics(cs: seq<Chunk>, size: int) { cs != [] && |cs[0]| > size && (size < 0 || size > SIZE) }

  /** SplitSize gives at most `size` bytes of a list with these contents. */
  ghost predicate KeepsLimit(cs: seq<Chunk>, size: int) { cs == [] || |cs[0]| > size || SumsFit(Lengths(cs), size) }

  /** As many whole buffers of a list as fit into `size` bytes. */
  ghost predicate TakesWhole(cs: seq<Chunk>, size: int, taken: Chunk) {
    exists k :: 0 <= k <= |cs| && taken == Flatten(cs[..k]) && |taken| <= size
                && (k < |cs| ==> |Flatten(cs[..k + 1])| > size)
  }

  /** What SplitSize takes: a piece of the first buffer, or as many whole buffers as fit if no sum overflows. */
  ghost predicate CutsAt(cs: seq<Chunk>, size: int, taken: Chunk) {
    cs != [] ==>
      if |cs[0]| > size then |taken| == size else KeepsLimit(cs, size) && size >= 0 ==> TakesWhole(cs, size, taken)
  }

  /** Both what is taken and when that keeps to the limit. */
  ghost predicate CutRight(cs: seq<Chunk>, size: int, taken: Chunk) {
    CutsAt(cs, size, taken) && (size >= 0 ==> (|taken| <= size <==> KeepsLimit(cs, size)))
  }

  lemma ShortKeepsLimit(p: Pools, mb: MultiBuffer, size: int)
    requires |BytesOf(p, mb)| < 0x8000_0000
    ensures KeepsLimit(Contents(p, mb), size)
  {
    TotalOfAll(p, mb);
    ShortListsFit(Lens(p, mb), size);
  }

  /** A list without bytes is forgotten. */
  method DropEmpty(p: Pools, mb: MultiBuffer) returns (kept: MultiBuffer)
    requires p.Owned() && Held(p, mb)
    ensures Held(p, kept) && BytesOf(p, kept) == BytesOf(p, mb) && (kept == [] <==> BytesOf(p, mb) == [])
  {
    var empty := IsEmptyList(p, mb);
    kept := if empty then [] else mb;
    assert BytesOf(p, []) == [];
  }

  /** SplitSize, by the contents of the list. */
  method SplitWithin(p: Pools, mb: MultiBuffer, size: int)
    returns (rest: MultiBuffer, first: MultiBuffer, panicked: bool)
    requires p.Owned() && Held(p, mb) && -0x8000_0000 <= size < 0x8000_0000
    modifies p.repr
    ensures p.Owned() && old(p.repr) <= p.repr && fresh(p.repr - old(p.repr)) && Held(p, rest) && Held(p, first)
    ensures panicked <==> CutPanics(old(Contents(p, mb)), size)
    ensures !panicked ==> old(BytesOf(p, mb)) == BytesOf(p, first) + BytesOf(p, rest)
    ensures !panicked ==> CutRight(old(Contents(p, mb)), size, BytesOf(p, first))
  {
    ghost var cs := Contents(p, mb);
    rest, first, panicked := SplitSize(p, mb, size);
    assert mb == [] ==> first == [] && BytesOf(p, []) == [];
    if mb != [] && |cs[0]| <= size && KeepsLimit(cs, size) {
      GreedyTakesWhole(p, mb, cs, first, size);
    }
  }

  /** The same, with nothing left of a list whose bytes were all taken. */
  method SplitOrDrop(p: Pools, mb: MultiBuffer, size: int)
    returns (rest: MultiBuffer, first: MultiBuffer, panicked: bool)
    requires p.Owned() && Held(p, mb) && -0x8000_0000 <= size < 0x8000_0000
    modifies p.repr
    ensures p.Owned() && old(p.repr) <= p.repr && fresh(p.repr - old(p.repr)) && Held(p, rest) && Held(p, first)
    ensures panicked <==> CutPanics(old(Contents(p, mb)), size)
    ensures !panicked ==> old(BytesOf(p, mb)) == BytesOf(p, first) + BytesOf(p, rest)
    ensures !panicked ==> CutRight(old(Contents(p, mb)), size, BytesOf(p, first))
    ensures !panicked && BytesOf(p, rest) == [] ==> rest == []
  {
    rest, first, panicked := SplitWithin(p, mb, size);
    if !panicked { rest := DropEmpty(p, rest); }
  }

  lemma GreedyTakesWhole(p: Pools, mb: MultiBuffer, cs: seq<Chunk>, first: MultiBuffer, size: int)
    requires Greedy(p, mb, |first|, size) && first == mb[..|first|] && Contents(p, mb) == cs
    ensures TakesWhole(cs, size, BytesOf(p, first))
  {
    var k := |first|;
    ContentsTake(p, mb, k);
    if k < |mb| { ContentsTake(p, mb, k + 1); }
    assert BytesOf(p, first) == Flatten(cs[..k]);
  }

  /** One round of copyInternal; the handler of CountSize counts in 32 bits. */
  method CopyRound(p: Pools, source: Source, sink: Sink) returns (n: int, end: Option<CopyEnd>)
    requires p.Owned() && source !in p.repr && sink !in p.repr
    modifies source, sink, p.repr
    ensures p.Owned() && source !in p.repr && sink !in p.repr && OthersKept(p, [])
    ensures n == Int32(|source.last|) && old(source.remaining) == source.last + source.remaining
    ensures end.None? ==> source.last != []
    ensures end != Some(WriteFailed) ==> sink.received == old(sink.received) + Arriving(sink.narrow, source.last)
    ensures old(sink.received) <= sink.received <= old(sink.received) + Arriving(sink.narrow, source.last)
    ensures EndsWith(end, source.lastErr, sink.failures != old(sink.failures))
    ensures end == Some(WriteFailed) && source.exclusive ==> source.lastErr.None?
    ensures end == Some(AtEof) ==> source.remaining == []
  {
    var mb, err := source.ReadMultiBuffer(p);
    var empty := IsEmptyList(p, mb);
    n := 0;
    if !empty {
      n := Len(p, mb);
      var ok := sink.WriteMultiBuffer(p, mb);
      if !ok { return n, Some(WriteFailed); }
    }
    end := if err.None? then None else if err == Some(Eof) then Some(AtEof) else Some(ReadFailed);
  }

  /** What CountSize makes of the lists copied one after the other. */
  function Counted(rounds: seq<Chunk>): int {
    if rounds == [] then 0 else Counted(rounds[..|rounds| - 1]) + Int32(|rounds[|rounds| - 1]|)
  }

  lemma CountsOneMore(rounds: seq<Chunk>, c: Chunk)
    ensures Counted(rounds + [c]) == Counted(rounds) + Int32(|c|) && Flatten(rounds + [c]) == Flatten(rounds) + c
  {
    assert (rounds + [c])[..|rounds|] == rounds;
    FlattenAppend(rounds, [c]);
    FlattenSingle(c);
  }

  lemma {:induction false} CountsOneBefore(c: Chunk, rounds: seq<Chunk>)
    ensures Counted([c] + rounds) == Int32(|c|) + Counted(rounds)
  {
    var all := [c] + rounds;
    if rounds == [] {
      assert all == [c] && all[..0] == [];
    } else {
      var n := |rounds| - 1;
      assert all[..|all| - 1] == [c] + rounds[..n] && all[|all| - 1] == rounds[n];
      CountsOneBefore(c, rounds[..n]);
    }
  }

  /** The count is never too large, and is the number of bytes if and only if no list had 2^31 bytes or more. */
  lemma {:induction false} CountedExactly(rounds: seq<Chunk>)
    ensures Counted(rounds) <= |Flatten(rounds)|
    ensures Counted(rounds) == |Flatten(rounds)| <==> forall i :: 0 <= i < |rounds| ==> |rounds[i]| < 0x8000_0000
  {
    if rounds != [] {
      var n := |rounds| - 1;
      var before, c := rounds[..n], rounds[n];
      CountedExactly(before);
      assert rounds == before + [c];
      CountsOneMore(before, c);
      Int32Exact(|c|);
      assert forall i :: 0 <= i < n ==> before[i] == rounds[i];
    }
  }

  /** What a writer got of the lists it was given one after the other, if none failed. */
  function Delivered(narrow: bool, rounds: seq<Chunk>): Chunk {
    if rounds == [] then [] else Delivered(narrow, rounds[..|rounds| - 1]) + Arriving(narrow, rounds[|rounds| - 1])
  }

  lemma DeliversOneMore(narrow: bool, rounds: seq<Chunk>, c: Chunk)
    ensures Delivered(narrow, rounds + [c]) == Delivered(narrow, rounds) + Arriving(narrow, c)
  {
    assert (rounds + [c])[..|rounds|] == rounds;
  }

  lemma {:induction false} DeliversOneBefore(narrow: bool, c: Chunk, rounds: seq<Chunk>)
    ensures Delivered(narrow, [c] + rounds) == Arriving(narrow, c) + Delivered(narrow, rounds)
  {
    var all := [c] + rounds;
    if rounds == [] {
      assert all == [c] && all[..0] == [];
    } else {
      var n := |rounds| - 1;
      assert all[..|all| - 1] == [c] + rounds[..n] && all[|all| - 1] == rounds[n];
      DeliversOneBefore(narrow, c, rounds[..n]);
      Associative(Arriving(narrow, c), Delivered(narrow, rounds[..n]), Arriving(narrow, rounds[n]));
    }
  }

  ghost predicate NoneDropped(rounds: seq<Chunk>) { forall i :: 0 <= i < |rounds| ==> !Dropped(rounds[i]) }

  /** Everything arrives if and only if the writer counts in more than 32 bits or no list is dropped. */
  lemma {:induction false} DeliveredExactly(narrow: bool, rounds: seq<Chunk>)
    ensures |Delivered(narrow, rounds)| <= |Flatten(rounds)|
    ensures Delivered(narrow, rounds) == Flatten(rounds) <==> !narrow || NoneDropped(rounds)
  {
    if rounds != [] {
      var n := |rounds| - 1;
      var before, c := rounds[..n], rounds[n];
      DeliveredExactly(narrow, before);
      assert rounds == before + [c];
      CountsOneMore(before, c);
      assert forall i :: 0 <= i < n ==> before[i] == rounds[i];
      if NoneDropped(before) || !narrow {
        assert |Delivered(narrow, rounds)| == |Flatten(before)| + |Arriving(narrow, c)|;
      } else {
        SameLengthSameParts(Delivered(narrow, before), Arriving(narrow, c), Flatten(before), c);
      }
    }
  }

  /** Two concatenations of parts, the first ones no longer than the others, agree only part by part. */
  lemma SameLengthSameParts(a: Chunk, b: Chunk, c: Chunk, d: Chunk)
    requires |a| <= |c| && |b| <= |d|
    ensures a + b == c + d ==> a == c && b == d
  {
    if a + b == c + d {
      assert |a| == |c|;
      assert a == (a + b)[..|a|] && c == (c + d)[..|c|] && b == (a + b)[|a|..] && d == (c + d)[|c|..];
    }
  }

  /** Lists below 2^31 bytes in all are all counted right and all arrive. */
  lemma {:induction false} ShortRoundsArrive(rounds: seq<Chunk>)
    requires |Flatten(rounds)| < 0x8000_0000
    ensures NoneDropped(rounds)
  {
    if rounds != [] {
      var n := |rounds| - 1;
      assert rounds == rounds[..n] + [rounds[n]];
      CountsOneMore(rounds[..n], rounds[n]);
      ShortRoundsArrive(rounds[..n]);
      assert forall i :: 0 <= i < n ==> rounds[..n][i] == rounds[i];
    }
  }

  /** Copy with CountSize: `rounds` are the lists it took from the source and gave to the writer, all there
      are at end of file. A write that failed was counted before it was tried. */
  method Copy(p: Pools, source: Source, sink: Sink) returns (size: int, end: CopyEnd, ghost rounds: seq<Chunk>)
    requires p.Owned() && source !in p.repr && sink !in p.repr
    modifies source, sink, p.repr
    ensures p.Owned() && source !in p.repr && sink !in p.repr && OthersKept(p, [])
    ensures size == Counted(rounds) && rounds != [] && old(source.remaining) == Flatten(rounds) + source.remaining
    ensures end != WriteFailed ==> sink.received == old(sink.received) + Delivered(sink.narrow, rounds)
    ensures old(sink.received) <= sink.received <= old(sink.received) + Delivered(sink.narrow, rounds)
    ensures EndsWith(Some(end), source.lastErr, sink.failures != old(sink.failures))
    ensures end == WriteFailed && source.exclusive ==> source.lastErr.None?
    ensures end == AtEof ==> source.remaining == []
  {
    ghost var failed := sink.failures;
    size, rounds := 0, [];
    while true
      invariant p.Owned() && source !in p.repr && sink !in p.repr && OthersKept(p, [])
      invariant size == Counted(rounds) && old(source.remaining) == Flatten(rounds) + source.remaining
      invariant sink.received == old(sink.received) + Delivered(sink.narrow, rounds) && sink.failures == failed
      decreases |source.remaining|
    {
      ghost var moved, got := Flatten(rounds), Delivered(sink.narrow, rounds);
      var n, e := CopyRound(p, source, sink);
      CountsOneMore(rounds, source.last);
      DeliversOneMore(sink.narrow, rounds, source.last);
      Associative(moved, source.last, source.remaining);
      Associative(old(sink.received), got, Arriving(sink.narrow, source.last));
      size, rounds := size + n, rounds + [source.last];
      if e.Some? { return size, e.value, rounds; }
    }
  }

  class BufferedReader {
    const p: Pools
    const source: Source
    var buffer: MultiBuffer

    ghost predicate Valid()
      reads this, p, p.repr
    {
      p.Owned() && Held(p, buffer) && this !in p.repr && source !in p.repr
    }

    /** The pools' footprint grew by new objects only. */
    twostate predicate Grown()
      reads p
    {
      old(p.repr) <= p.repr && fresh(p.repr - old(p.repr))
    }

    /** The byte stream still to come: what is buffered, then what the source has. */
    ghost function Unread(): Chunk
      reads this, p, p.repr, source
    {
      BytesOf(p, buffer) + source.remaining
    }

    constructor (p: Pools, source: Source)
      requires p.Owned() && source !in p.repr
      ensures Valid() && this.p == p && this.source == source && Unread() == source.remaining
    {
      this.p, this.source, buffer := p, source, [];
      new;
      assert BytesOf(p, []) == [];
    }

    /** Read from the buffered bytes, which there are. */
    method ReadBuffered(max: nat) returns (out: seq<byte>)
      requires Valid()
      modifies this`buffer, p.repr
      ensures Valid() && old(p.repr) <= p.repr && fresh(p.repr - old(p.repr))
      ensures |out| == Min(max, |old(BytesOf(p, buffer))|) && old(BytesOf(p, buffer)) == out + BytesOf(p, buffer)
    {
      var rest;
      rest, out := SplitBytes(p, buffer, max);
      buffer := DropEmpty(p, rest);
    }

    /** Read: the next bytes of the stream, at most `max`. When the source answers an error, any bytes
        that came with it are lost, and only then is anything lost. */
    method Read(max: nat) returns (out: seq<byte>, err: Option<ReadError>)
      requires Valid()
      modifies this`buffer, source, p.repr
      ensures Valid() && Grown() && |out| <= max
      ensures err.None? ==> old(Unread()) == out + Unread()
      ensures err.None? && max > 0 ==> out != []
      ensures if old(BytesOf(p, buffer)) != []
              then err.None? && |out| == Min(max, |old(BytesOf(p, buffer))|) && unchanged(source)
              else err == source.lastErr && (err.None? ==> |out| == Min(max, |source.last|))
      ensures err.Some? ==> out == [] && old(Unread()) == source.last + Unread()
      ensures err.Some? ==> (Unread() == old(Unread()) <==> source.last == [])
      ensures err.Some? && source.exclusive ==> source.last == []
      ensures err == Some(Eof) ==> Unread() == []
    {
      var empty := IsEmptyList(p, buffer);
      if !empty {
        ghost var bytes, rest := BytesOf(p, buffer), source.remaining;
        out := ReadBuffered(max);
        err := None;
        Associative(out, BytesOf(p, buffer), rest);
        return;
      }
      out, err := ReadFresh(max);
    }

    /** Read with nothing buffered. */
    method ReadFresh(max: nat) returns (out: seq<byte>, err: Option<ReadError>)
      requires Valid() && BytesOf(p, buffer) == []
      modifies this`buffer, source, p.repr
      ensures Valid() && Grown() && |out| <= max
      ensures err.None? ==> old(Unread()) == out + Unread() && |out| == Min(max, |source.last|) && source.last != []
      ensures err.Some? ==> out == [] && old(Unread()) == source.last + Unread()
      ensures err.Some? && source.exclusive ==> source.last == []
      ensures err == source.lastErr && (err == Some(Eof) ==> Unread() == [])
    {
      var mb;
      mb, err := FromSource();
      if err.Some? { return [], err; }
      ghost var rest := source.remaining;
      buffer := mb;
      out := ReadBuffered(max);
      Associative(out, BytesOf(p, buffer), rest);
    }

    /** ReadByte: one byte of the stream. */
    method ReadByte() returns (b: byte, err: Option<ReadError>)
      requires Valid()
      modifies this`buffer, source, p.repr
      ensures Valid() && Grown()
      ensures err.None? ==> old(Unread()) == [b] + Unread()
      ensures if old(BytesOf(p, buffer)) != [] then err.None? && unchanged(source) else err == source.lastErr
      ensures err.Some? ==> old(Unread()) == source.last + Unread() && (source.exclusive ==> source.last == [])
      ensures err == Some(Eof) ==> Unread() == []
    {
      var out;
      out, err := Read(1);
      b := if err.None? then out[0] else 0;
      assert err.None? ==> out == [b];
    }

    /** ReadMultiBuffer: the buffered list, or the source's answer as it is. */
    method ReadMultiBuffer() returns (mb: MultiBuffer, err: Option<ReadError>)
      requires Valid()
      modifies this`buffer, source, p.repr
      ensures Valid() && Grown() && Held(p, mb) && Held(p, mb + buffer)
      ensures old(Unread()) == BytesOf(p, mb) + Unread()
      ensures BytesOf(p, mb) != [] || err.Some?
      ensures if old(BytesOf(p, buffer)) != []
              then err.None? && BytesOf(p, mb) == old(BytesOf(p, buffer)) && unchanged(source)
              else err == source.lastErr && BytesOf(p, mb) == source.last
      ensures err == Some(Eof) ==> Unread() == []
    {
      var empty := IsEmptyList(p, buffer);
      if !empty {
        mb, err := buffer, None;
        buffer := [];
        assert BytesOf(p, []) == [] && mb + buffer == mb;
        return;
      }
      mb, err := FromSource();
      assert mb + buffer == mb;
    }

    /** The source's answer, when nothing is buffered. */
    method FromSource() returns (mb: MultiBuffer, err: Option<ReadError>)
      requires Valid() && BytesOf(p, buffer) == []
      modifies this`buffer, source, p.repr
      ensures Valid() && Grown() && Held(p, mb) && buffer == [] && BytesOf(p, buffer) == []
      ensures BytesOf(p, mb) == source.last && old(source.remaining) == source.last + source.remaining
      ensures old(Unread()) == source.last + Unread()
      ensures source.last != [] || err.Some?
      ensures source.exclusive && err.Some? ==> source.last == []
      ensures err == source.lastErr && (err == Some(Eof) ==> source.remaining == [])
    {
      buffer := [];
      assert BytesOf(p, []) == [];
      mb, err := source.ReadMultiBuffer(p);
      assert [] + source.remaining == source.remaining;
    }

    /** Makes sure something is buffered, unless the source fails with nothing to give. */
    method Refill() returns (err: Option<ReadError>)
      requires Valid()
      modifies this`buffer, source, p.repr
      ensures Valid() && Unread() == old(Unread()) && old(p.repr) <= p.repr && fresh(p.repr - old(p.repr))
      ensures err.None? <==> BytesOf(p, buffer) != []
      ensures if old(BytesOf(p, buffer)) != [] then unchanged(source) else err.Some? ==> err == source.lastErr
      ensures old(BytesOf(p, buffer)) == [] ==> BytesOf(p, buffer) == source.last
      ensures old(BytesOf(p, buffer)) == [] && source.exclusive ==> err == source.lastErr
      ensures err == Some(Eof) ==> Unread() == []
    {
      var empty := IsEmptyList(p, buffer);
      if !empty { return None; }
      var mb;
      mb, err := FromSource();
      var nothing := IsEmptyList(p, mb);
      if nothing && err.Some? { return; }
      buffer := mb;
      err := None;
    }

    /** ReadAtMost: at most `size` bytes of the stream, none lost; an error that came with bytes is dropped.
        `list` is what is buffered when it cuts: it panics if and only if it has to cut off its first buffer a
        piece longer than a regular one or of negative length, and keeps to the limit if and only if it cuts
        or no 32-bit sum it compares overflows, which takes a stream of 2^31 bytes. */
    method ReadAtMost(size: int)
      returns (out: MultiBuffer, err: Option<ReadError>, panicked: bool, ghost list: seq<Chunk>)
      requires Valid() && -0x8000_0000 <= size < 0x8000_0000
      modifies this`buffer, source, p.repr
      ensures p.Owned() && Grown() && (!panicked ==> Valid() && Held(p, out))
      ensures Flatten(list) <= old(Unread()) && (err.None? ==> Flatten(list) != [])
      ensures panicked <==> err.None? && CutPanics(list, size)
      ensures 0 <= size <= SIZE ==> !panicked
      ensures err.Some? ==> !panicked && out == [] && Unread() == old(Unread())
      ensures err == Some(Eof) ==> Unread() == []
      ensures if old(BytesOf(p, buffer)) != []
              then err.None? && Flatten(list) == old(BytesOf(p, buffer)) && unchanged(source)
              else err == (if source.last == [] then source.lastErr else None) && Flatten(list) == source.last
      ensures err.None? && !panicked ==> old(Unread()) == BytesOf(p, out) + Unread()
      ensures old(BytesOf(p, buffer)) == [] && source.exclusive ==> err == source.lastErr
      ensures err.None? && !panicked ==> CutsAt(list, size, BytesOf(p, out))
      ensures err.None? && !panicked && size >= 0 ==> (|BytesOf(p, out)| <= size <==> KeepsLimit(list, size))
      ensures err.None? && !panicked && size >= 0 && |old(Unread())| < 0x8000_0000 ==> |BytesOf(p, out)| <= size
    {
      out, panicked := [], false;
      err := Refill();
      list := Contents(p, buffer);
      if err.Some? { return; }
      if |BytesOf(p, buffer)| < 0x8000_0000 { ShortKeepsLimit(p, buffer, size); }
      out, panicked := CutOff(size);
    }

    /** SplitSize on the buffered list, which is forgotten when nothing is left of it. */
    method CutOff(size: int) returns (out: MultiBuffer, panicked: bool)
      requires Valid() && -0x8000_0000 <= size < 0x8000_0000
      modifies this`buffer, p.repr
      ensures p.Owned() && Grown() && (panicked <==> CutPanics(old(Contents(p, buffer)), size))
      ensures !panicked ==> Valid() && Held(p, out) && old(Unread()) == BytesOf(p, out) + Unread()
      ensures !panicked ==> CutRight(old(Contents(p, buffer)), size, BytesOf(p, out))
    {
      var rest;
      rest, out, panicked := SplitOrDrop(p, buffer, size);
      if panicked { return; }
      buffer := rest;
      Associative(BytesOf(p, out), BytesOf(p, rest), source.remaining);
    }

    /** WriteTo: gives the rest of the stream to the sink, as `rounds` of lists. The bytes of a write that
        failed are gone from the stream, a prefix of them at the sink; so are those of a list that a narrow
        sink drops. */
    method WriteTo(sink: Sink) returns (size: int, end: CopyEnd, ghost rounds: seq<Chunk>)
      requires Valid() && sink !in p.repr
      modifies this`buffer, source, sink, p.repr
      ensures Valid() && Grown() && sink !in p.repr && old(Unread()) == Flatten(rounds) + Unread()
      ensures rounds != [] && size == if |rounds| == 1 then 0 else Counted(rounds)
      ensures |rounds| == 1 ==> end == WriteFailed && rounds[0] == old(BytesOf(p, buffer)) && unchanged(source)
      ensures end != WriteFailed ==> sink.received == old(sink.received) + Delivered(sink.narrow, rounds)
      ensures old(sink.received) <= sink.received <= old(sink.received) + Delivered(sink.narrow, rounds)
      ensures end == WriteFailed <==> sink.failures != old(sink.failures)
      ensures end == AtEof ==> source.lastErr == Some(Eof) && Unread() == []
      ensures end == ReadFailed ==> source.lastErr.Some? && source.lastErr != Some(Eof)
      ensures end == WriteFailed && source.exclusive ==> source.lastErr.None? || unchanged(source)
    {
      ghost var sunk, held := sink.received, BytesOf(p, buffer);
      FlattenSingle(held);
      DeliversOneBefore(sink.narrow, held, []);
      assert [held] + [] == [held];
      var ok, first := WriteHeld(sink);
      if !ok { return 0, WriteFailed, [held]; }
      size, end, rounds := Copy(p, source, sink);
      Joined(sink.narrow, sunk, held, rounds, source.remaining);
      size, rounds := first + size, [held] + rounds;
    }

    /** The buffered list goes first; the writer releases its buffers also when it fails. */
    method WriteHeld(sink: Sink) returns (ok: bool, first: int)
      requires Valid() && sink !in p.repr
      modifies this`buffer, sink, p.repr
      ensures Valid() && Grown() && sink !in p.repr && buffer == [] && first == Int32(|old(BytesOf(p, buffer))|)
      ensures BytesOf(p, buffer) == []
      ensures ok ==> sink.received == old(sink.received) + Arriving(sink.narrow, old(BytesOf(p, buffer)))
      ensures old(sink.received) <= sink.received
      ensures sink.received <= old(sink.received) + Arriving(sink.narrow, old(BytesOf(p, buffer)))
      ensures ok <==> sink.failures == old(sink.failures)
    {
      ok, first := true, 0;
      assert BytesOf(p, []) == [];
      if |buffer| > 0 {
        first := Len(p, buffer);
        ok := sink.WriteMultiBuffer(p, buffer);
        buffer := [];
      }
    }

    // ----- any sequence of calls -----

    /** One call of a client: the bytes it took off the stream, and those of them its caller or the sink got.
        A list given to a narrow sink may have been dropped. */
    method Do(op: ReadOp, sink: Sink)
      returns (ghost taken: Chunk, ghost got: Chunk, ghost dropped: bool,
               failed: bool, sawEof: bool, unwritten: bool, panicked: bool)
      requires Valid() && sink !in p.repr && source.exclusive && op.Ok()
      modifies this`buffer, source, sink, p.repr
      ensures Grown() && sink !in p.repr && (!panicked ==> Valid())
      ensures panicked ==> op.AtMost? && !(0 <= op.size <= SIZE)
      ensures !panicked ==> old(Unread()) == taken + Unread() && Accounted(taken, got, unwritten, dropped, sink.narrow)
      ensures !panicked && !failed ==> op.Allows(|taken|, |old(Unread())|)
      ensures !panicked && sawEof ==> Unread() == []
      ensures sawEof ==> source.lastErr == Some(Eof)
      ensures source.lastErr == Some(Eof) ==> sawEof || old(source.lastErr) == Some(Eof)
    {
      panicked, unwritten, dropped, failed, taken := false, false, false, false, [];
      var err: Option<ReadError> := None;
      match op {
        case Read(max) =>
          var out;
          out, err := Read(max);
          taken := out;
        case OneByte =>
          var b;
          b, err := ReadByte();
          taken := if err.None? then [b] else [];
        case List =>
          var mb;
          mb, err := ReadMultiBuffer();
          taken := BytesOf(p, mb);
        case AtMost(size) =>
          var mb;
          ghost var list;
          mb, err, panicked, list := ReadAtMost(size);
          taken := if err.None? then BytesOf(p, mb) else [];
        case Rest =>
          taken, got, dropped, sawEof, unwritten := DoRest(sink);
          return;
      }
      got, failed, sawEof := taken, err.Some?, err == Some(Eof);
    }

    method DoRest(sink: Sink)
      returns (ghost taken: Chunk, ghost got: Chunk, ghost dropped: bool, sawEof: bool, unwritten: bool)
      requires Valid() && sink !in p.repr
      modifies this`buffer, source, sink, p.repr
      ensures Valid() && Grown() && sink !in p.repr
      ensures old(Unread()) == taken + Unread() && Accounted(taken, got, unwritten, dropped, sink.narrow)
      ensures sink.received == old(sink.received) + got && (sawEof ==> Unread() == [] && source.lastErr == Some(Eof))
      ensures source.exclusive && source.lastErr == Some(Eof) ==> sawEof || old(source.lastErr) == Some(Eof)
    {
      ghost var sunk, rounds := sink.received, [];
      var size, end;
      size, end, rounds := WriteTo(sink);
      taken, sawEof, unwritten := Flatten(rounds), end == AtEof, end == WriteFailed;
      got, dropped := sink.received[|sunk|..], sink.narrow && !NoneDropped(rounds);
      RestAccounted(sink.narrow, sunk, sink.received, rounds, unwritten);
    }

    /** Any sequence of calls, past any number of errors, over a source that answers bytes or an error: what
        the calls took is the stream in order, none lost or repeated; the callers and the sink got all of it
        unless a write failed, or the sink counts in 32 bits and dropped a list, which takes a stream of 2^31
        bytes; and once end of file was seen, as it is when the source answers it, what they took is the whole
        stream. */
    method Session(ops: seq<ReadOp>, sink: Sink)
      returns (ghost taken: Chunk, ghost got: Chunk, ghost dropped: bool, sawEof: bool, unwritten: bool, panicked: bool)
      requires Valid() && sink !in p.repr && source.exclusive && forall i :: 0 <= i < |ops| ==> ops[i].Ok()
      modifies this`buffer, source, sink, p.repr
      ensures !panicked ==> Valid() && old(Unread()) == taken + Unread() && (!unwritten && !dropped ==> got == taken)
      ensures dropped ==> sink.narrow && |old(Unread())| >= 0x8000_0000
      ensures !panicked && sawEof ==> taken == old(Unread())
      ensures !panicked && source.lastErr == Some(Eof) ==> sawEof || old(source.lastErr) == Some(Eof)
      ensures panicked ==> exists op :: op in ops && op.AtMost? && !(0 <= op.size <= SIZE)
    {
      taken, got, dropped, sawEof, unwritten, panicked := [], [], false, false, false, false;
      for i := 0 to |ops|
        invariant Valid() && Grown() && sink !in p.repr && !panicked
        invariant old(Unread()) == taken + Unread() && (!unwritten && !dropped ==> got == taken)
        invariant dropped ==> sink.narrow && |taken| >= 0x8000_0000
        invariant sawEof ==> Unread() == []
        invariant source.lastErr == Some(Eof) ==> sawEof || old(source.lastErr) == Some(Eof)
      {
        ghost var part, given, gone;
        var failed, eof, lost;
        part, given, gone, failed, eof, lost, panicked := Do(ops[i], sink);
        if panicked { return; }
        Associative(taken, part, Unread());
        taken, got, dropped := taken + part, got + given, dropped || gone;
        sawEof, unwritten := sawEof || eof, unwritten || lost;
      }
    }
  }

  /** What was got of what was taken: all of it unless a write failed or a list was dropped. */
  ghost predicate Accounted(taken: Chunk, got: Chunk, unwritten: bool, dropped: bool, narrow: bool) {
    && (!dropped ==> got <= taken) && (!dropped && !unwritten ==> got == taken)
    && (dropped ==> narrow && |taken| >= 0x8000_0000)
  }

  lemma RestAccounted(narrow: bool, sunk: Chunk, received: Chunk, rounds: seq<Chunk>, failed: bool)
    requires sunk <= received <= sunk + Delivered(narrow, rounds)
    requires !failed ==> received == sunk + Delivered(narrow, rounds)
    ensures received == sunk + received[|sunk|..]
    ensures Accounted(Flatten(rounds), received[|sunk|..], failed, narrow && !NoneDropped(rounds), narrow)
  {
    DeliveredExactly(narrow, rounds);
    if |Flatten(rounds)| < 0x8000_0000 { ShortRoundsArrive(rounds); }
    assert received[|sunk|..] <= Delivered(narrow, rounds);
  }

  /** The buffered list and the rounds that follow it. */
  lemma Joined(narrow: bool, sunk: Chunk, held: Chunk, rounds: seq<Chunk>, rest: Chunk)
    ensures Counted([held] + rounds) == Int32(|held|) + Counted(rounds)
    ensures held + (Flatten(rounds) + rest) == Flatten([held] + rounds) + rest
    ensures sunk + Arriving(narrow, held) + Delivered(narrow, rounds) == sunk + Delivered(narrow, [held] + rounds)
  {
    CountsOneBefore(held, rounds);
    DeliversOneBefore(narrow, held, rounds);
    FlattenCons(held, rounds);
    Associative(held, Flatten(rounds), rest);
    Associative(sunk, Arriving(narrow, held), Delivered(narrow, rounds));
  }

  /** The calls a client can make; Rest is WriteTo. */
  datatype ReadOp = Read(max: nat) | OneByte | List | AtMost(size: int) | Rest
  {
    /** The limit of ReadAtMost is a 32-bit integer. */
    predicate Ok() { AtMost? ==> -0x8000_0000 <= size < 0x8000_0000 }

    /** How many bytes a successful call may take off a stream of `left` bytes. */
    predicate Allows(n: nat, left: nat) {
      match this
      case Read(max) => n <= max && (max > 0 ==> n > 0)
      case OneByte => n == 1
      case List => n > 0
      case AtMost(size) => 0 <= size && left < 0x8000_0000 ==> n <= size
      case Rest => true
    }
  }
}
