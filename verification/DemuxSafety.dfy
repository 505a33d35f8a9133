/** What every interleaving of the reading goroutine with any number of calls keeps. */
module DemuxSafety {
  import opened Bytes
  import opened Frames
  import opened Demux

  // ----- identifiers -----

  /** Identifiers are the odd numbers from 1 on, counted in 32 bits. They do not repeat for 2^31 calls, but
      survive the 31-bit field only for the first 2^30. */
  lemma IdsAreDistinct(m: nat, n: nat)
    requires m < n < 0x8000_0000
    ensures IdOf(0) == 1 && IdOf(n) == (IdOf(n - 1) + 2) % 0x1_0000_0000 && IdOf(n) % 2 == 1
    ensures IdOf(m) != IdOf(n)
    ensures IdOf(n) < 0x8000_0000 <==> n < 0x4000_0000
  {
  }

  // ----- the invariant -----

  predicate Held(r: Reader, n: nat) { !r.Free? && r.n == n }

  /** The Range under way may still come to the stream. */
  predicate Visitable(r: Reader, n: nat) { r.sweep.Sweep? && n in r.sweep.seen && n !in r.sweep.visited }

  /** A close of the done channel the reader has begun but not done. */
  function Ending(r: Reader, n: nat): nat { if Held(r, n) && (r.Closing? || r.ends) then 1 else 0 }

  /** Closes of a stream's done channel, done or begun. */
  function Due(c: Client, n: nat): nat
    requires n in c.streams
  {
    c.streams[n].doneCloses + Ending(c.reader, n)
  }

  ghost predicate MapOk(c: Client) {
    && (forall id :: id in c.mapped ==> c.mapped[id] in c.streams && IdOf(c.mapped[id]) == id)
    && (forall n :: n in c.pending || n in c.streams ==> n < c.calls)
    && c.pending !! c.streams.Keys
  }

  ghost predicate ReaderOk(c: Client) {
    && (!c.reader.Free? ==> c.reader.n in c.streams)
    && (c.reader.sweep.Sweep? ==> c.reader.sweep.seen <= c.streams.Keys)
    && (c.reader.sweep.Sweep? && !c.reader.Free? ==> c.reader.n in c.reader.sweep.visited)
    && (c.reader.Holding? && c.reader.todo == [] ==> c.reader.ends)
    && (c.reader.Holding? && Crash in c.reader.todo ==> c.reader.todo == [Crash])
    && (c.reader.Holding? && c.reader.sweep.Sweep? && |c.reader.sweep.frame.payload| >= 8 ==> Crash !in c.reader.todo)
  }

  /** A stream whose done channel is closed, or is being closed after it left the map, is out of reach. */
  ghost predicate DoneOk(c: Client, n: nat)
    requires n in c.streams
  {
    && Due(c, n) <= 1
    && (Due(c, n) == 1 ==> !Visitable(c.reader, n))
    && (Due(c, n) == 1 && !c.reader.Holding? ==> !Mapped(c, n))
    && (c.streams[n].doneCloses == 1 ==> !Held(c.reader, n) && !Mapped(c, n))
  }

  ghost predicate Inv(c: Client) {
    MapOk(c) && ReaderOk(c) && forall n :: n in c.streams ==> DoneOk(c, n)
  }

  lemma StepKeepsMap(c: Client, e: Event)
    requires MapOk(c) && ReaderOk(c) && Enabled(c, e)
    ensures MapOk(Apply(c, e)) && ReaderOk(Apply(c, e))
  {
    if e.Arrive? && e.headers.Some? { HeadersNeverCrash(e.headers.value); }
  }

  lemma {:induction false} HeadersNeverCrash(hs: seq<HeaderField>)
    ensures Crash !in HeaderEffects(hs)
    decreases |hs|
  {
    if hs != [] { HeadersNeverCrash(hs[1..]); }
  }

  lemma ArrivalKeepsDone(c: Client, e: Event, n: nat)
    requires MapOk(c) && n in c.streams && DoneOk(c, n) && Enabled(c, e) && (e.Arrive? || e.Visit? || e.EndSweep?)
    ensures DoneOk(Apply(c, e), n)
  {
  }

  lemma HandlerKeepsDone(c: Client, e: Event, n: nat)
    requires ReaderOk(c) && n in c.streams && DoneOk(c, n) && Enabled(c, e) && (e.Write? || e.Unmap? || e.CloseDone?)
    ensures DoneOk(Apply(c, e), n)
  {
  }

  lemma CallerKeepsDone(c: Client, e: Event, n: nat)
    requires MapOk(c) && ReaderOk(c) && Enabled(c, e) && !ByReader(e)
    requires n in Apply(c, e).streams && (n in c.streams ==> DoneOk(c, n))
    ensures DoneOk(Apply(c, e), n)
  {
  }

  lemma StepKeepsDone(c: Client, e: Event, n: nat)
    requires Inv(c) && Enabled(c, e) && n in Apply(c, e).streams
    ensures DoneOk(Apply(c, e), n)
  {
    if n in c.streams { assert DoneOk(c, n); }
    if !ByReader(e) {
      CallerKeepsDone(c, e, n);
    } else if e.Arrive? || e.Visit? || e.EndSweep? {
      ArrivalKeepsDone(c, e, n);
    } else {
      HandlerKeepsDone(c, e, n);
    }
  }

  lemma StepKeepsInv(c: Client, e: Event)
    requires Inv(c) && Enabled(c, e)
    ensures Inv(Apply(c, e))
  {
    StepKeepsMap(c, e);
    forall n | n in Apply(c, e).streams ensures DoneOk(Apply(c, e), n) {
      StepKeepsDone(c, e, n);
    }
  }

  lemma {:induction false} RunKeepsInv(c: Client, run: seq<Event>)
    requires Inv(c) && Legal(c, run)
    ensures Inv(Exec(c, run))
  {
    if run != [] {
      RunKeepsInv(c, run[..|run| - 1]);
      StepKeepsInv(Exec(c, run[..|run| - 1]), run[|run| - 1]);
    }
  }

  /** No done channel is ever closed twice, in any run of any number of calls. */
  lemma DoneClosesAtMostOnce(run: seq<Event>)
    requires Legal(Initial(), run)
    ensures var c := Exec(Initial(), run); forall n :: n in c.streams ==> c.streams[n].doneCloses <= 1
  {
    RunKeepsInv(Initial(), run);
    var c := Exec(Initial(), run);
    forall n | n in c.streams ensures c.streams[n].doneCloses <= 1 {
      assert DoneOk(c, n);
    }
  }

  lemma StepOnClosedStream(c: Client, e: Event, n: nat)
    requires MapOk(c) && n in c.streams && DoneOk(c, n) && c.streams[n].doneCloses == 1 && Enabled(c, e)
    ensures n in Apply(c, e).streams && Apply(c, e).streams[n] == c.streams[n]
  {
  }

  /** Once its done channel is closed, which is when its caller looks at it, no run changes a stream. */
  lemma {:induction false} ClosedStreamIsFrozen(c: Client, run: seq<Event>, n: nat)
    requires Inv(c) && Legal(c, run) && n in c.streams && c.streams[n].doneCloses == 1
    ensures n in Exec(c, run).streams && Exec(c, run).streams[n] == c.streams[n]
  {
    if run != [] {
      var before := run[..|run| - 1];
      ClosedStreamIsFrozen(c, before, n);
      RunKeepsInv(c, before);
      assert DoneOk(Exec(c, before), n);
      StepOnClosedStream(Exec(c, before), run[|run| - 1], n);
    }
  }

  // ----- one stream among many, as the events tell it -----

  /** The events that take the stream of call `n` out of the map. */
  predicate Unmaps(e: Event, n: nat) { (e.Delete? || e.Unmap? || e.Store?) && IdOf(e.n) == IdOf(n) }

  predicate Gone(run: seq<Event>, n: nat) {
    run != [] && (Gone(run[..|run| - 1], n) || Unmaps(run[|run| - 1], n))
  }

  predicate IsDataOf(e: Event, n: nat) { e.Arrive? && e.frame.kind == DATA && e.frame.streamId == IdOf(n) }

  /** A frame that ends the stream: data or decoded headers with the END_STREAM flag 0x1, or a reset. */
  predicate IsEndOf(e: Event, n: nat) {
    && e.Arrive? && e.frame.streamId == IdOf(n)
    && (|| e.frame.kind == RST_STREAM
        || (e.frame.flags % 2 == 1 && (e.frame.kind == DATA || (e.frame.kind == HEADERS && e.headers.Some?))))
  }

  /** The bytes of the DATA frames that arrive for a stream while it is in the map. */
  function OwnData(run: seq<Event>, n: nat): seq<byte> {
    if run == [] then []
    else
      var before, last := run[..|run| - 1], run[|run| - 1];
      OwnData(before, n) + (if !Gone(before, n) && IsDataOf(last, n) then last.frame.payload else [])
  }

  /** How often the events tell the stream to end: frames that arrive while it is in the map, and visits. */
  function OwnEnds(run: seq<Event>, n: nat): nat {
    if run == [] then 0
    else
      var before, last := run[..|run| - 1], run[|run| - 1];
      OwnEnds(before, n) + (if (!Gone(before, n) && IsEndOf(last, n)) || last == Visit(n) then 1 else 0)
  }

  /** The bytes effects append. */
  function Carried(todo: seq<Effect>): seq<byte> {
    if todo == [] then [] else (if todo[0].Append? then todo[0].bytes else []) + Carried(todo[1..])
  }

  /** The bytes of the frame in the reader's hand that have not reached the stream yet. */
  function InHand(r: Reader, n: nat): seq<byte> { if r.Holding? && r.n == n then Carried(r.todo) else [] }

  function Flowing(c: Client, n: nat): seq<byte>
    requires n in c.streams
  {
    c.streams[n].payload + InHand(c.reader, n)
  }

  lemma {:induction false} HeadersCarryNothing(hs: seq<HeaderField>)
    ensures Carried(HeaderEffects(hs)) == []
    decreases |hs|
  {
    if hs != [] {
      HeadersCarryNothing(hs[1..]);
      var all := HeaderEffects(hs);
      assert all[0] == HeaderEffect(hs[0]) && all[1..] == HeaderEffects(hs[1..]);
    }
  }

  lemma WorkCarries(f: Frame, headers: Option<seq<HeaderField>>)
    ensures Carried(Work(f, headers).0) == if f.kind == DATA then f.payload else []
  {
    if f.kind == HEADERS && headers.Some? {
      HeadersCarryNothing(headers.value);
    } else if f.kind == RST_STREAM {
      ResetCarriesNothing(ResetEffects(f));
    } else if f.kind == DATA {
      assert [Append(f.payload)][1..] == [];
    }
  }

  lemma ResetCarriesNothing(todo: seq<Effect>)
    requires todo == [Crash] || (|todo| == 2 && todo[0].SetStatus? && todo[1].SetMessage?)
    ensures Carried(todo) == []
  {
    if |todo| == 2 { assert todo[1..][1..] == [] && todo[1..][0] == todo[1]; }
  }

  lemma WriteMovesBytes(c: Client, n: nat)
    requires Enabled(c, Write(n))
    ensures Flowing(Apply(c, Write(n)), n) == Flowing(c, n)
    ensures Due(Apply(c, Write(n)), n) == Due(c, n)
  {
    assert c.reader.todo == [c.reader.todo[0]] + c.reader.todo[1..];
    var s, x, rest := c.streams[n], c.reader.todo[0], c.reader.todo[1..];
    AffectCarries(s, x, rest);
    if !x.Crash? {
      assert InHand(Hold(n, rest, c.reader.ends, c.reader.sweep), n) == Carried(rest);
    }
  }

  lemma AffectCarries(s: Stream, x: Effect, rest: seq<Effect>)
    ensures Affect(s, x).payload + Carried(rest) == s.payload + Carried([x] + rest)
    ensures Affect(s, x).doneCloses == s.doneCloses
  {
    assert ([x] + rest)[1..] == rest;
    if x.Append? {
      Associative(s.payload, x.bytes, Carried(rest));
    } else {
      assert [] + Carried(rest) == Carried(rest);
    }
  }

  /** What one event means for one stream: the bytes and the closes it brings. */
  ghost predicate Brings(c: Client, e: Event, n: nat)
    requires Enabled(c, e) && n in c.streams
  {
    var c' := Apply(c, e);
    && n in c'.streams
    && (Mapped(c', n) <==> Mapped(c, n) && !Unmaps(e, n))
    && Flowing(c', n) == Flowing(c, n) + (if Mapped(c, n) && IsDataOf(e, n) then e.frame.payload else [])
    && Due(c', n) == Due(c, n) + (if (Mapped(c, n) && IsEndOf(e, n)) || e == Visit(n) then 1 else 0)
  }

  lemma ArrivalOnStream(c: Client, e: Event, n: nat)
    requires MapOk(c) && Enabled(c, e) && n in c.streams && e.Arrive?
    ensures Brings(c, e, n)
  {
    WorkCarries(e.frame, e.headers);
  }

  lemma SweepOnStream(c: Client, e: Event, n: nat)
    requires Enabled(c, e) && n in c.streams && (e.Visit? || e.EndSweep?)
    ensures Brings(c, e, n)
  {
    if e.Visit? { ResetCarriesNothing(GoAwayEffects(c.reader.sweep.frame)); }
  }

  lemma StepOnStream(c: Client, e: Event, n: nat)
    requires MapOk(c) && ReaderOk(c) && Enabled(c, e) && n in c.streams
    ensures Brings(c, e, n)
  {
    if e.Arrive? {
      ArrivalOnStream(c, e, n);
    } else if e.Visit? || e.EndSweep? {
      SweepOnStream(c, e, n);
    } else if e == Write(n) {
      WriteMovesBytes(c, n);
    }
  }

  /** Demultiplexing: however frames, the accesses of their handlers and the steps of all calls interleave,
      what a stored stream's payload gains, together with the frame in hand, is the in-order concatenation of
      the DATA frames that arrived for it while it was mapped; its done channel is closed, or about to be,
      exactly as often as such a frame or a visit ended it. */
  lemma {:induction false} StreamGetsItsOwnData(c: Client, run: seq<Event>, n: nat)
    requires Inv(c) && Legal(c, run) && Mapped(c, n)
    ensures var c' := Exec(c, run);
            && n in c.streams && n in c'.streams
            && Flowing(c', n) == Flowing(c, n) + OwnData(run, n)
            && Due(c', n) == Due(c, n) + OwnEnds(run, n)
            && (Mapped(c', n) <==> !Gone(run, n))
  {
    if run != [] {
      var before, last := run[..|run| - 1], run[|run| - 1];
      StreamGetsItsOwnData(c, before, n);
      RunKeepsInv(c, before);
      StepOnStream(Exec(c, before), last, n);
      var more := if !Gone(before, n) && IsDataOf(last, n) then last.frame.payload else [];
      Associative(Flowing(c, n), OwnData(before, n), more);
    }
  }

  // ----- a call that gives up early -----

  function AffectAll(s: Stream, todo: seq<Effect>): Stream
    decreases |todo|
  {
    if todo == [] then s else AffectAll(Affect(s, todo[0]), todo[1..])
  }

  /** The stream once the reader is finished with it; a handler that crashes never is. */
  function Landed(c: Client, n: nat): Stream
    requires n in c.streams
  {
    var s := c.streams[n];
    if !Held(c.reader, n) then s
    else if c.reader.Closing? then s.(doneCloses := s.doneCloses + 1)
    else if Crash in c.reader.todo then s
    else
      var s1 := AffectAll(s, c.reader.todo);
      if c.reader.ends then s1.(doneCloses := s1.doneCloses + 1) else s1
  }

  lemma AffectKeepsCloses(s: Stream, todo: seq<Effect>)
    ensures AffectAll(s, todo).doneCloses == s.doneCloses
    decreases |todo|
  {
    if todo != [] { AffectKeepsCloses(Affect(s, todo[0]), todo[1..]); }
  }

  /** No frame and no visit can change the stream any more, except what is already in hand: it is not in
      the map, and a Range that could still come to it would crash before changing it. */
  ghost predicate OutOfReach(c: Client, n: nat) {
    n in c.streams && !Mapped(c, n) && (Visitable(c.reader, n) ==> |c.reader.sweep.frame.payload| < 8)
  }

  lemma WriteLands(c: Client, n: nat)
    requires Enabled(c, Write(n)) && (Crash in c.reader.todo ==> c.reader.todo == [Crash])
    ensures Landed(Apply(c, Write(n)), n) == Landed(c, n)
  {
    var todo := c.reader.todo;
    assert todo == [todo[0]] + todo[1..];
    AffectKeepsCloses(c.streams[n], todo);
  }

  lemma StepOutOfReach(c: Client, e: Event, n: nat)
    requires MapOk(c) && ReaderOk(c) && Enabled(c, e) && OutOfReach(c, n)
    ensures OutOfReach(Apply(c, e), n) && Landed(Apply(c, e), n) == Landed(c, n)
  {
    if e == Write(n) { WriteLands(c, n); }
  }

  /** After a caller took its stream out of the map, at most the frame the reader already holds still lands,
      in every continuation. */
  lemma {:induction false} OnlyTheFrameInHandLands(c: Client, run: seq<Event>, n: nat)
    requires Inv(c) && Legal(c, run) && OutOfReach(c, n)
    ensures var c' := Exec(c, run);
            && OutOfReach(c', n) && Landed(c', n) == Landed(c, n)
            && (!Held(c'.reader, n) ==> c'.streams[n] == Landed(c, n))
  {
    if run != [] {
      var before := run[..|run| - 1];
      OnlyTheFrameInHandLands(c, before, n);
      RunKeepsInv(c, before);
      StepOutOfReach(Exec(c, before), run[|run| - 1], n);
    }
  }

  function StepsLeft(r: Reader): nat { if r.Free? then 0 else if r.Closing? then 1 else |r.todo| + 2 }

  /** `m` follows `c` by steps of the reader on the stream it holds. */
  ghost predicate FinishedWith(c: Client, m: Client, n: nat) {
    && n in c.streams && n in m.streams && m.streams[n] == Landed(c, n)
    && m.reader == Free(c.reader.sweep) && !m.panicked
    && forall k :: k in c.streams && k != n ==> k in m.streams && m.streams[k] == c.streams[k]
  }

  lemma NextStep(c: Client, n: nat) returns (e: Event)
    requires ReaderOk(c) && !c.panicked && Held(c.reader, n) && (c.reader.Holding? ==> Crash !in c.reader.todo)
    ensures Enabled(c, e)
    ensures var c' := Apply(c, e);
            && StepsLeft(c'.reader) < StepsLeft(c.reader) && c'.reader.sweep == c.reader.sweep && !c'.panicked
            && (c'.reader.Free? || (c'.reader.n == n && (c'.reader.Holding? ==> Crash !in c'.reader.todo)))
            && n in c'.streams && Landed(c', n) == Landed(c, n)
            && (forall k :: k in c.streams && k != n ==> k in c'.streams && c'.streams[k] == c.streams[k])
  {
    e := if c.reader.Closing? then CloseDone(n) else if c.reader.todo == [] then Unmap(n) else Write(n);
    if e.Write? { WriteLands(c, n); }
  }

  /** Left alone, the reader finishes with the stream it holds. */
  lemma {:induction false} Finish(c: Client, begun: seq<Event>, n: nat) returns (run: seq<Event>)
    requires Inv(c) && Legal(c, begun)
    requires var m := Exec(c, begun);
             !m.panicked && Held(m.reader, n) && (m.reader.Holding? ==> Crash !in m.reader.todo)
    ensures Legal(c, run) && FinishedWith(Exec(c, begun), Exec(c, run), n)
    decreases StepsLeft(Exec(c, begun).reader)
  {
    RunKeepsInv(c, begun);
    var e := NextStep(Exec(c, begun), n);
    Extend(c, begun, e);
    if Exec(c, begun + [e]).reader.Free? {
      run := begun + [e];
    } else {
      run := Finish(c, begun + [e], n);
    }
  }

  /** The stream stays as it is, whenever the reader does not hold it, in every continuation. */
  ghost predicate Frozen(c: Client, n: nat)
    requires n in c.streams
  {
    forall run :: Legal(c, run) && !Held(Exec(c, run).reader, n) ==>
      n in Exec(c, run).streams && Exec(c, run).streams[n] == c.streams[n]
  }

  lemma Thaws(c: Client, n: nat)
    requires Inv(c) && !c.panicked && n in c.streams && Landed(c, n) != c.streams[n]
    ensures !Frozen(c, n)
  {
    var run := Finish(c, [], n);
    assert Exec(c, run).streams[n] != c.streams[n];
  }

  lemma VisitThaws(c: Client, n: nat)
    requires Inv(c) && !c.panicked && n in c.streams && Visitable(c.reader, n) && |c.reader.sweep.frame.payload| >= 8
    ensures !Frozen(c, n)
  {
    var run := FinishOther(c, n);
    var m := Exec(c, run);
    Extend(c, run, Visit(n));
    var done := Finish(c, run + [Visit(n)], n);
    AffectKeepsCloses(m.streams[n], GoAwayEffects(m.reader.sweep.frame));
    assert Exec(c, done).streams[n].doneCloses == c.streams[n].doneCloses + 1;
  }

  /** The reader finishes with the stream it holds, which is not the one still to be visited. */
  lemma FinishOther(c: Client, n: nat) returns (run: seq<Event>)
    requires Inv(c) && !c.panicked && n in c.streams && Visitable(c.reader, n) && |c.reader.sweep.frame.payload| >= 8
    ensures Legal(c, run)
    ensures var m := Exec(c, run);
            !m.panicked && m.reader == Free(c.reader.sweep) && n in m.streams && m.streams[n] == c.streams[n]
  {
    run := [];
    if !c.reader.Free? { run := Finish(c, [], c.reader.n); }
  }

  /** Exactly when a stream that left the map stays as it is: when the frame in hand, if any, changes nothing,
      and no Range under way can still end it. */
  lemma FrozenExactly(c: Client, n: nat)
    requires Inv(c) && !c.panicked && n in c.streams && !Mapped(c, n)
    ensures Frozen(c, n) <==> Landed(c, n) == c.streams[n] && OutOfReach(c, n)
  {
    if Landed(c, n) != c.streams[n] {
      Thaws(c, n);
    } else if !OutOfReach(c, n) {
      VisitThaws(c, n);
    } else {
      forall run | Legal(c, run) && !Held(Exec(c, run).reader, n)
        ensures n in Exec(c, run).streams && Exec(c, run).streams[n] == c.streams[n]
      {
        OnlyTheFrameInHandLands(c, run, n);
      }
    }
  }

  ghost predicate Leads(run: seq<Event>, c: Client) { Legal(Initial(), run) && Exec(Initial(), run) == c }

  lemma Then(run: seq<Event>, c: Client, e: Event)
    requires Leads(run, c) && Enabled(c, e)
    ensures Leads(run + [e], Apply(c, e))
  {
    Extend(Initial(), run, e);
  }

  /** The only call's stream is stored, a last DATA frame for it is in the reader's hand, its caller gives up. */
  lemma GivesUpEarly(f: Frame) returns (run: seq<Event>, c: Client)
    requires f.kind == DATA && f.streamId == IdOf(0) && HasLowFlag(f)
    ensures Leads(run, c) && run == [Allocate] + [Store(0)] + [Arrive(f, None, true)] + [Delete(0)]
    ensures var r := Holding(0, [Append(f.payload)], true, NoSweep);
            c == Client(1, {}, map[0 := NEW_STREAM], map[], r, false, false)
  {
    var c0 := Initial();
    assert [] + [Allocate] == [Allocate];
    Then([], c0, Allocate);
    var c1 := Apply(c0, Allocate);
    Then([Allocate], c1, Store(0));
    var c2 := Apply(c1, Store(0));
    Then([Allocate] + [Store(0)], c2, Arrive(f, None, true));
    var c3 := Apply(c2, Arrive(f, None, true));
    assert c3 == c2.(reader := Holding(0, [Append(f.payload)], true, NoSweep));
    Then([Allocate] + [Store(0)] + [Arrive(f, None, true)], c3, Delete(0));
    run, c := [Allocate] + [Store(0)] + [Arrive(f, None, true)] + [Delete(0)], Apply(c3, Delete(0));
    assert c.pending == {} && c.mapped == map[] && c.streams == map[0 := NEW_STREAM];
  }

  /** The frame in hand does land: after its caller deleted it, the stream gains bytes and is closed. */
  lemma LateFrameLands(f: Frame) returns (run: seq<Event>, late: seq<Event>)
    requires f.kind == DATA && f.streamId == IdOf(0) && HasLowFlag(f)
    ensures run == [Allocate] + [Store(0)] + [Arrive(f, None, true)] + [Delete(0)] && Legal(Initial(), run)
    ensures late == run + [Write(0)] + [Unmap(0)] + [CloseDone(0)] && Legal(Initial(), late)
    ensures Exec(Initial(), run).streams == map[0 := NEW_STREAM] && Exec(Initial(), run).mapped == map[]
    ensures Exec(Initial(), late).streams == map[0 := NEW_STREAM.(payload := f.payload, doneCloses := 1)]
  {
    var c;
    run, c := GivesUpEarly(f);
    Then(run, c, Write(0));
    var c1 := Apply(c, Write(0));
    assert [Append(f.payload)][1..] == [] && NEW_STREAM.payload + f.payload == f.payload;
    assert c1.reader == Holding(0, [], true, NoSweep) && c1.streams == map[0 := NEW_STREAM.(payload := f.payload)];
    Then(run + [Write(0)], c1, Unmap(0));
    Then(run + [Write(0)] + [Unmap(0)], Apply(c1, Unmap(0)), CloseDone(0));
    late := run + [Write(0)] + [Unmap(0)] + [CloseDone(0)];
  }

  // ----- panics -----

  /** The client panics exactly at a second SETTINGS frame whose ack could be written, or where a handler
      slices a payload that is too short: of a reset for a stream in the map, or of a GOAWAY that visits one. */
  lemma PanicsExactly(c: Client, e: Event)
    requires ReaderOk(c) && Enabled(c, e)
    ensures Apply(c, e).panicked <==>
              || (e.Arrive? && e.frame.kind == SETTINGS && !HasLowFlag(e.frame) && e.ackWritten && c.settingsAcked)
              || (e.Write? && c.reader.todo == [Crash])
    ensures e.Arrive? ==>
              (Apply(c, e).reader.Holding? && Apply(c, e).reader.todo == [Crash] <==>
                 e.frame.kind == RST_STREAM && e.frame.streamId in c.mapped && |e.frame.payload| < 4)
    ensures e.Visit? ==> (Apply(c, e).reader.todo == [Crash] <==> |c.reader.sweep.frame.payload| < 8)
    ensures e.Write? && Apply(c, e).reader.Holding? && Apply(c, e).reader.todo == [Crash] ==> c.reader.todo == [Crash]
  {
    if e.Arrive? && e.headers.Some? { HeadersNeverCrash(e.headers.value); }
    if e.Write? {
      var todo := c.reader.todo;
      assert todo == [todo[0]] + todo[1..];
    }
  }

  /** A SETTINGS frame that is acknowledged to the peer. */
  predicate IsAcked(e: Event) { e.Arrive? && e.frame.kind == SETTINGS && !HasLowFlag(e.frame) && e.ackWritten }

  predicate SomeAcked(run: seq<Event>) {
    run != [] && (SomeAcked(run[..|run| - 1]) || IsAcked(run[|run| - 1]))
  }

  /** The latest step of the reader, and the latest arrival. */
  function LastStep(run: seq<Event>): Option<Event> {
    if run == [] then None
    else if ByReader(run[|run| - 1]) then Some(run[|run| - 1])
    else LastStep(run[..|run| - 1])
  }

  function LastArrival(run: seq<Event>): Option<Event> {
    if run == [] then None
    else if run[|run| - 1].Arrive? then Some(run[|run| - 1])
    else LastArrival(run[..|run| - 1])
  }

  /** The reader's latest step found a reset, or a stream for a GOAWAY, whose payload is too short. */
  predicate ShortInHand(run: seq<Event>) {
    && LastStep(run).Some?
    && var e := LastStep(run).value;
       || (e.Arrive? && e.frame.kind == RST_STREAM && |e.frame.payload| < 4)
       || (e.Visit? && LastArrival(run).Some? && LastArrival(run).value.Arrive?
           && |LastArrival(run).value.frame.payload| < 8)
  }

  /** What the events tell about the reader's crash to come and the channel of the settings. */
  ghost predicate Foretold(c: Client, run: seq<Event>) {
    && (c.settingsAcked <==> SomeAcked(run))
    && (c.reader.sweep.Sweep? ==> LastArrival(run).Some? && LastArrival(run).value.Arrive?
                                  && LastArrival(run).value.frame == c.reader.sweep.frame)
    && (c.reader.Holding? ==> (c.reader.todo == [Crash] <==> ShortInHand(run)))
  }

  lemma OneMore(run: seq<Event>, e: Event)
    ensures SomeAcked(run + [e]) <==> SomeAcked(run) || IsAcked(e)
    ensures LastStep(run + [e]) == if ByReader(e) then Some(e) else LastStep(run)
    ensures LastArrival(run + [e]) == if e.Arrive? then Some(e) else LastArrival(run)
  {
    var all := run + [e];
    assert all[|all| - 1] == e && all[..|all| - 1] == run;
  }

  lemma ArrivalForetold(c: Client, run: seq<Event>, e: Event)
    requires ReaderOk(c) && Enabled(c, e) && Foretold(c, run) && !Apply(c, e).panicked && e.Arrive?
    ensures Foretold(Apply(c, e), run + [e])
  {
    OneMore(run, e);
    PanicsExactly(c, e);
  }

  lemma SweepForetold(c: Client, run: seq<Event>, e: Event)
    requires ReaderOk(c) && Enabled(c, e) && Foretold(c, run) && (e.Visit? || e.EndSweep?)
    ensures Foretold(Apply(c, e), run + [e])
  {
    OneMore(run, e);
    PanicsExactly(c, e);
  }

  lemma HandlerForetold(c: Client, run: seq<Event>, e: Event)
    requires ReaderOk(c) && Enabled(c, e) && Foretold(c, run) && !Apply(c, e).panicked
    requires e.Write? || e.Unmap? || e.CloseDone?
    ensures Foretold(Apply(c, e), run + [e])
  {
    OneMore(run, e);
    PanicsExactly(c, e);
  }

  lemma CallerForetold(c: Client, run: seq<Event>, e: Event)
    requires Enabled(c, e) && Foretold(c, run) && !ByReader(e)
    ensures Foretold(Apply(c, e), run + [e])
  {
    OneMore(run, e);
  }

  lemma StepForetold(c: Client, run: seq<Event>, e: Event)
    requires ReaderOk(c) && Enabled(c, e) && Foretold(c, run) && !Apply(c, e).panicked
    ensures Foretold(Apply(c, e), run + [e])
  {
    if !ByReader(e) {
      CallerForetold(c, run, e);
    } else if e.Arrive? {
      ArrivalForetold(c, run, e);
    } else if e.Visit? || e.EndSweep? {
      SweepForetold(c, run, e);
    } else {
      HandlerForetold(c, run, e);
    }
  }

  lemma {:induction false} RunForetold(run: seq<Event>)
    requires Legal(Initial(), run) && !Exec(Initial(), run).panicked
    ensures Foretold(Exec(Initial(), run), run)
  {
    if run != [] {
      var n := |run| - 1;
      RunForetold(run[..n]);
      RunKeepsInv(Initial(), run[..n]);
      assert run == run[..n] + [run[n]];
      StepForetold(Exec(Initial(), run[..n]), run[..n], run[n]);
    }
  }

  /** Over whole runs: a run ends in a panic if and only if its last step acknowledges settings for the second
      time, or is the access that follows a short reset of a stream in the map or a short GOAWAY's visit. */
  lemma RunPanicsExactly(run: seq<Event>)
    requires Legal(Initial(), run)
    ensures Exec(Initial(), run).panicked <==>
              run != [] &&
              (var before, last := run[..|run| - 1], run[|run| - 1];
               (IsAcked(last) && SomeAcked(before)) || (last.Write? && ShortInHand(before)))
  {
    if run != [] {
      var n := |run| - 1;
      RunForetold(run[..n]);
      RunKeepsInv(Initial(), run[..n]);
      PanicsExactly(Exec(Initial(), run[..n]), run[n]);
    }
  }

  // ----- from the wire to the message -----

  lemma LetGo(c: Client, n: nat)
    requires n in c.streams && DoneOk(c, n) && (c.streams[n].doneCloses == 1 || !Held(c.reader, n))
    ensures Flowing(c, n) == c.streams[n].payload
  {
  }

  /** Reassembly: any fragmentation of an encoded message over a stream's DATA frames, interleaved with
      anything else, decodes to that message once the reader has let go of the stream. */
  lemma FragmentsReassemble(c: Client, run: seq<Event>, n: nat, message: seq<byte>, spare: seq<byte>)
    requires Inv(c) && Legal(c, run) && Mapped(c, n) && Flowing(c, n) == []
    requires OwnData(run, n) == EncodeGrpc(message) && |message| + 5 < 0x1_0000_0000
    ensures var c' := Exec(c, run);
            && n in c'.streams && DecodeGrpc(Flowing(c', n), spare) == Ok(message)
            && (c'.streams[n].doneCloses == 1 || !Held(c'.reader, n) ==>
                  DecodeGrpc(c'.streams[n].payload, spare) == Ok(message))
  {
    StreamGetsItsOwnData(c, run, n);
    RunKeepsInv(c, run);
    var c' := Exec(c, run);
    assert DoneOk(c', n);
    if c'.streams[n].doneCloses == 1 || !Held(c'.reader, n) { LetGo(c', n); }
    assert [] + EncodeGrpc(message) == EncodeGrpc(message);
    GrpcRoundTrip(message, spare);
  }

  /** The frames of a run, in the order they arrive. */
  function FramesOf(run: seq<Event>): seq<Frame> {
    if run == [] then []
    else FramesOf(run[..|run| - 1]) + (if run[|run| - 1].Arrive? then [run[|run| - 1].frame] else [])
  }

  /** The bytes all DATA frames of a list carry for one stream. */
  function DataFor(frames: seq<Frame>, id: nat): seq<byte> {
    if frames == [] then []
    else
      var last := frames[|frames| - 1];
      DataFor(frames[..|frames| - 1], id) + (if last.kind == DATA && last.streamId == id then last.payload else [])
  }

  /** Nothing takes the stream out of the map before its last DATA frame has arrived. */
  ghost predicate Undisturbed(run: seq<Event>, n: nat) {
    forall i :: 0 <= i < |run| && IsDataOf(run[i], n) ==> !Gone(run[..i], n)
  }

  lemma {:induction false} UndisturbedGetsAll(run: seq<Event>, n: nat)
    requires Undisturbed(run, n)
    ensures OwnData(run, n) == DataFor(FramesOf(run), IdOf(n))
  {
    if run != [] {
      var k := |run| - 1;
      var before, last := run[..k], run[k];
      assert Undisturbed(before, n) by {
        forall i | 0 <= i < |before| && IsDataOf(before[i], n) ensures !Gone(before[..i], n) {
          assert before[..i] == run[..i] && before[i] == run[i];
        }
      }
      UndisturbedGetsAll(before, n);
      assert IsDataOf(last, n) ==> !Gone(run[..k], n);
      if last.Arrive? {
        var frames := FramesOf(run);
        assert frames[|frames| - 1] == last.frame && frames[..|frames| - 1] == FramesOf(before);
      } else {
        assert FramesOf(run) == FramesOf(before);
      }
    }
  }

  /** End to end: a peer writes any frames one after the other; in every run of the client that reads them off
      the wire, among any steps of any calls, a new stream that is left in the map until its last DATA frame
      has arrived gets exactly the message its DATA frames carry. */
  lemma WireToMessage(c: Client, frames: seq<Frame>, run: seq<Event>, n: nat, message: seq<byte>, spare: seq<byte>)
    requires forall i :: 0 <= i < |frames| ==> Fits(frames[i])
    requires Inv(c) && Legal(c, run) && Mapped(c, n) && Flowing(c, n) == []
    requires FramesOf(run) == ParseFrames(EncodeFrames(frames)) && Undisturbed(run, n)
    requires DataFor(frames, IdOf(n)) == EncodeGrpc(message) && |message| + 5 < 0x1_0000_0000
    ensures var c' := Exec(c, run);
            && n in c'.streams
            && (c'.streams[n].doneCloses == 1 || !Held(c'.reader, n) ==>
                  DecodeGrpc(c'.streams[n].payload, spare) == Ok(message))
  {
    FramesRoundTrip(frames);
    UndisturbedGetsAll(run, n);
    FragmentsReassemble(c, run, n, message, spare);
  }
}
