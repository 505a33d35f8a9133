/** Byte conservation, end-of-file and memory bound of the pipe, over every run. */
module PipeSafety {
  import opened Bytes
  import opened PipeProtocol

  lemma {:induction false} EmptyMeansNoBytes(mb: seq<Chunk>)
    ensures IsEmpty(mb) <==> Flatten(mb) == []
  {
    if mb != [] {
      EmptyMeansNoBytes(mb[1..]);
      assert IsEmpty(mb) <==> mb[0] == [] && IsEmpty(mb[1..]) by {
        assert forall i :: 0 <= i < |mb[1..]| ==> mb[1..][i] == mb[i + 1];
        if mb[0] == [] && IsEmpty(mb[1..]) {
          assert forall i :: 0 < i < |mb| ==> mb[i] == mb[1..][i - 1];
        }
      }
    }
  }

  // ----- shape of the shared state and of the threads -----

  ghost predicate SharedOk(sh: Shared) {
    && (sh.done <==> sh.status != Open)
    && (sh.data.Some? ==> !IsEmpty(sh.data.value))
    && (sh.status == Errored ==> sh.data.None?)
  }

  ghost predicate ThreadOk(cfg: Config, th: Thread) {
    match th
    case WriteTry(mb) => !IsEmpty(mb)
    case WriteWait(mb) => !IsEmpty(mb) && cfg.limit >= 0 && !cfg.discardOverflow
    case ReadSignal(o) => (o.Data? && !IsEmpty(o.chunks)) || o == Failed(EndOfFile) || o == Failed(ClosedPipe)
    case WriteSignal(r) => r == None || r == Some(ClosedPipe)
    case _ => true
  }

  ghost predicate ThreadsOk(cfg: Config, s: State) {
    forall i :: 0 <= i < |s.threads| ==> ThreadOk(cfg, s.threads[i])
  }

  ghost predicate ShapeOk(cfg: Config, s: State) {
    SharedOk(s.sh) && ThreadsOk(cfg, s)
  }

  lemma StepKeepsShape(cfg: Config, s: State, e: Event)
    requires ShapeOk(cfg, s) && Enabled(cfg, s, e)
    ensures ShapeOk(cfg, Apply(cfg, s, e))
  {
    assert ThreadOk(cfg, s.threads[e.t]);
    if e.TryWrite? && s.sh.data.Some? {
      var had, mb := s.sh.data.value, s.threads[e.t].mb;
      assert !IsEmpty(had + mb) by {
        FlattenAppend(had, mb);
        EmptyMeansNoBytes(had);
        EmptyMeansNoBytes(had + mb);
      }
    }
  }

  // ----- conservation -----

  /** What was delivered and what is still buffered is what was accepted. */
  ghost predicate Conserved(s: State) {
    && (s.sh.status != Errored ==> s.hist.delivered + Content(s.sh.data) == s.hist.accepted)
    && s.hist.delivered <= s.hist.accepted
    && (s.hist.sawEof ==> s.sh.status == Closed && s.sh.data.None?)
  }

  /** A step other than a read section, a write section or an interrupt moves no byte:
      in particular a timeout, an injected error, a wake-up or Close never consumes data. */
  lemma OtherStepsMoveNothing(cfg: Config, s: State, e: Event)
    requires Enabled(cfg, s, e) && !e.TryRead? && !e.TryWrite? && !e.Interrupt?
    ensures Apply(cfg, s, e).sh.data == s.sh.data
    ensures Apply(cfg, s, e).hist.accepted == s.hist.accepted
    ensures Apply(cfg, s, e).hist.delivered == s.hist.delivered
    ensures Apply(cfg, s, e).hist.sawEof == s.hist.sawEof
  {
  }

  lemma TryWriteKeepsConserved(cfg: Config, s: State, t: nat)
    requires ShapeOk(cfg, s) && Conserved(s) && Enabled(cfg, s, TryWrite(t))
    ensures Conserved(AfterTryWrite(cfg, s, t))
  {
    var d, c, m := s.hist.delivered, Content(s.sh.data), Flatten(s.threads[t].mb);
    if GetState(cfg, s.sh, false).None? {
      if s.sh.data.Some? {
        FlattenAppend(s.sh.data.value, s.threads[t].mb);
      }
      assert d + (c + m) == d + c + m;
    }
  }

  lemma StepKeepsConserved(cfg: Config, s: State, e: Event)
    requires ShapeOk(cfg, s) && Conserved(s) && Enabled(cfg, s, e)
    ensures Conserved(Apply(cfg, s, e))
  {
    if e.TryWrite? {
      TryWriteKeepsConserved(cfg, s, e.t);
    } else if !e.TryRead? && !e.Interrupt? {
      OtherStepsMoveNothing(cfg, s, e);
    }
  }

  ghost predicate SafetyInv(cfg: Config, s: State) {
    ShapeOk(cfg, s) && Conserved(s)
  }

  lemma {:induction false} RunKeepsSafety(cfg: Config, s: State, run: seq<Event>)
    requires SafetyInv(cfg, s) && Legal(cfg, s, run)
    ensures SafetyInv(cfg, Exec(cfg, s, run))
  {
    if run != [] {
      var n := |run| - 1;
      RunKeepsSafety(cfg, s, run[..n]);
      StepKeepsShape(cfg, Exec(cfg, s, run[..n]), run[n]);
      StepKeepsConserved(cfg, Exec(cfg, s, run[..n]), run[n]);
    }
  }

  /** Conservation over whole runs, for any number of readers and writers. */
  lemma PipeConservesBytes(cfg: Config, threads: nat, run: seq<Event>)
    requires Legal(cfg, Initial(threads), run)
    ensures var s := Exec(cfg, Initial(threads), run);
            && (s.sh.status != Errored ==> s.hist.delivered + Content(s.sh.data) == s.hist.accepted)
            && s.hist.delivered <= s.hist.accepted
            && (s.hist.sawEof ==> s.hist.delivered == s.hist.accepted)
  {
    RunKeepsSafety(cfg, Initial(threads), run);
  }

  /** A finished read call answers some bytes or an error, never both and never neither. */
  lemma ReadsAnswerBytesOrError(cfg: Config, threads: nat, run: seq<Event>, t: nat)
    requires Legal(cfg, Initial(threads), run) && t < threads
    requires Exec(cfg, Initial(threads), run).threads[t].ReadSignal?
    ensures var s := Exec(cfg, Initial(threads), run);
            var outcome := s.threads[t].outcome;
            && (InFlight(s.threads[t]) != [] <==> outcome.Data?)
            && (InFlight(s.threads[t]) == [] <==> outcome == Failed(EndOfFile) || outcome == Failed(ClosedPipe))
  {
    RunKeepsSafety(cfg, Initial(threads), run);
    var th := Exec(cfg, Initial(threads), run).threads[t];
    assert ThreadOk(cfg, th);
    if th.outcome.Data? { EmptyMeansNoBytes(th.outcome.chunks); }
  }

  // ----- after the end -----

  lemma LegalPrefix(cfg: Config, s: State, a: seq<Event>, b: seq<Event>)
    requires Legal(cfg, s, a + b)
    ensures Legal(cfg, s, a) && Legal(cfg, Exec(cfg, s, a), b)
    ensures Exec(cfg, s, a + b) == Exec(cfg, Exec(cfg, s, a), b)
    decreases |b|
  {
    if b == [] {
      assert a + b == a;
    } else {
      var n := |b| - 1;
      assert (a + b)[..|a + b| - 1] == a + b[..n];
      LegalPrefix(cfg, s, a, b[..n]);
    }
  }

  /** Once an open pipe was interrupted no byte moves again; once it was closed none is accepted. */
  lemma {:induction false} EndedPipeIsFrozen(cfg: Config, s: State, rest: seq<Event>)
    requires ShapeOk(cfg, s) && s.sh.status != Open && Legal(cfg, s, rest)
    ensures var s' := Exec(cfg, s, rest);
            && ShapeOk(cfg, s')
            && s'.sh.status == s.sh.status
            && s'.hist.accepted == s.hist.accepted
            && (s.sh.status == Errored ==> s'.hist.delivered == s.hist.delivered && s'.sh.data.None?)
            && s'.hist.delivered + Content(s'.sh.data) == s.hist.delivered + Content(s.sh.data)
  {
    if rest != [] {
      var n := |rest| - 1;
      EndedPipeIsFrozen(cfg, s, rest[..n]);
      var m := Exec(cfg, s, rest[..n]);
      StepKeepsShape(cfg, m, rest[n]);
    }
  }

  // ----- one reader -----

  ghost predicate OnlyReader(s: State, t: nat) {
    t < |s.threads| &&
    forall i :: 0 <= i < |s.threads| && i != t ==>
      var th := s.threads[i]; !th.ReadTry? && !th.ReadWait? && !th.ReadSignal?
  }

  lemma StepKeepsOnlyReader(cfg: Config, s: State, e: Event, t: nat)
    requires Enabled(cfg, s, e) && OnlyReader(s, t) && (e.StartRead? ==> e.t == t)
    ensures OnlyReader(Apply(cfg, s, e), t)
  {
  }

  lemma StepKeepsReturned(cfg: Config, s: State, e: Event, t: nat)
    requires Enabled(cfg, s, e) && OnlyReader(s, t) && (e.StartRead? ==> e.t == t)
    requires s.hist.returned + InFlight(s.threads[t]) == s.hist.delivered
    ensures var s' := Apply(cfg, s, e); s'.hist.returned + InFlight(s'.threads[t]) == s'.hist.delivered
  {
    if e.t != t {
      assert InFlight(s.threads[e.t]) == [] && InFlight(Apply(cfg, s, e).threads[e.t]) == [];
    }
  }

  lemma {:induction false} SoleReaderInv(cfg: Config, threads: nat, run: seq<Event>, t: nat)
    requires Legal(cfg, Initial(threads), run) && t < threads
    requires forall i :: 0 <= i < |run| && run[i].StartRead? ==> run[i].t == t
    ensures var s := Exec(cfg, Initial(threads), run);
            OnlyReader(s, t) && s.hist.returned + InFlight(s.threads[t]) == s.hist.delivered
  {
    if run != [] {
      var n := |run| - 1;
      SoleReaderInv(cfg, threads, run[..n], t);
      var s, e := Exec(cfg, Initial(threads), run[..n]), run[n];
      assert e.StartRead? ==> e.t == t;
      StepKeepsOnlyReader(cfg, s, e, t);
      StepKeepsReturned(cfg, s, e, t);
    }
  }

  /** With one reading goroutine, the bytes its calls returned are a prefix of the accepted ones,
      and all of them once a call of it ended in end of file. */
  lemma SoleReaderGetsPrefix(cfg: Config, threads: nat, run: seq<Event>, t: nat)
    requires Legal(cfg, Initial(threads), run) && t < threads
    requires forall i :: 0 <= i < |run| && run[i].StartRead? ==> run[i].t == t
    ensures var s := Exec(cfg, Initial(threads), run);
            && s.hist.returned <= s.hist.accepted
            && (s.hist.sawEof && !s.threads[t].ReadSignal? ==> s.hist.returned == s.hist.accepted)
  {
    SoleReaderInv(cfg, threads, run, t);
    PipeConservesBytes(cfg, threads, run);
  }

  /** A run split where the pipe has ended, by Close or by Interrupt: nothing is accepted afterwards, an
      interrupted pipe delivers nothing either, and a closed one can only deliver what is left of it. */
  lemma NothingEntersAfterTheEnd(cfg: Config, threads: nat, a: seq<Event>, e: Event, b: seq<Event>)
    requires Legal(cfg, Initial(threads), a + [e] + b) && (e.Close? || e.Interrupt?)
    ensures Legal(cfg, Initial(threads), a + [e])
    ensures var s, s' := Exec(cfg, Initial(threads), a + [e]), Exec(cfg, Initial(threads), a + [e] + b);
            && s.sh.status == s'.sh.status != Open && s'.hist.accepted == s.hist.accepted
            && (s.sh.status == Errored ==> s'.hist.delivered == s.hist.delivered)
            && (s.sh.status == Closed ==> s'.hist.delivered + Content(s'.sh.data) == s'.hist.accepted)
  {
    LegalPrefix(cfg, Initial(threads), a + [e], b);
    LegalPrefix(cfg, Initial(threads), a, [e]);
    RunKeepsSafety(cfg, Initial(threads), a + [e]);
    RunKeepsSafety(cfg, Initial(threads), a + [e] + b);
    assert (a + [e])[..|a|] == a;
    EndedPipeIsFrozen(cfg, Exec(cfg, Initial(threads), a + [e]), b);
  }

  // ----- one writer -----

  /** The bytes the write calls of a run submit, in the order the calls begin. */
  ghost function Submitted(run: seq<Event>): Chunk {
    if run == [] then []
    else
      var e := run[|run| - 1];
      Submitted(run[..|run| - 1]) + (if e.StartWrite? then Flatten(e.mb) else [])
  }

  /** The bytes of a write call that is not decided yet. */
  ghost function Undecided(th: Thread): Chunk {
    if th.WriteTry? || th.WriteWait? then Flatten(th.mb) else []
  }

  ghost predicate OnlyWriter(s: State, w: nat) {
    w < |s.threads| &&
    forall i :: 0 <= i < |s.threads| && i != w ==>
      var th := s.threads[i]; !th.WriteTry? && !th.WriteWait? && !th.WriteSignal?
  }

  lemma StepKeepsOnlyWriter(cfg: Config, s: State, e: Event, w: nat)
    requires Enabled(cfg, s, e) && OnlyWriter(s, w) && (e.StartWrite? ==> e.t == w)
    ensures OnlyWriter(Apply(cfg, s, e), w)
  {
  }

  ghost predicate TracksSubmitted(s: State, w: nat, submitted: Chunk) {
    && w < |s.threads|
    && s.hist.accepted <= submitted
    && (s.sh.status == Open ==> s.hist.accepted + Undecided(s.threads[w]) == submitted)
  }

  lemma StepTracksSubmitted(cfg: Config, s: State, e: Event, w: nat, submitted: Chunk)
    requires Enabled(cfg, s, e) && OnlyWriter(s, w) && (e.StartWrite? ==> e.t == w)
    requires !cfg.discardOverflow && SharedOk(s.sh) && TracksSubmitted(s, w, submitted)
    ensures TracksSubmitted(Apply(cfg, s, e), w, submitted + if e.StartWrite? then Flatten(e.mb) else [])
  {
    if e.StartWrite? {
      EmptyMeansNoBytes(e.mb);
      assert Undecided(s.threads[w]) == [];
    }
  }

  lemma {:induction false} SoleWriterInv(cfg: Config, threads: nat, run: seq<Event>, w: nat)
    requires Legal(cfg, Initial(threads), run) && w < threads && !cfg.discardOverflow
    requires forall i :: 0 <= i < |run| && run[i].StartWrite? ==> run[i].t == w
    ensures var s := Exec(cfg, Initial(threads), run); OnlyWriter(s, w) && TracksSubmitted(s, w, Submitted(run))
  {
    if run != [] {
      var n := |run| - 1;
      SoleWriterInv(cfg, threads, run[..n], w);
      var s, e := Exec(cfg, Initial(threads), run[..n]), run[n];
      assert e.StartWrite? ==> e.t == w;
      RunKeepsSafety(cfg, Initial(threads), run[..n]);
      StepKeepsOnlyWriter(cfg, s, e, w);
      StepTracksSubmitted(cfg, s, e, w, Submitted(run[..n]));
    }
  }

  /** End to end, one writer and one reader: what the read calls returned is a prefix of what the
      write calls submitted; while the pipe is open nothing submitted is missing anywhere. */
  lemma PipeIsAByteStream(cfg: Config, threads: nat, run: seq<Event>, w: nat, r: nat)
    requires Legal(cfg, Initial(threads), run) && w < threads && r < threads && !cfg.discardOverflow
    requires forall i :: 0 <= i < |run| && run[i].StartWrite? ==> run[i].t == w
    requires forall i :: 0 <= i < |run| && run[i].StartRead? ==> run[i].t == r
    ensures var s := Exec(cfg, Initial(threads), run);
            && s.hist.returned <= Submitted(run)
            && (s.sh.status == Open ==>
                  s.hist.returned + InFlight(s.threads[r]) + Content(s.sh.data) + Undecided(s.threads[w])
                    == Submitted(run))
  {
    SoleWriterInv(cfg, threads, run, w);
    SoleReaderInv(cfg, threads, run, r);
    PipeConservesBytes(cfg, threads, run);
  }

  // ----- memory bound -----

  /** The size test is right if and only if the size fits in 31 bits, or what 32 bits keep of it is positive
      and happens to exceed the limit too. */
  lemma SizeTestExact(cfg: Config, size: nat)
    requires 0 <= cfg.limit < 0x8000_0000
    ensures (IsFull(cfg, Int32(size)) <==> size > cfg.limit) <==>
              size < 0x8000_0000 || cfg.limit < size % 0x1_0000_0000 < 0x8000_0000
  {
    Int32OfNat(size);
  }

  /** The content is at most `limit` bytes followed by the last accepted write. */
  ghost predicate Bounded(cfg: Config, s: State) {
    s.sh.data.Some? ==>
      var c, last := Content(s.sh.data), s.hist.lastAccepted;
      |last| <= |c| && c[|c| - |last|..] == last && |c| - |last| <= cfg.limit
  }

  ghost predicate WritesAtMost(s: State, max: nat) {
    && |s.hist.lastAccepted| <= max
    && forall i :: 0 <= i < |s.threads| ==>
         var th := s.threads[i]; th.WriteTry? || th.WriteWait? ==> |Flatten(th.mb)| <= max
  }

  lemma TryWriteKeepsBound(cfg: Config, s: State, t: nat, max: nat)
    requires 0 <= cfg.limit && cfg.limit + max < 0x8000_0000
    requires Bounded(cfg, s) && WritesAtMost(s, max) && Enabled(cfg, s, TryWrite(t))
    ensures Bounded(cfg, Apply(cfg, s, TryWrite(t)))
  {
    var c, mb := Content(s.sh.data), s.threads[t].mb;
    if GetState(cfg, s.sh, false).None? {
      assert Int32(|c|) == |c|;
      if s.sh.data.Some? {
        FlattenAppend(s.sh.data.value, mb);
        assert (c + Flatten(mb))[|c|..] == Flatten(mb);
      }
    }
  }

  lemma StepKeepsWritesAtMost(cfg: Config, s: State, e: Event, max: nat)
    requires WritesAtMost(s, max) && Enabled(cfg, s, e)
    requires e.StartWrite? ==> |Flatten(e.mb)| <= max
    ensures WritesAtMost(Apply(cfg, s, e), max)
  {
  }

  lemma StepKeepsBound(cfg: Config, s: State, e: Event, max: nat)
    requires 0 <= cfg.limit && cfg.limit + max < 0x8000_0000
    requires Bounded(cfg, s) && WritesAtMost(s, max) && Enabled(cfg, s, e)
    ensures Bounded(cfg, Apply(cfg, s, e))
  {
    if e.TryWrite? {
      TryWriteKeepsBound(cfg, s, e.t, max);
    } else {
      var s' := Apply(cfg, s, e);
      assert s'.hist.lastAccepted == s.hist.lastAccepted && (s'.sh.data == s.sh.data || s'.sh.data.None?);
    }
  }

  /** Memory bound over whole runs: never more than the limit plus the largest write. */
  lemma {:induction false} PipeMemoryBound(cfg: Config, threads: nat, run: seq<Event>, max: nat)
    requires 0 <= cfg.limit && cfg.limit + max < 0x8000_0000
    requires Legal(cfg, Initial(threads), run)
    requires forall i :: 0 <= i < |run| && run[i].StartWrite? ==> |Flatten(run[i].mb)| <= max
    ensures var s := Exec(cfg, Initial(threads), run);
            && Bounded(cfg, s) && WritesAtMost(s, max)
            && |Content(s.sh.data)| <= cfg.limit + max
  {
    if run != [] {
      var n := |run| - 1;
      PipeMemoryBound(cfg, threads, run[..n], max);
      var before := Exec(cfg, Initial(threads), run[..n]);
      StepKeepsWritesAtMost(cfg, before, run[n], max);
      StepKeepsBound(cfg, before, run[n], max);
    }
  }
}
