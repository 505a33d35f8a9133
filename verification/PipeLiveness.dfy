/** No lost wake-up, no deadlock and bounded waiting of the pipe, over every run. */
module PipeLiveness {
  import opened Bytes
  import opened PipeProtocol
  import opened PipeSafety

  ghost predicate ReaderWaits(s: State) { exists i :: 0 <= i < |s.threads| && s.threads[i].ReadWait? }
  ghost predicate ReaderRetries(s: State) { exists i :: 0 <= i < |s.threads| && s.threads[i].ReadTry? }
  ghost predicate ReaderSignals(s: State) { exists i :: 0 <= i < |s.threads| && s.threads[i].ReadSignal? }
  ghost predicate WriterWaits(s: State) { exists i :: 0 <= i < |s.threads| && s.threads[i].WriteWait? }
  ghost predicate WriterRetries(s: State) { exists i :: 0 <= i < |s.threads| && s.threads[i].WriteTry? }
  ghost predicate WriterSignals(s: State) { exists i :: 0 <= i < |s.threads| && s.threads[i].WriteSignal? }

  /** While the pipe is open, a wake-up that is owed is on its way to somebody. */
  ghost predicate NoLostWakeup(s: State) {
    s.sh.status == Open ==>
      && (ReaderWaits(s) && s.sh.data.Some? ==> s.sh.readToken || WriterSignals(s) || ReaderRetries(s))
      && (WriterWaits(s) ==> s.sh.data.Some? || s.sh.writeToken || ReaderSignals(s) || WriterRetries(s))
  }

  lemma StepKeepsReaderWakeup(cfg: Config, s: State, e: Event)
    requires ShapeOk(cfg, s) && NoLostWakeup(s) && Enabled(cfg, s, e)
    ensures var s' := Apply(cfg, s, e);
            s'.sh.status == Open && ReaderWaits(s') && s'.sh.data.Some? ==>
              s'.sh.readToken || WriterSignals(s') || ReaderRetries(s')
  {
    var s' := Apply(cfg, s, e);
    assert s'.threads == s.threads[e.t := s'.threads[e.t]];
    if s'.sh.status == Open && ReaderWaits(s') && s'.sh.data.Some? && !s'.sh.readToken {
      if s'.threads[e.t].WriteSignal? || s'.threads[e.t].ReadTry? {
      } else {
        var r :| 0 <= r < |s'.threads| && s'.threads[r].ReadWait?;
        assert s.threads[r].ReadWait?;
        var i :| 0 <= i < |s.threads| && (s.threads[i].WriteSignal? || s.threads[i].ReadTry?);
        assert s'.threads[i] == s.threads[i];
      }
    }
  }

  lemma StepKeepsWriterWakeup(cfg: Config, s: State, e: Event)
    requires ShapeOk(cfg, s) && NoLostWakeup(s) && Enabled(cfg, s, e)
    ensures var s' := Apply(cfg, s, e);
            s'.sh.status == Open && WriterWaits(s') ==>
              s'.sh.data.Some? || s'.sh.writeToken || ReaderSignals(s') || WriterRetries(s')
  {
    var s' := Apply(cfg, s, e);
    assert s'.threads == s.threads[e.t := s'.threads[e.t]];
    if s'.sh.status == Open && WriterWaits(s') && s'.sh.data.None? && !s'.sh.writeToken {
      if s'.threads[e.t].ReadSignal? || s'.threads[e.t].WriteTry? {
      } else {
        var w :| 0 <= w < |s'.threads| && s'.threads[w].WriteWait?;
        assert s.threads[w].WriteWait?;
        var i :| 0 <= i < |s.threads| && (s.threads[i].ReadSignal? || s.threads[i].WriteTry?);
        assert s'.threads[i] == s.threads[i];
      }
    }
  }

  lemma {:induction false} RunKeepsWakeups(cfg: Config, threads: nat, run: seq<Event>)
    requires Legal(cfg, Initial(threads), run)
    ensures var s := Exec(cfg, Initial(threads), run); ShapeOk(cfg, s) && NoLostWakeup(s)
  {
    if run != [] {
      var n := |run| - 1;
      RunKeepsWakeups(cfg, threads, run[..n]);
      var s := Exec(cfg, Initial(threads), run[..n]);
      StepKeepsShape(cfg, s, run[n]);
      StepKeepsReaderWakeup(cfg, s, run[n]);
      StepKeepsWriterWakeup(cfg, s, run[n]);
    }
  }

  // ----- progress -----

  /** A step by which a call already begun moves on by itself; a timer firing, a new call,
      Close and Interrupt are the environment's. */
  predicate Internal(e: Event) {
    e.TryRead? || e.TryWrite? || e.Signal? || e.WakeByToken? || e.WakeByDone? || e.TakeError? || e.PutError?
  }

  ghost predicate Moves(cfg: Config, s: State, e: Event) { Internal(e) && Enabled(cfg, s, e) }

  /** No call can move on unless the environment acts. */
  ghost predicate Quiescent(cfg: Config, s: State) {
    forall e: Event :: !Moves(cfg, s, e)
  }

  lemma QuiescentThread(cfg: Config, s: State, i: nat)
    requires i < |s.threads| && Quiescent(cfg, s)
    ensures var th := s.threads[i];
            && (th.Idle? || th.ReadWait? || th.WriteWait? || (th.Inject? && s.sh.pendingError.Some?))
            && (th.ReadWait? || th.WriteWait? ==> !s.sh.done)
            && (th.ReadWait? ==> !s.sh.readToken)
            && (th.WriteWait? ==> !s.sh.writeToken)
  {
    assert !Moves(cfg, s, TryRead(i)) && !Moves(cfg, s, TryWrite(i)) && !Moves(cfg, s, Signal(i));
    assert !Moves(cfg, s, PutError(i)) && !Moves(cfg, s, WakeByDone(i)) && !Moves(cfg, s, WakeByToken(i));
  }

  /** Deadlock freedom: when nothing can move, every unfinished call waits for a good reason,
      and never do a reader and a writer wait for each other. */
  lemma PipeNeverDeadlocks(cfg: Config, threads: nat, run: seq<Event>)
    requires Legal(cfg, Initial(threads), run)
    requires Quiescent(cfg, Exec(cfg, Initial(threads), run))
    ensures var s := Exec(cfg, Initial(threads), run);
            && !(ReaderWaits(s) && WriterWaits(s))
            && (ReaderWaits(s) ==> s.sh.status == Open && s.sh.data.None?)
            && (WriterWaits(s) ==> s.sh.status == Open && s.sh.data.Some?)
            && (forall i :: 0 <= i < |s.threads| ==>
                  var th := s.threads[i];
                  th.Idle? || th.ReadWait? || th.WriteWait? || (th.Inject? && s.sh.pendingError.Some?))
  {
    RunKeepsWakeups(cfg, threads, run);
    QuiescentIsBenign(cfg, Exec(cfg, Initial(threads), run));
  }

  lemma QuiescentIsBenign(cfg: Config, s: State)
    requires ShapeOk(cfg, s) && NoLostWakeup(s) && Quiescent(cfg, s)
    ensures !(ReaderWaits(s) && WriterWaits(s))
    ensures ReaderWaits(s) ==> s.sh.status == Open && s.sh.data.None?
    ensures WriterWaits(s) ==> s.sh.status == Open && s.sh.data.Some?
    ensures forall i :: 0 <= i < |s.threads| ==>
              var th := s.threads[i];
              th.Idle? || th.ReadWait? || th.WriteWait? || (th.Inject? && s.sh.pendingError.Some?)
  {
    forall i | 0 <= i < |s.threads|
      ensures var th := s.threads[i];
              && (th.Idle? || th.ReadWait? || th.WriteWait? || (th.Inject? && s.sh.pendingError.Some?))
              && (th.ReadWait? || th.WriteWait? ==> !s.sh.done)
              && (th.ReadWait? ==> !s.sh.readToken)
              && (th.WriteWait? ==> !s.sh.writeToken)
    {
      QuiescentThread(cfg, s, i);
    }
  }

  /** How many more steps a call at `th` can take on its own. */
  function Weight(ended: bool, th: Thread): nat {
    match th
    case Idle => 0
    case ReadSignal(_) => 3
    case WriteSignal(_) => 3
    case ReadTry(_) => 5
    case ReadWait(_) => if ended then 6 else 4
    case WriteTry(_) => 5
    case WriteWait(_) => 4
    case Inject(_) => 1
  }

  function Weights(ended: bool, threads: seq<Thread>): nat {
    if threads == [] then 0 else Weight(ended, threads[0]) + Weights(ended, threads[1..])
  }

  function TokenWeight(sh: Shared): nat {
    (if sh.readToken then 2 else 0) + (if sh.writeToken then 2 else 0)
  }

  function Work(s: State): nat {
    Weights(s.sh.status != Open, s.threads) + TokenWeight(s.sh)
  }

  lemma {:induction false} WeightsUpdate(ended: bool, threads: seq<Thread>, t: nat, th: Thread)
    requires t < |threads|
    ensures Weights(ended, threads[t := th]) == Weights(ended, threads) - Weight(ended, threads[t]) + Weight(ended, th)
  {
    var threads' := threads[t := th];
    if t == 0 {
      assert threads'[1..] == threads[1..];
    } else {
      WeightsUpdate(ended, threads[1..], t - 1, th);
      assert threads'[1..] == threads[1..][t - 1 := th];
    }
  }

  /** What the moving thread and the tokens weigh together goes down. */
  lemma InternalStepIsLighter(cfg: Config, s: State, e: Event)
    requires ShapeOk(cfg, s) && Enabled(cfg, s, e) && Internal(e)
    ensures var s', ended := Apply(cfg, s, e), s.sh.status != Open;
            && s'.sh.status == s.sh.status
            && s'.threads == s.threads[e.t := s'.threads[e.t]]
            && Weight(ended, s'.threads[e.t]) + TokenWeight(s'.sh) < Weight(ended, s.threads[e.t]) + TokenWeight(s.sh)
  {
  }

  lemma InternalStepWorks(cfg: Config, s: State, e: Event)
    requires ShapeOk(cfg, s) && Enabled(cfg, s, e) && Internal(e)
    ensures Work(Apply(cfg, s, e)) < Work(s)
  {
    InternalStepIsLighter(cfg, s, e);
    WeightsUpdate(s.sh.status != Open, s.threads, e.t, Apply(cfg, s, e).threads[e.t]);
  }

  /** Bounded waiting: from any reachable state, calls already begun take at most `Work` steps
      before each has returned or waits as PipeNeverDeadlocks describes. */
  lemma {:induction false} InternalRunsAreBounded(cfg: Config, threads: nat, run: seq<Event>, rest: seq<Event>)
    requires Legal(cfg, Initial(threads), run)
    requires Legal(cfg, Exec(cfg, Initial(threads), run), rest)
    requires forall i :: 0 <= i < |rest| ==> Internal(rest[i])
    ensures var s := Exec(cfg, Initial(threads), run);
            |rest| + Work(Exec(cfg, s, rest)) <= Work(s) && ShapeOk(cfg, Exec(cfg, s, rest))
  {
    var s := Exec(cfg, Initial(threads), run);
    if rest == [] {
      RunKeepsWakeups(cfg, threads, run);
    } else {
      var n := |rest| - 1;
      InternalRunsAreBounded(cfg, threads, run, rest[..n]);
      InternalStepWorks(cfg, Exec(cfg, s, rest[..n]), rest[n]);
      StepKeepsShape(cfg, Exec(cfg, s, rest[..n]), rest[n]);
    }
  }

  lemma OneInternalStep(cfg: Config, threads: nat, run: seq<Event>, e: Event)
    requires Legal(cfg, Initial(threads), run) && Internal(e) && Enabled(cfg, Exec(cfg, Initial(threads), run), e)
    ensures Legal(cfg, Initial(threads), run + [e])
    ensures Work(Exec(cfg, Initial(threads), run + [e])) < Work(Exec(cfg, Initial(threads), run))
  {
    RunKeepsWakeups(cfg, threads, run);
    InternalStepWorks(cfg, Exec(cfg, Initial(threads), run), e);
    Extend(cfg, Initial(threads), run, e);
  }

  /** `settled` extends `run` by internal steps only. */
  ghost predicate ContinuesInternally(run: seq<Event>, settled: seq<Event>) {
    run <= settled && forall i :: |run| <= i < |settled| ==> Internal(settled[i])
  }

  lemma ContinuesTransitive(run: seq<Event>, e: Event, settled: seq<Event>)
    requires Internal(e) && ContinuesInternally(run + [e], settled)
    ensures ContinuesInternally(run, settled)
  {
    assert run <= run + [e] && settled[|run|] == (run + [e])[|run|];
  }

  /** Every reachable state settles: some internal continuation ends where nothing can move. */
  lemma {:induction false} EveryStateSettles(cfg: Config, threads: nat, run: seq<Event>) returns (settled: seq<Event>)
    requires Legal(cfg, Initial(threads), run)
    ensures ContinuesInternally(run, settled)
    ensures Legal(cfg, Initial(threads), settled) && Quiescent(cfg, Exec(cfg, Initial(threads), settled))
    decreases Work(Exec(cfg, Initial(threads), run))
  {
    var s := Exec(cfg, Initial(threads), run);
    if Quiescent(cfg, s) {
      settled := run;
    } else {
      var e :| Moves(cfg, s, e);
      OneInternalStep(cfg, threads, run, e);
      settled := EveryStateSettles(cfg, threads, run + [e]);
      ContinuesTransitive(run, e, settled);
    }
  }
}
