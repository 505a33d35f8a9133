/** When a writer that stays blocked faces a full pipe, and when it does not. */
module PipeFullness {
  import opened Bytes
  import opened PipeProtocol
  import opened PipeSafety
  import opened PipeLiveness

  ghost predicate TestsFull(cfg: Config, s: State) { IsFull(cfg, Int32(|Content(s.sh.data)|)) }

  /** The 32-bit test never finds a pipe full that is not. */
  lemma TestImpliesFull(cfg: Config, s: State)
    requires TestsFull(cfg, s)
    ensures |Content(s.sh.data)| > cfg.limit
  {
    Int32Exact(|Content(s.sh.data)|);
  }

  // ----- one writing goroutine -----

  ghost predicate WaitsBecauseFull(cfg: Config, s: State, w: nat) {
    w < |s.threads| && s.threads[w].WriteWait? && s.sh.status == Open ==>
      TestsFull(cfg, s) || s.sh.writeToken || ReaderSignals(s)
  }

  lemma StepKeepsWaitsBecauseFull(cfg: Config, s: State, e: Event, w: nat)
    requires ShapeOk(cfg, s) && Enabled(cfg, s, e) && OnlyWriter(s, w) && (e.StartWrite? ==> e.t == w)
    requires WaitsBecauseFull(cfg, s, w)
    ensures WaitsBecauseFull(cfg, Apply(cfg, s, e), w)
  {
    var s' := Apply(cfg, s, e);
    assert s'.threads == s.threads[e.t := s'.threads[e.t]];
    if s'.threads[w].WriteWait? && s'.sh.status == Open && !s'.sh.writeToken && e.t != w {
      if ReaderSignals(s) {
        var i :| 0 <= i < |s.threads| && s.threads[i].ReadSignal?;
        assert s'.threads[i] == s.threads[i];
      } else if e.TryRead? && s.sh.data.Some? {
        assert s'.threads[e.t].ReadSignal?;
      }
    }
  }

  /** With one writing goroutine, a writer that stays blocked faces a full pipe. */
  lemma {:induction false} SoleWriterWaitsOnlyWhenFull(cfg: Config, threads: nat, run: seq<Event>, w: nat)
    requires Legal(cfg, Initial(threads), run) && w < threads
    requires forall i :: 0 <= i < |run| && run[i].StartWrite? ==> run[i].t == w
    ensures var s := Exec(cfg, Initial(threads), run);
            && OnlyWriter(s, w) && WaitsBecauseFull(cfg, s, w)
            && (Quiescent(cfg, s) && s.threads[w].WriteWait? ==> TestsFull(cfg, s))
  {
    var s := Exec(cfg, Initial(threads), run);
    if run != [] {
      var n := |run| - 1;
      SoleWriterWaitsOnlyWhenFull(cfg, threads, run[..n], w);
      var before, e := Exec(cfg, Initial(threads), run[..n]), run[n];
      RunKeepsWakeups(cfg, threads, run[..n]);
      assert e.StartWrite? ==> e.t == w;
      StepKeepsOnlyWriter(cfg, before, e, w);
      StepKeepsWaitsBecauseFull(cfg, before, e, w);
    }
    if Quiescent(cfg, s) && s.threads[w].WriteWait? {
      PipeNeverDeadlocks(cfg, threads, run);
      assert !Moves(cfg, s, WakeByToken(w));
    }
  }

  // ----- two goroutines, both of which may write and read -----

  /** A waiting writer of two goroutines faces a full pipe or is owed a wake-up; if both wait, it is full. */
  ghost predicate PairOk(cfg: Config, s: State) {
    |s.threads| == 2 && s.sh.status == Open ==>
      && (s.threads[0].WriteWait? ==> TestsFull(cfg, s) || s.sh.writeToken || s.threads[1].ReadSignal?)
      && (s.threads[1].WriteWait? ==> TestsFull(cfg, s) || s.sh.writeToken || s.threads[0].ReadSignal?)
      && (s.threads[0].WriteWait? && s.threads[1].WriteWait? ==> TestsFull(cfg, s))
  }

  lemma StepKeepsPair(cfg: Config, s: State, e: Event)
    requires ShapeOk(cfg, s) && Enabled(cfg, s, e) && PairOk(cfg, s)
    ensures PairOk(cfg, Apply(cfg, s, e))
  {
    var s' := Apply(cfg, s, e);
    assert s'.threads == s.threads[e.t := s'.threads[e.t]];
  }

  lemma {:induction false} TwoGoroutinesWaitOnlyWhenFull(cfg: Config, run: seq<Event>)
    requires Legal(cfg, Initial(2), run)
    ensures PairOk(cfg, Exec(cfg, Initial(2), run))
  {
    if run != [] {
      var n := |run| - 1;
      TwoGoroutinesWaitOnlyWhenFull(cfg, run[..n]);
      RunKeepsSafety(cfg, Initial(2), run[..n]);
      StepKeepsPair(cfg, Exec(cfg, Initial(2), run[..n]), run[n]);
    }
  }

  // ----- two writers and a third goroutine -----

  /** Only goroutines below `w` write. */
  ghost predicate WritersBelow(run: seq<Event>, w: nat) {
    forall i :: 0 <= i < |run| && run[i].StartWrite? ==> run[i].t < w
  }

  /** `run` is a run of `n` goroutines, of which the first two write, that ends in `s`. */
  ghost predicate Leads(cfg: Config, n: nat, run: seq<Event>, s: State) {
    Legal(cfg, Initial(n), run) && Exec(cfg, Initial(n), run) == s && WritersBelow(run, 2)
  }

  lemma Then(cfg: Config, n: nat, run: seq<Event>, s: State, e: Event)
    requires Leads(cfg, n, run, s) && Enabled(cfg, s, e) && (e.StartWrite? ==> e.t < 2)
    ensures Leads(cfg, n, run + [e], Apply(cfg, s, e))
  {
    Extend(cfg, Initial(n), run, e);
  }

  lemma Then3(cfg: Config, n: nat, run: seq<Event>, s: State, a: Event, b: Event, c: Event)
    returns (run': seq<Event>, s': State)
    requires Leads(cfg, n, run, s) && Enabled(cfg, s, a)
    requires Enabled(cfg, Apply(cfg, s, a), b) && Enabled(cfg, Apply(cfg, Apply(cfg, s, a), b), c)
    requires (a.StartWrite? ==> a.t < 2) && (b.StartWrite? ==> b.t < 2) && (c.StartWrite? ==> c.t < 2)
    ensures Leads(cfg, n, run', s') && s' == Apply(cfg, Apply(cfg, Apply(cfg, s, a), b), c)
  {
    Then(cfg, n, run, s, a);
    Then(cfg, n, run + [a], Apply(cfg, s, a), b);
    Then(cfg, n, run + [a] + [b], Apply(cfg, Apply(cfg, s, a), b), c);
    run' := run + [a] + [b] + [c];
    s' := Apply(cfg, Apply(cfg, Apply(cfg, s, a), b), c);
  }

  /** The limits that a write can exceed and another one stay below. */
  predicate Reachable(cfg: Config) { !cfg.discardOverflow && 1 <= cfg.limit < 0x7fff_ffff }

  /** One write fills the pipe; two more writers block. */
  lemma TwoWritersBlock(cfg: Config, n: nat, x: Chunk, big: Chunk) returns (run: seq<Event>, s: State)
    requires Reachable(cfg) && n >= 3 && x == [7] && |big| == cfg.limit + 1
    ensures Leads(cfg, n, run, s)
    ensures s.sh == Shared(Some([big]), Open, true, false, false, None)
    ensures s.threads == Initial(n).threads[0 := WriteWait([x])][1 := WriteWait([x])]
  {
    FlattenSingle(big);
    assert [x][0] == x && [big][0] == big;
    assert !IsEmpty([x]) && !IsEmpty([big]);
    assert Leads(cfg, n, [], Initial(n));
    run, s := Then3(cfg, n, [], Initial(n), StartWrite(0, [big]), TryWrite(0), Signal(0));
    assert s.threads == Initial(n).threads && s.sh == Shared(Some([big]), Open, true, false, false, None);
    run, s := Then3(cfg, n, run, s, StartWrite(0, [x]), TryWrite(0), StartWrite(1, [x]));
    Then(cfg, n, run, s, TryWrite(1));
    run, s := run + [TryWrite(1)], Apply(cfg, s, TryWrite(1));
  }

  /** A read empties the pipe and wakes one of them, which writes its one byte. */
  lemma OneWriterWakes(cfg: Config, n: nat, x: Chunk, big: Chunk) returns (run: seq<Event>, s: State)
    requires Reachable(cfg) && n >= 3 && x == [7] && |big| == cfg.limit + 1
    ensures Leads(cfg, n, run, s)
    ensures s.sh == Shared(Some([x]), Open, true, false, false, None)
    ensures s.threads == Initial(n).threads[1 := WriteWait([x])]
  {
    run, s := TwoWritersBlock(cfg, n, x, big);
    ghost var blocked := s.threads;
    run, s := Then3(cfg, n, run, s, StartRead(2, false), TryRead(2), Signal(2));
    assert s.sh.data == None && s.threads == blocked && s.sh.writeToken;
    run, s := Then3(cfg, n, run, s, WakeByToken(0), TryWrite(0), Signal(0));
    assert s.threads == Initial(n).threads[1 := WriteWait([x])];
  }

  /** Then the other one stays blocked although the pipe has room: one read gives one wake-up. */
  lemma SecondWriterMayWaitWithRoom(cfg: Config, n: nat) returns (run: seq<Event>)
    requires Reachable(cfg) && n >= 3
    ensures Legal(cfg, Initial(n), run) && WritersBelow(run, 2)
    ensures var s := Exec(cfg, Initial(n), run);
            Quiescent(cfg, s) && s.threads[1].WriteWait? && |Content(s.sh.data)| <= cfg.limit
  {
    var x: Chunk, big: Chunk := [7], seq(cfg.limit + 1, _ => 7);
    var s;
    run, s := OneWriterWakes(cfg, n, x, big);
    FlattenSingle(x);
  }

  // ----- exactly when -----

  /** A writer blocked for good faces a full pipe, in every run of `n` goroutines of which the first `w` write. */
  ghost predicate BlockedMeansFull(cfg: Config, n: nat, w: nat) {
    forall run, t :: Legal(cfg, Initial(n), run) && WritersBelow(run, w) && 0 <= t < n ==>
      FullIfBlocked(cfg, Exec(cfg, Initial(n), run), t)
  }

  ghost predicate FullIfBlocked(cfg: Config, s: State, t: nat) {
    t < |s.threads| && s.threads[t].WriteWait? && Quiescent(cfg, s) ==> |Content(s.sh.data)| > cfg.limit
  }

  lemma NeverWaits(cfg: Config, n: nat, run: seq<Event>, t: nat)
    requires Legal(cfg, Initial(n), run) && t < n && (cfg.discardOverflow || cfg.limit < 0)
    ensures !Exec(cfg, Initial(n), run).threads[t].WriteWait?
  {
    RunKeepsSafety(cfg, Initial(n), run);
    assert ThreadOk(cfg, Exec(cfg, Initial(n), run).threads[t]);
  }

  lemma {:induction false} NeverWaitsAtMaximum(cfg: Config, n: nat, run: seq<Event>, t: nat)
    requires Legal(cfg, Initial(n), run) && t < n && cfg.limit >= 0x7fff_ffff
    ensures !Exec(cfg, Initial(n), run).threads[t].WriteWait?
  {
    if run != [] {
      var k := |run| - 1;
      NeverWaitsAtMaximum(cfg, n, run[..k], t);
      StepNeverWaits(cfg, Exec(cfg, Initial(n), run[..k]), run[k], t);
    }
  }

  lemma StepNeverWaits(cfg: Config, s: State, e: Event, t: nat)
    requires Enabled(cfg, s, e) && t < |s.threads| && !s.threads[t].WriteWait? && cfg.limit >= 0x7fff_ffff
    ensures !Apply(cfg, s, e).threads[t].WriteWait?
  {
  }

  lemma HoldsAtZero(cfg: Config, n: nat, run: seq<Event>, t: nat)
    requires Legal(cfg, Initial(n), run) && t < n && cfg.limit == 0
    ensures FullIfBlocked(cfg, Exec(cfg, Initial(n), run), t)
  {
    var s := Exec(cfg, Initial(n), run);
    if s.threads[t].WriteWait? && Quiescent(cfg, s) {
      PipeNeverDeadlocks(cfg, n, run);
      RunKeepsSafety(cfg, Initial(n), run);
      assert WriterWaits(s);
      EmptyMeansNoBytes(s.sh.data.value);
    }
  }

  lemma HoldsForPairs(cfg: Config, run: seq<Event>, t: nat)
    requires Legal(cfg, Initial(2), run) && t < 2
    ensures FullIfBlocked(cfg, Exec(cfg, Initial(2), run), t)
  {
    var s := Exec(cfg, Initial(2), run);
    if s.threads[t].WriteWait? && Quiescent(cfg, s) {
      TwoGoroutinesWaitOnlyWhenFull(cfg, run);
      PipeNeverDeadlocks(cfg, 2, run);
      assert WriterWaits(s);
      QuiescentThread(cfg, s, 0);
      QuiescentThread(cfg, s, 1);
      TestImpliesFull(cfg, s);
    }
  }

  lemma HoldsForSoleWriter(cfg: Config, n: nat, run: seq<Event>, t: nat)
    requires Legal(cfg, Initial(n), run) && t < n && WritersBelow(run, 1)
    ensures FullIfBlocked(cfg, Exec(cfg, Initial(n), run), t)
  {
    var s := Exec(cfg, Initial(n), run);
    SoleWriterWaitsOnlyWhenFull(cfg, n, run, 0);
    if s.threads[t].WriteWait? && Quiescent(cfg, s) {
      assert t == 0;
      TestImpliesFull(cfg, s);
    }
  }

  /** A caller can tell: it holds if overflow is discarded, if the limit is at most zero (or none) or the
      largest there is, with a single writing goroutine, or with just two goroutines; and in no other case. */
  lemma BlockedMeansFullExactly(cfg: Config, n: nat, w: nat)
    requires w <= n
    ensures BlockedMeansFull(cfg, n, w) <==>
              cfg.discardOverflow || cfg.limit <= 0 || cfg.limit >= 0x7fff_ffff || w <= 1 || n <= 2
  {
    if Reachable(cfg) && w >= 2 && n >= 3 {
      var run := SecondWriterMayWaitWithRoom(cfg, n);
      assert WritersBelow(run, w);
      assert !FullIfBlocked(cfg, Exec(cfg, Initial(n), run), 1);
    } else {
      forall run, t | Legal(cfg, Initial(n), run) && WritersBelow(run, w) && 0 <= t < n
        ensures FullIfBlocked(cfg, Exec(cfg, Initial(n), run), t)
      {
        HoldsOtherwise(cfg, n, w, run, t);
      }
    }
  }

  lemma HoldsOtherwise(cfg: Config, n: nat, w: nat, run: seq<Event>, t: nat)
    requires w <= n && Legal(cfg, Initial(n), run) && WritersBelow(run, w) && t < n
    requires !Reachable(cfg) || w <= 1 || n <= 2
    ensures FullIfBlocked(cfg, Exec(cfg, Initial(n), run), t)
  {
    if cfg.discardOverflow || cfg.limit < 0 {
      NeverWaits(cfg, n, run, t);
    } else if cfg.limit == 0 {
      HoldsAtZero(cfg, n, run, t);
    } else if cfg.limit >= 0x7fff_ffff {
      NeverWaitsAtMaximum(cfg, n, run, t);
    } else if n == 2 {
      HoldsForPairs(cfg, run, t);
    } else {
      HoldsForSoleWriter(cfg, n, run, t);
    }
  }
}
