/** Any number of writers: what the pipe accepts is made of whole writes, each at most once, in call order. */
module PipeWriters {
  import opened Bytes
  import opened PipeProtocol
  import opened PipeSafety

  /** Write calls are named by the position of their first event in the run. */
  predicate IsWrite(run: seq<Event>, i: int) {
    0 <= i < |run| && run[i].StartWrite? && !IsEmpty(run[i].mb)
  }

  function BytesAt(run: seq<Event>, i: int): Chunk {
    if IsWrite(run, i) then Flatten(run[i].mb) else []
  }

  function Pieces(run: seq<Event>, calls: seq<int>): (cs: seq<Chunk>)
    ensures |cs| == |calls|
  {
    seq(|calls|, k requires 0 <= k < |calls| => BytesAt(run, calls[k]))
  }

  predicate Deciding(th: Thread) { th.WriteTry? || th.WriteWait? }

  /** The calls taken so far, in the order they were taken, and each goroutine's latest write call. */
  datatype Ledger = Ledger(taken: seq<int>, latest: seq<int>)

  /** Which event the pipe takes a write at. */
  predicate Takes(cfg: Config, s: State, e: Event) {
    e.TryWrite? && GetState(cfg, s.sh, false).None?
  }

  function Entered(cfg: Config, s: State, e: Event, n: nat, led: Ledger): Ledger
  {
    if |led.latest| != |s.threads| || !Enabled(cfg, s, e) then led
    else if e.StartWrite? && !IsEmpty(e.mb) then led.(latest := led.latest[e.t := n])
    else if Takes(cfg, s, e) then led.(taken := led.taken + [led.latest[e.t]])
    else led
  }

  function LedgerOf(cfg: Config, threads: nat, run: seq<Event>): (led: Ledger)
    requires Legal(cfg, Initial(threads), run)
    ensures |led.latest| == threads
  {
    if run == [] then Ledger([], seq(threads, _ => -1))
    else
      var n := |run| - 1;
      Entered(cfg, Exec(cfg, Initial(threads), run[..n]), run[n], n, LedgerOf(cfg, threads, run[..n]))
  }

  /** Every entry is a write call, none later than its goroutine's latest. */
  ghost predicate EntriesOk(run: seq<Event>, led: Ledger) {
    forall k :: 0 <= k < |led.taken| ==>
      var i := led.taken[k];
      IsWrite(run, i) && run[i].t < |led.latest| && i <= led.latest[run[i].t]
  }

  predicate SameWriter(run: seq<Event>, i: int, j: int) {
    IsWrite(run, i) && IsWrite(run, j) && run[i].t == run[j].t
  }

  /** The calls of one goroutine are taken in the order it makes them, each at most once. */
  ghost predicate InCallOrder(run: seq<Event>, taken: seq<int>) {
    forall a, b :: 0 <= a < b < |taken| && SameWriter(run, taken[a], taken[b]) ==> taken[a] < taken[b]
  }

  /** A call that is still being decided is its goroutine's latest and was not taken. */
  ghost predicate DecidingOk(run: seq<Event>, threads: seq<Thread>, led: Ledger) {
    forall t :: 0 <= t < |threads| && t < |led.latest| && Deciding(threads[t]) ==>
      var i := led.latest[t];
      IsWrite(run, i) && run[i].t == t && run[i].mb == threads[t].mb && i !in led.taken
  }

  /** No write call is missing: it was taken or is still being decided. */
  ghost predicate NoneMissing(run: seq<Event>, threads: seq<Thread>, led: Ledger) {
    forall i :: IsWrite(run, i) ==>
      var t := run[i].t;
      t < |threads| && t < |led.latest| && (i in led.taken || (i == led.latest[t] && Deciding(threads[t])))
  }

  ghost predicate LatestOk(run: seq<Event>, led: Ledger) {
    forall t :: 0 <= t < |led.latest| ==> led.latest[t] < |run|
  }

  /** The ledger agrees with the run and the state. */
  ghost predicate Balanced(cfg: Config, run: seq<Event>, s: State, led: Ledger) {
    && |led.latest| == |s.threads|
    && LatestOk(run, led) && EntriesOk(run, led) && InCallOrder(run, led.taken) && DecidingOk(run, s.threads, led)
    && s.hist.accepted == Flatten(Pieces(run, led.taken))
    && (s.sh.status == Open && !cfg.discardOverflow ==> NoneMissing(run, s.threads, led))
  }

  lemma WritesStay(run: seq<Event>, e: Event)
    ensures forall i :: IsWrite(run, i) ==> IsWrite(run + [e], i) && (run + [e])[i] == run[i]
    ensures forall i :: IsWrite(run + [e], i) && i < |run| ==> IsWrite(run, i)
  {
  }

  lemma PiecesStay(run: seq<Event>, e: Event, taken: seq<int>)
    requires forall k :: 0 <= k < |taken| ==> taken[k] < |run|
    ensures Pieces(run + [e], taken) == Pieces(run, taken)
  {
    WritesStay(run, e);
    assert forall k :: 0 <= k < |taken| ==> BytesAt(run + [e], taken[k]) == BytesAt(run, taken[k]);
  }

  /** Taking a write adds exactly its bytes; nothing else adds any. */
  lemma StepKeepsAccepted(cfg: Config, run: seq<Event>, s: State, led: Ledger, e: Event)
    requires Balanced(cfg, run, s, led) && Enabled(cfg, s, e)
    ensures var led' := Entered(cfg, s, e, |run|, led);
            Apply(cfg, s, e).hist.accepted == Flatten(Pieces(run + [e], led'.taken))
  {
    var led' := Entered(cfg, s, e, |run|, led);
    PiecesStay(run, e, led.taken);
    if Takes(cfg, s, e) {
      var i := led.latest[e.t];
      WritesStay(run, e);
      assert Deciding(s.threads[e.t]);
      assert Pieces(run + [e], led'.taken) == Pieces(run + [e], led.taken) + [BytesAt(run + [e], i)];
      FlattenAppend(Pieces(run, led.taken), [BytesAt(run + [e], i)]);
      FlattenSingle(BytesAt(run + [e], i));
    } else {
      assert Apply(cfg, s, e).hist.accepted == s.hist.accepted;
    }
  }

  lemma StepKeepsEntries(cfg: Config, run: seq<Event>, s: State, led: Ledger, e: Event)
    requires Balanced(cfg, run, s, led) && Enabled(cfg, s, e)
    ensures var led' := Entered(cfg, s, e, |run|, led);
            LatestOk(run + [e], led') && EntriesOk(run + [e], led')
  {
    WritesStay(run, e);
    if Takes(cfg, s, e) { assert Deciding(s.threads[e.t]); }
  }

  lemma StepKeepsOrder(cfg: Config, run: seq<Event>, s: State, led: Ledger, e: Event)
    requires Balanced(cfg, run, s, led) && Enabled(cfg, s, e)
    ensures InCallOrder(run + [e], Entered(cfg, s, e, |run|, led).taken)
  {
    WritesStay(run, e);
    if Takes(cfg, s, e) {
      assert Deciding(s.threads[e.t]);
      var i := led.latest[e.t];
      assert forall k :: 0 <= k < |led.taken| && run[led.taken[k]].t == e.t ==> led.taken[k] < i;
    }
  }

  lemma StepKeepsDeciding(cfg: Config, run: seq<Event>, s: State, led: Ledger, e: Event)
    requires Balanced(cfg, run, s, led) && Enabled(cfg, s, e)
    ensures DecidingOk(run + [e], Apply(cfg, s, e).threads, Entered(cfg, s, e, |run|, led))
  {
    WritesStay(run, e);
    var led', s' := Entered(cfg, s, e, |run|, led), Apply(cfg, s, e);
    forall t | 0 <= t < |s'.threads| && Deciding(s'.threads[t])
      ensures var i := led'.latest[t];
              && IsWrite(run + [e], i) && (run + [e])[i].t == t && (run + [e])[i].mb == s'.threads[t].mb
              && i !in led'.taken
    {
      if t != e.t {
        assert s'.threads[t] == s.threads[t];
        if Takes(cfg, s, e) {
          assert Deciding(s.threads[e.t]);
        }
      } else {
        assert e.StartWrite? || Deciding(s.threads[t]);
      }
    }
  }

  lemma StepKeepsNoneMissing(cfg: Config, run: seq<Event>, s: State, led: Ledger, e: Event)
    requires Balanced(cfg, run, s, led) && Enabled(cfg, s, e) && SharedOk(s.sh)
    requires Apply(cfg, s, e).sh.status == Open && !cfg.discardOverflow
    ensures NoneMissing(run + [e], Apply(cfg, s, e).threads, Entered(cfg, s, e, |run|, led))
  {
    WritesStay(run, e);
    var led', s' := Entered(cfg, s, e, |run|, led), Apply(cfg, s, e);
    assert s.sh.status == Open;
    forall i | IsWrite(run + [e], i)
      ensures var t := (run + [e])[i].t;
              && t < |s'.threads| && t < |led'.latest|
              && (i in led'.taken || (i == led'.latest[t] && Deciding(s'.threads[t])))
    {
      if i < |run| {
        assert IsWrite(run, i);
        if i !in led.taken && run[i].t == e.t {
          assert Deciding(s.threads[e.t]);
        }
      }
    }
  }

  lemma StepKeepsBalanced(cfg: Config, run: seq<Event>, s: State, led: Ledger, e: Event)
    requires Balanced(cfg, run, s, led) && Enabled(cfg, s, e) && SharedOk(s.sh)
    ensures Balanced(cfg, run + [e], Apply(cfg, s, e), Entered(cfg, s, e, |run|, led))
  {
    StepKeepsAccepted(cfg, run, s, led, e);
    StepKeepsEntries(cfg, run, s, led, e);
    StepKeepsOrder(cfg, run, s, led, e);
    StepKeepsDeciding(cfg, run, s, led, e);
    if Apply(cfg, s, e).sh.status == Open && !cfg.discardOverflow {
      StepKeepsNoneMissing(cfg, run, s, led, e);
    }
  }

  lemma {:induction false} RunKeepsBalanced(cfg: Config, threads: nat, run: seq<Event>)
    requires Legal(cfg, Initial(threads), run)
    ensures Balanced(cfg, run, Exec(cfg, Initial(threads), run), LedgerOf(cfg, threads, run))
  {
    if run != [] {
      var n := |run| - 1;
      var before, e := run[..n], run[n];
      RunKeepsBalanced(cfg, threads, before);
      RunKeepsSafety(cfg, Initial(threads), before);
      assert run == before + [e];
      StepKeepsBalanced(cfg, before, Exec(cfg, Initial(threads), before), LedgerOf(cfg, threads, before), e);
    }
  }

  /** Whatever the writers do, the accepted bytes are whole writes one after the other; no call is taken
      twice, a goroutine's calls are taken in the order it made them, and (unless overflow is discarded)
      while the pipe is open a call that was not taken is still being decided. */
  lemma WritesAreTakenWholeAndOnce(cfg: Config, threads: nat, run: seq<Event>) returns (taken: seq<int>)
    requires Legal(cfg, Initial(threads), run)
    ensures var s := Exec(cfg, Initial(threads), run);
            && s.hist.accepted == Flatten(Pieces(run, taken))
            && (forall k :: 0 <= k < |taken| ==> IsWrite(run, taken[k]))
            && (forall a, b :: 0 <= a < b < |taken| ==> taken[a] != taken[b])
            && InCallOrder(run, taken)
            && (s.sh.status == Open && !cfg.discardOverflow ==>
                  forall i :: IsWrite(run, i) && i !in taken ==> run[i].t < threads && Deciding(s.threads[run[i].t]))
  {
    RunKeepsBalanced(cfg, threads, run);
    taken := LedgerOf(cfg, threads, run).taken;
  }
}
