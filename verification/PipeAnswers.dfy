/** What the calls on the pipe answer, over every run, told from the events alone. */
module PipeAnswers {
  import opened Bytes
  import opened PipeProtocol
  import opened PipeSafety
  import opened PipeWriters

  /** What a finished call returns: bytes, an error, or a nil error with no bytes. */
  datatype Reply = Bytes(bytes: Chunk) | Error(failure: Failure) | Nil

  /** What the call that event `e` ends returns; None while no call ends there. */
  function ReplyAt(cfg: Config, s: State, e: Event): Option<Reply>
    requires Enabled(cfg, s, e)
  {
    var th := s.threads[e.t];
    match e
    case StartWrite(_, mb) => if IsEmpty(mb) then Some(Nil) else None
    case TryWrite(_) => if Apply(cfg, s, e).threads[e.t].Idle? then Some(Nil) else None
    case Signal(_) =>
      Some(match th
           case ReadSignal(Data(chunks)) => Bytes(Flatten(chunks))
           case ReadSignal(Failed(failure)) => Error(failure)
           case WriteSignal(Some(failure)) => Error(failure)
           case _ => Nil)
    case WakeByDone(_) => if th.WriteWait? then Some(Error(ClosedPipe)) else None
    case TakeError(_) => Some(Error(Injected(s.sh.pendingError.value)))
    case Expire(_) => Some(Error(ReadTimeout))
    case Recover(_) => Some(if s.sh.pendingError.Some? then Error(Injected(s.sh.pendingError.value)) else Nil)
    case _ => None
  }

  // ----- what the events tell -----

  /** The first Close or Interrupt of the run decides. */
  function StatusOf(run: seq<Event>): Status {
    if run == [] then Open
    else
      var n := |run| - 1;
      var before := StatusOf(run[..n]);
      if before != Open then before
      else if run[n].Close? then Closed
      else if run[n].Interrupt? then Errored
      else Open
  }

  /** The last call goroutine `t` made that may block. */
  function LastCall(run: seq<Event>, t: nat): Option<Event> {
    if run == [] then None
    else
      var e := run[|run| - 1];
      if e.t == t && (e.StartRead? || e.StartInject? || (e.StartWrite? && !IsEmpty(e.mb))) then Some(e)
      else LastCall(run[..|run| - 1], t)
  }

  /** The injected error no call has taken yet. */
  function Pending(run: seq<Event>): Option<int> {
    if run == [] then None
    else
      var n := |run| - 1;
      var e := run[n];
      if e.TakeError? || e.Recover? then None
      else if e.PutError? then
        var call := LastCall(run[..n], e.t);
        if call.Some? && call.value.StartInject? then Some(call.value.code) else None
      else Pending(run[..n])
  }

  /** A goroutine that is inside a call is inside its last one. */
  ghost predicate InLastCall(th: Thread, call: Option<Event>) {
    match th
    case Idle => true
    case ReadTry(timed) => call.Some? && call.value.StartRead? && call.value.timed == timed
    case ReadWait(timed) => call.Some? && call.value.StartRead? && call.value.timed == timed
    case ReadSignal(_) => call.Some? && call.value.StartRead?
    case WriteTry(mb) => call.Some? && call.value.StartWrite? && call.value.mb == mb
    case WriteWait(mb) => call.Some? && call.value.StartWrite? && call.value.mb == mb
    case WriteSignal(_) => call.Some? && call.value.StartWrite?
    case Inject(code) => call.Some? && call.value.StartInject? && call.value.code == code
  }

  ghost predicate CallsOk(s: State, run: seq<Event>) {
    forall t :: 0 <= t < |s.threads| ==> InLastCall(s.threads[t], LastCall(run, t))
  }

  lemma StepKeepsCalls(cfg: Config, s: State, run: seq<Event>, e: Event)
    requires CallsOk(s, run) && Enabled(cfg, s, e)
    ensures CallsOk(Apply(cfg, s, e), run + [e])
  {
    assert (run + [e])[..|run|] == run;
    assert InLastCall(s.threads[e.t], LastCall(run, e.t));
    var s' := Apply(cfg, s, e);
    forall t | 0 <= t < |s'.threads| ensures InLastCall(s'.threads[t], LastCall(run + [e], t)) {
      if t != e.t { assert s'.threads[t] == s.threads[t]; }
    }
  }

  ghost predicate AsTold(s: State, run: seq<Event>) {
    s.sh.status == StatusOf(run) && s.sh.pendingError == Pending(run) && CallsOk(s, run)
  }

  lemma StepAsTold(cfg: Config, s: State, run: seq<Event>, e: Event)
    requires AsTold(s, run) && Enabled(cfg, s, e)
    ensures AsTold(Apply(cfg, s, e), run + [e])
  {
    assert (run + [e])[..|run|] == run;
    assert InLastCall(s.threads[e.t], LastCall(run, e.t));
    StepKeepsCalls(cfg, s, run, e);
  }

  /** Status and pending error are what the events say; every goroutine is inside its last call. */
  lemma {:induction false} EventsTell(cfg: Config, threads: nat, run: seq<Event>)
    requires Legal(cfg, Initial(threads), run)
    ensures var s := Exec(cfg, Initial(threads), run);
            s.sh.status == StatusOf(run) && s.sh.pendingError == Pending(run) && CallsOk(s, run)
  {
    if run != [] {
      var n := |run| - 1;
      var before, e := run[..n], run[n];
      EventsTell(cfg, threads, before);
      assert run == before + [e];
      StepAsTold(cfg, Exec(cfg, Initial(threads), before), before, e);
    }
  }

  // ----- the sections -----

  /** What a read section does, in every run: it answers end of file exactly when the pipe was closed and no
      byte is left, "closed pipe" exactly when it was interrupted, everything that is left when something is,
      and it waits exactly when the pipe is open and empty. */
  lemma ReadSectionExactly(cfg: Config, threads: nat, run: seq<Event>, t: nat)
    requires Legal(cfg, Initial(threads), run + [TryRead(t)])
    ensures Legal(cfg, Initial(threads), run) && t < threads
    ensures var left := Content(Exec(cfg, Initial(threads), run).sh.data);
            var th := Exec(cfg, Initial(threads), run + [TryRead(t)]).threads[t];
            && (th == ReadSignal(Failed(EndOfFile)) <==> StatusOf(run) == Closed && left == [])
            && (th == ReadSignal(Failed(ClosedPipe)) <==> StatusOf(run) == Errored)
            && (InFlight(th) != [] <==> StatusOf(run) != Errored && left != [])
            && (InFlight(th) != [] ==> InFlight(th) == left)
            && (th.ReadWait? <==> StatusOf(run) == Open && left == [])
  {
    LegalPrefix(cfg, Initial(threads), run, [TryRead(t)]);
    assert (run + [TryRead(t)])[..|run|] == run;
    RunKeepsSafety(cfg, Initial(threads), run);
    EventsTell(cfg, threads, run);
    var sh := Exec(cfg, Initial(threads), run).sh;
    if sh.data.Some? { EmptyMeansNoBytes(sh.data.value); }
  }

  predicate Full(cfg: Config, content: Chunk) {
    cfg.limit >= 0 && Int32(|content|) > cfg.limit
  }

  /** What a write section does, in every run: an ended pipe refuses it with "closed pipe", an open one that is
      not full takes the whole of it and gives nil, and a full one drops it with nil or makes it wait. */
  lemma WriteSectionExactly(cfg: Config, threads: nat, run: seq<Event>, t: nat)
    requires Legal(cfg, Initial(threads), run + [TryWrite(t)])
    ensures Legal(cfg, Initial(threads), run) && t < threads
    ensures LastCall(run, t).Some? && LastCall(run, t).value.StartWrite?
    ensures var mb := LastCall(run, t).value.mb;
            var s, s' := Exec(cfg, Initial(threads), run), Exec(cfg, Initial(threads), run + [TryWrite(t)]);
            var th, left, full := s'.threads[t], Content(s.sh.data), Full(cfg, Content(s.sh.data));
            && (th == WriteSignal(Some(ClosedPipe)) <==> StatusOf(run) != Open)
            && (th == WriteSignal(None) <==> StatusOf(run) == Open && !full)
            && (th == Idle <==> StatusOf(run) == Open && full && cfg.discardOverflow)
            && (th == WriteWait(mb) <==> StatusOf(run) == Open && full && !cfg.discardOverflow)
            && Content(s'.sh.data) == if th == WriteSignal(None) then left + Flatten(mb) else left
  {
    var e := TryWrite(t);
    LegalPrefix(cfg, Initial(threads), run, [e]);
    assert (run + [e])[..|run|] == run;
    EventsTell(cfg, threads, run);
    var s := Exec(cfg, Initial(threads), run);
    assert InLastCall(s.threads[t], LastCall(run, t));
    if s.sh.data.Some? { FlattenAppend(s.sh.data.value, s.threads[t].mb); }
  }

  // ----- the calls -----

  /** An error a read section gave still tells how the pipe ended. */
  ghost predicate ErrorsOk(s: State) {
    forall t :: 0 <= t < |s.threads| && s.threads[t].ReadSignal? && s.threads[t].outcome.Failed? ==>
      && (s.threads[t].outcome.failure == EndOfFile <==> s.sh.status == Closed)
      && (s.threads[t].outcome.failure == ClosedPipe <==> s.sh.status == Errored)
      && s.sh.data.None?
  }

  lemma StepKeepsErrors(cfg: Config, s: State, e: Event)
    requires ErrorsOk(s) && Enabled(cfg, s, e) && ShapeOk(cfg, s)
    ensures ErrorsOk(Apply(cfg, s, e))
  {
    assert ThreadOk(cfg, s.threads[e.t]);
    var s' := Apply(cfg, s, e);
    forall t | 0 <= t < |s'.threads| && s'.threads[t].ReadSignal? && s'.threads[t].outcome.Failed?
      ensures (s'.threads[t].outcome.failure == EndOfFile <==> s'.sh.status == Closed)
      ensures (s'.threads[t].outcome.failure == ClosedPipe <==> s'.sh.status == Errored)
      ensures s'.sh.data.None?
    {
      if t != e.t {
        assert s'.threads[t] == s.threads[t];
        assert ThreadOk(cfg, s.threads[t]);
      }
    }
  }

  lemma {:induction false} RunKeepsErrors(cfg: Config, threads: nat, run: seq<Event>)
    requires Legal(cfg, Initial(threads), run)
    ensures ErrorsOk(Exec(cfg, Initial(threads), run))
  {
    if run != [] {
      var n := |run| - 1;
      RunKeepsErrors(cfg, threads, run[..n]);
      RunKeepsSafety(cfg, Initial(threads), run[..n]);
      StepKeepsErrors(cfg, Exec(cfg, Initial(threads), run[..n]), run[n]);
    }
  }

  /** Every answer of a read call, in every run: bytes; or the end of file, exactly of a closed pipe whose
      accepted bytes were all delivered; or "closed pipe", exactly of an interrupted one; or the time-out of a
      call that asked for one; or, to a call that did not, the injected error that is pending. */
  lemma ReadReplies(cfg: Config, threads: nat, run: seq<Event>, e: Event)
    requires Legal(cfg, Initial(threads), run + [e]) && !e.Recover? && !e.StartWrite?
    requires e.t < threads && LastCall(run, e.t).Some? && LastCall(run, e.t).value.StartRead?
    ensures Legal(cfg, Initial(threads), run)
    ensures Enabled(cfg, Exec(cfg, Initial(threads), run), e)
    ensures var s := Exec(cfg, Initial(threads), run);
            var timed, reply := LastCall(run, e.t).value.timed, ReplyAt(cfg, s, e);
            && (reply.Some? <==> e.Signal? || e.TakeError? || e.Expire?)
            && (e.Signal? ==>
                  && (reply == Some(Bytes(InFlight(s.threads[e.t]))) <==> InFlight(s.threads[e.t]) != [])
                  && (reply == Some(Error(EndOfFile)) <==> StatusOf(run) == Closed && InFlight(s.threads[e.t]) == [])
                  && (reply == Some(Error(ClosedPipe)) <==> StatusOf(run) == Errored && InFlight(s.threads[e.t]) == [])
                  && (reply == Some(Error(EndOfFile)) ==> s.hist.delivered == s.hist.accepted))
            && (e.Expire? ==> timed && reply == Some(Error(ReadTimeout)))
            && (e.TakeError? ==>
                  !timed && Pending(run).Some? && reply == Some(Error(Injected(Pending(run).value))))
  {
    LegalPrefix(cfg, Initial(threads), run, [e]);
    assert (run + [e])[..|run|] == run;
    EventsTell(cfg, threads, run);
    RunKeepsErrors(cfg, threads, run);
    RunKeepsSafety(cfg, Initial(threads), run);
    var s := Exec(cfg, Initial(threads), run);
    var th := s.threads[e.t];
    assert ThreadOk(cfg, th);
    assert InLastCall(th, LastCall(run, e.t));
    if th.ReadSignal? && th.outcome.Data? { EmptyMeansNoBytes(th.outcome.chunks); }
  }

  /** A write call that only has to signal was taken, or was refused by an ended pipe. */
  ghost predicate SignalsOk(run: seq<Event>, s: State, led: Ledger) {
    forall t :: 0 <= t < |s.threads| && t < |led.latest| && s.threads[t].WriteSignal? ==>
      && (s.threads[t].result.None? <==> led.latest[t] in led.taken)
      && (s.threads[t].result.Some? ==> s.threads[t].result == Some(ClosedPipe) && s.sh.status != Open)
  }

  lemma StepKeepsSignals(cfg: Config, run: seq<Event>, s: State, led: Ledger, e: Event)
    requires SignalsOk(run, s, led) && Balanced(cfg, run, s, led) && Enabled(cfg, s, e) && ShapeOk(cfg, s)
    ensures SignalsOk(run + [e], Apply(cfg, s, e), Entered(cfg, s, e, |run|, led))
  {
    var led', s' := Entered(cfg, s, e, |run|, led), Apply(cfg, s, e);
    forall t | 0 <= t < |s'.threads| && t < |led'.latest| && s'.threads[t].WriteSignal?
      ensures s'.threads[t].result.None? <==> led'.latest[t] in led'.taken
      ensures s'.threads[t].result.Some? ==> s'.threads[t].result == Some(ClosedPipe) && s'.sh.status != Open
    {
      if t != e.t {
        assert s'.threads[t] == s.threads[t] && led'.latest[t] == led.latest[t];
        if Takes(cfg, s, e) { assert Deciding(s.threads[e.t]); }
      } else {
        assert e.TryWrite? && Deciding(s.threads[t]);
      }
    }
  }

  /** Where goroutine `t` made its last write call; -1 when it made none. */
  function LastWrite(run: seq<Event>, t: nat): int {
    if run == [] then -1
    else if IsWrite(run, |run| - 1) && run[|run| - 1].t == t then |run| - 1
    else LastWrite(run[..|run| - 1], t)
  }

  lemma {:induction false} LedgerKnowsLast(cfg: Config, threads: nat, run: seq<Event>, t: nat)
    requires Legal(cfg, Initial(threads), run) && t < threads
    ensures LedgerOf(cfg, threads, run).latest[t] == LastWrite(run, t)
  {
    if run != [] { LedgerKnowsLast(cfg, threads, run[..|run| - 1], t); }
  }

  lemma {:induction false} RunKeepsSignals(cfg: Config, threads: nat, run: seq<Event>)
    requires Legal(cfg, Initial(threads), run)
    ensures SignalsOk(run, Exec(cfg, Initial(threads), run), LedgerOf(cfg, threads, run))
  {
    if run != [] {
      var n := |run| - 1;
      var before, e := run[..n], run[n];
      RunKeepsSignals(cfg, threads, before);
      RunKeepsSafety(cfg, Initial(threads), before);
      RunKeepsBalanced(cfg, threads, before);
      assert run == before + [e];
      StepKeepsSignals(cfg, before, Exec(cfg, Initial(threads), before), LedgerOf(cfg, threads, before), e);
    }
  }

  /** The call is dropped: the pipe is full and discards. */
  predicate Dropped(cfg: Config, s: State, e: Event) {
    e.TryWrite? && s.sh.status == Open && Full(cfg, Content(s.sh.data)) && cfg.discardOverflow
  }

  /** How write call `i` is answered, if it is, given the calls that were taken. */
  ghost predicate WriteReply(cfg: Config, s: State, e: Event, reply: Option<Reply>, i: int, taken: seq<int>) {
    && (reply.Some? <==> e.Signal? || e.WakeByDone? || Dropped(cfg, s, e))
    && (reply == Some(Nil) <==> Dropped(cfg, s, e) || (e.Signal? && i in taken))
    && (reply.Some? && reply != Some(Nil) ==>
          reply == Some(Error(ClosedPipe)) && s.sh.status != Open && i !in taken)
  }

  lemma WriteReplyAt(cfg: Config, run: seq<Event>, s: State, led: Ledger, e: Event, call: Option<Event>)
    requires Enabled(cfg, s, e) && !e.Recover? && !e.StartWrite? && ShapeOk(cfg, s)
    requires InLastCall(s.threads[e.t], call) && call.Some? && call.value.StartWrite?
    requires Balanced(cfg, run, s, led) && SignalsOk(run, s, led)
    ensures WriteReply(cfg, s, e, ReplyAt(cfg, s, e), led.latest[e.t], led.taken)
  {
    assert ThreadOk(cfg, s.threads[e.t]);
  }

  /** Every answer of a write call, in every run: nil exactly if the call was taken, or dropped by a full pipe
      that discards; otherwise "closed pipe", and then the pipe has ended and took nothing of it. */
  lemma WriteReplies(cfg: Config, threads: nat, run: seq<Event>, e: Event)
    requires Legal(cfg, Initial(threads), run + [e]) && !e.Recover? && !e.StartWrite?
    requires e.t < threads && LastCall(run, e.t).Some? && LastCall(run, e.t).value.StartWrite?
    ensures Legal(cfg, Initial(threads), run)
    ensures var s := Exec(cfg, Initial(threads), run);
            && Enabled(cfg, s, e) && s.sh.status == StatusOf(run)
            && WriteReply(cfg, s, e, ReplyAt(cfg, s, e), LastWrite(run, e.t), LedgerOf(cfg, threads, run).taken)
  {
    LegalPrefix(cfg, Initial(threads), run, [e]);
    assert (run + [e])[..|run|] == run;
    EventsTell(cfg, threads, run);
    RunKeepsSafety(cfg, Initial(threads), run);
    RunKeepsBalanced(cfg, threads, run);
    RunKeepsSignals(cfg, threads, run);
    LedgerKnowsLast(cfg, threads, run, e.t);
    var s := Exec(cfg, Initial(threads), run);
    WriteReplyAt(cfg, run, s, LedgerOf(cfg, threads, run), e, LastCall(run, e.t));
  }

  /** The calls that never block: an empty write gives nil at once, and Recover gives the pending error. */
  lemma OtherReplies(cfg: Config, threads: nat, run: seq<Event>, e: Event)
    requires Legal(cfg, Initial(threads), run + [e]) && (e.Recover? || e.StartWrite?)
    ensures Legal(cfg, Initial(threads), run)
    ensures Enabled(cfg, Exec(cfg, Initial(threads), run), e)
    ensures var s := Exec(cfg, Initial(threads), run);
            var reply := ReplyAt(cfg, s, e);
            && (e.StartWrite? ==> reply == if Flatten(e.mb) == [] then Some(Nil) else None)
            && (e.Recover? && Pending(run).Some? ==> reply == Some(Error(Injected(Pending(run).value))))
            && (e.Recover? && Pending(run).None? ==> reply == Some(Nil))
            && (e.Recover? ==> Exec(cfg, Initial(threads), run + [e]).sh.pendingError.None?)
  {
    LegalPrefix(cfg, Initial(threads), run, [e]);
    assert (run + [e])[..|run|] == run;
    EventsTell(cfg, threads, run);
    if e.StartWrite? { EmptyMeansNoBytes(e.mb); }
  }
}
