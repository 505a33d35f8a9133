/** The unbounded queue: a channel of capacity one, a backlog and the closing/closed flags. */
module UnboundedQueue {

  /** `chan` holds what is in the channel; `chanClosed` says it was closed. */
  datatype Queue<T> = Queue(chan: seq<T>, chanClosed: bool, closing: bool, closed: bool, backlog: seq<T>)

  /** A Go channel panics on a send to it or a close of it once it is closed. */
  datatype Outcome<T> = Ok(queue: Queue<T>) | Panic

  function Empty<T>(): Queue<T> { Queue([], false, false, false, []) }

  /** Everything queued, oldest first. */
  function Pending<T>(q: Queue<T>): seq<T> { q.chan + q.backlog }

  function AfterPut<T>(q: Queue<T>, t: T): Outcome<T> {
    if q.closing then Ok(q)
    else if q.backlog == [] && q.chanClosed then Panic
    else if q.backlog == [] && q.chan == [] then Ok(q.(chan := [t]))
    else Ok(q.(backlog := q.backlog + [t]))
  }

  function AfterLoad<T>(q: Queue<T>): Outcome<T> {
    if q.backlog != [] then
      if q.chanClosed then Panic
      else if q.chan == [] then Ok(q.(chan := [q.backlog[0]], backlog := q.backlog[1..]))
      else Ok(q)
    else if q.closing && !q.closed then
      if q.chanClosed then Panic else Ok(q.(chanClosed := true))
    else Ok(q)
  }

  function AfterClose<T>(q: Queue<T>): Outcome<T> {
    if q.closing then Ok(q)
    else if q.backlog != [] then Ok(q.(closing := true))
    else if q.chanClosed then Panic
    else Ok(q.(closing := true, closed := true, chanClosed := true))
  }

  /** What every sequence of Put, Load, Close and receives keeps, whoever makes the calls. */
  ghost predicate Consistent<T>(q: Queue<T>) {
    && |q.chan| <= 1
    && (q.closed ==> q.chanClosed)
    && (q.chanClosed ==> q.closing && q.backlog == [])
  }

  /** The queue as the object its users share; each method is one locked section. */
  class Unbounded<T> {
    var chan: seq<T>
    var chanClosed: bool
    var closing: bool
    var closed: bool
    var backlog: seq<T>

    ghost function View(): Queue<T>
      reads this
    {
      Queue(chan, chanClosed, closing, closed, backlog)
    }

    constructor ()
      ensures View() == Empty()
    {
      chan, chanClosed, closing, closed, backlog := [], false, false, false, [];
    }

    /** A send that does not wait: taken when the slot is free. */
    method TrySend(t: T) returns (sent: bool)
      requires !chanClosed
      modifies this
      ensures sent == (old(chan) == [])
      ensures View() == if sent then old(View()).(chan := [t]) else old(View())
    {
      sent := |chan| == 0;
      if sent { chan := [t]; }
    }

    method Put(t: T) returns (refused: bool)
      requires Consistent(View())
      modifies this
      ensures Consistent(View())
      ensures Ok(View()) == AfterPut(old(View()), t)
      ensures refused == old(closing)
      ensures Pending(View()) == if refused then old(Pending(View())) else old(Pending(View())) + [t]
    {
      if closing { return true; }
      if |backlog| == 0 {
        var sent := TrySend(t);
        if sent { return false; }
      }
      backlog := backlog + [t];
      refused := false;
    }

    /** Panics exactly when the channel was already closed by an earlier Load. */
    method Load() returns (panicked: bool)
      requires Consistent(View())
      modifies this
      ensures Consistent(View())
      ensures panicked == AfterLoad(old(View())).Panic? == (old(chanClosed) && !old(closed))
      ensures !panicked ==> Ok(View()) == AfterLoad(old(View()))
      ensures Pending(View()) == old(Pending(View()))
    {
      if |backlog| > 0 {
        var sent := TrySend(backlog[0]);
        if sent { backlog := backlog[1..]; }
      } else if closing && !closed {
        if chanClosed { return true; }
        chanClosed := true;
      }
      panicked := false;
    }

    method Close()
      requires Consistent(View())
      modifies this
      ensures Consistent(View())
      ensures Ok(View()) == AfterClose(old(View()))
      ensures Pending(View()) == old(Pending(View()))
    {
      if closing { return; }
      closing := true;
      if |backlog| == 0 {
        closed := true;
        chanClosed := true;
      }
    }

    /** A receive from the channel that found a value. */
    method Receive() returns (t: T)
      requires Consistent(View()) && chan != []
      modifies this
      ensures Consistent(View())
      ensures View() == old(View()).(chan := [])
      ensures old(Pending(View())) == [t] + Pending(View())
    {
      t := chan[0];
      chan := chan[1..];
    }
  }
}

/**
The callback serializer: arbitrary producers, and the one goroutine `run` as a program-counter
machine over the unbounded queue.
*/
module Serializer {
  import opened UnboundedQueue

  type Callback = nat

  /** Where `run` stands; the first five are its first loop, up to closing the queue. */
  datatype Pc =
    | Check
    | Select
    | Load1(cb: Callback)
    | Exec1(cb: Callback)
    | CloseQueue
    | Range
    | Load2(cb: Callback)
    | Exec2(cb: Callback)
    | Finished

  datatype State = State(
    queue: Queue<Callback>,
    cancelled: bool,
    pc: Pc,
    panicked: bool,
    submitted: seq<Callback>,  // arguments of ScheduleOr, in the order of their Put
    accepted: seq<Callback>,   // those the queue took
    failed: seq<Callback>,     // those whose onFailure ran instead
    executed: seq<Callback>)   // those `run` has executed

  datatype Event =
    | ScheduleOr(f: Callback)
    | Cancel
    | CheckContext
    | SelectDone
    | SelectReceive
    | DoLoad
    | DoExecute
    | DoClose
    | RangeReceive
    | RangeEnd

  predicate ByConsumer(e: Event) { !e.ScheduleOr? && !e.Cancel? }

  function Initial(): State { State(Empty(), false, Check, false, [], [], [], []) }

  predicate Enabled(s: State, e: Event) {
    && !s.panicked
    && match e
       case ScheduleOr(_) => true
       case Cancel => true
       case CheckContext => s.pc.Check?
       case SelectDone => s.pc.Select? && s.cancelled
       case SelectReceive => s.pc.Select? && (s.queue.chan != [] || s.queue.chanClosed)
       case DoLoad => s.pc.Load1? || s.pc.Load2?
       case DoExecute => s.pc.Exec1? || s.pc.Exec2?
       case DoClose => s.pc.CloseQueue?
       case RangeReceive => s.pc.Range? && s.queue.chan != []
       case RangeEnd => s.pc.Range? && s.queue.chan == [] && s.queue.chanClosed
  }

  function After(s: State, o: Outcome<Callback>, pc: Pc): State {
    if o.Panic? then s.(panicked := true) else s.(queue := o.queue, pc := pc)
  }

  function Apply(s: State, e: Event): State
    requires Enabled(s, e)
  {
    match e
    case ScheduleOr(f) =>
      var s1 := After(s, AfterPut(s.queue, f), s.pc);
      if s.queue.closing then s1.(submitted := s.submitted + [f], failed := s.failed + [f])
      else s1.(submitted := s.submitted + [f], accepted := s.accepted + [f])
    case Cancel => s.(cancelled := true)
    case CheckContext => s.(pc := if s.cancelled then CloseQueue else Select)
    case SelectDone => s.(pc := Check)
    case SelectReceive =>
      // a receive from a closed channel yields nil, and asserting nil to be a function panics
      if s.queue.chan == [] then s.(panicked := true)
      else s.(queue := s.queue.(chan := s.queue.chan[1..]), pc := Load1(s.queue.chan[0]))
    case DoLoad =>
      After(s, AfterLoad(s.queue), if s.pc.Load1? then Exec1(s.pc.cb) else Exec2(s.pc.cb))
    case DoExecute =>
      s.(executed := s.executed + [s.pc.cb], pc := if s.pc.Exec1? then Check else Range)
    case DoClose => After(s, AfterClose(s.queue), Range)
    case RangeReceive =>
      s.(queue := s.queue.(chan := s.queue.chan[1..]), pc := Load2(s.queue.chan[0]))
    case RangeEnd => s.(pc := Finished)
  }

  predicate Legal(s: State, run: seq<Event>)
    decreases |run|, 0
  {
    run == [] ||
    (var n := |run| - 1; Legal(s, run[..n]) && Enabled(Exec(s, run[..n]), run[n]))
  }

  function Exec(s: State, run: seq<Event>): State
    requires Legal(s, run)
    decreases |run|, 1
  {
    if run == [] then s else Apply(Exec(s, run[..|run| - 1]), run[|run| - 1])
  }

  // ----- the invariant -----

  predicate FirstLoop(pc: Pc) { pc.Check? || pc.Select? || pc.Load1? || pc.Exec1? || pc.CloseQueue? }

  predicate Loading(pc: Pc) { pc.Load1? || pc.Load2? }

  function InHand(pc: Pc): seq<Callback> {
    if pc.Load1? || pc.Load2? || pc.Exec1? || pc.Exec2? then [pc.cb] else []
  }

  /** Nobody panics, and the channel is never starved while work is queued. */
  ghost predicate ChannelOk(s: State) {
    var q := s.queue;
    && !s.panicked
    && |q.chan| <= 1
    && (q.closing <==> !FirstLoop(s.pc))
    && (q.closed ==> q.chanClosed)
    && (q.chanClosed ==> q.closing && q.backlog == [])
    && (q.backlog != [] ==> q.chan != [] || Loading(s.pc))
    && (s.pc.Load2? ==> q.chan == [] && (q.chanClosed ==> q.closed))
    && (q.chanClosed && !q.closed ==> q.chan == [])
    && (s.pc.Range? || s.pc.Exec2? ==> q.chanClosed || q.chan != [])
    && (s.pc.Finished? ==> q.chan == [] && q.chanClosed)
    && (s.pc.CloseQueue? || q.closing ==> s.cancelled)
  }

  /** First in, first out, nothing lost and nothing repeated. */
  ghost predicate Fifo(s: State) {
    s.executed + InHand(s.pc) + Pending(s.queue) == s.accepted
  }

  ghost predicate Accounted(s: State) {
    multiset(s.submitted) == multiset(s.accepted) + multiset(s.failed)
  }

  ghost predicate Inv(s: State) { ChannelOk(s) && Fifo(s) && Accounted(s) }

  lemma StepKeepsChannelOk(s: State, e: Event)
    requires ChannelOk(s) && Enabled(s, e)
    ensures ChannelOk(Apply(s, e))
  {
  }

  lemma LoadKeepsPending(q: Queue<Callback>)
    requires |q.chan| <= 1 && AfterLoad(q).Ok?
    ensures Pending(AfterLoad(q).queue) == Pending(q)
  {
  }

  lemma PutAppends(q: Queue<Callback>, f: Callback)
    requires |q.chan| <= 1 && AfterPut(q, f).Ok?
    ensures Pending(AfterPut(q, f).queue) == if q.closing then Pending(q) else Pending(q) + [f]
  {
  }

  lemma ReceiveTakesFirst(q: Queue<Callback>)
    requires |q.chan| == 1
    ensures Pending(q) == [q.chan[0]] + Pending(q.(chan := q.chan[1..]))
  {
  }

  lemma PutKeepsFifo(s: State, f: Callback)
    requires ChannelOk(s) && Fifo(s) && Enabled(s, ScheduleOr(f))
    ensures Fifo(Apply(s, ScheduleOr(f)))
  {
    PutAppends(s.queue, f);
    var had := s.executed + InHand(s.pc);
    assert had + (Pending(s.queue) + [f]) == had + Pending(s.queue) + [f];
  }

  /** A callback moves from the queue into the hand of `run`. */
  lemma ReceiveKeepsFifo(s: State, e: Event)
    requires ChannelOk(s) && Fifo(s) && Enabled(s, e) && (e.SelectReceive? || e.RangeReceive?)
    ensures Fifo(Apply(s, e))
  {
    ReceiveTakesFirst(s.queue);
    var cb, rest := s.queue.chan[0], Pending(s.queue.(chan := s.queue.chan[1..]));
    assert s.executed + [] + ([cb] + rest) == s.executed + [cb] + rest;
  }

  lemma ExecuteKeepsFifo(s: State)
    requires Fifo(s) && Enabled(s, DoExecute)
    ensures Fifo(Apply(s, DoExecute))
  {
    assert s.executed + [s.pc.cb] + [] == s.executed + [s.pc.cb];
  }

  lemma StepKeepsFifo(s: State, e: Event)
    requires ChannelOk(s) && Fifo(s) && Enabled(s, e)
    ensures Fifo(Apply(s, e))
  {
    match e
    case ScheduleOr(f) => PutKeepsFifo(s, f);
    case SelectReceive => ReceiveKeepsFifo(s, e);
    case RangeReceive => ReceiveKeepsFifo(s, e);
    case DoExecute => ExecuteKeepsFifo(s);
    case DoLoad => LoadKeepsPending(s.queue);
    case DoClose => assert Pending(AfterClose(s.queue).queue) == Pending(s.queue);
    case _ =>
  }

  lemma OnlyScheduleSubmits(s: State, e: Event)
    requires Enabled(s, e) && !e.ScheduleOr?
    ensures var s' := Apply(s, e);
            s'.submitted == s.submitted && s'.accepted == s.accepted && s'.failed == s.failed
  {
  }

  lemma StepKeepsAccounted(s: State, e: Event)
    requires Accounted(s) && Enabled(s, e)
    ensures Accounted(Apply(s, e))
  {
    if e.ScheduleOr? {
      assert multiset(s.submitted + [e.f]) == multiset(s.submitted) + multiset{e.f};
    } else {
      OnlyScheduleSubmits(s, e);
    }
  }

  lemma {:induction false} RunKeepsInv(run: seq<Event>)
    requires Legal(Initial(), run)
    ensures Inv(Exec(Initial(), run))
  {
    if run != [] {
      var n := |run| - 1;
      RunKeepsInv(run[..n]);
      StepKeepsChannelOk(Exec(Initial(), run[..n]), run[n]);
      StepKeepsFifo(Exec(Initial(), run[..n]), run[n]);
      StepKeepsAccounted(Exec(Initial(), run[..n]), run[n]);
    }
  }

  // ----- what the users get -----

  /** The callbacks scheduled before `run` closed the queue, and those scheduled after. */
  function Early(run: seq<Event>): seq<Callback> {
    if run == [] then []
    else
      var before, e := run[..|run| - 1], run[|run| - 1];
      Early(before) + if e.ScheduleOr? && DoClose !in before then [e.f] else []
  }

  function Late(run: seq<Event>): seq<Callback> {
    if run == [] then []
    else
      var before, e := run[..|run| - 1], run[|run| - 1];
      Late(before) + if e.ScheduleOr? && DoClose in before then [e.f] else []
  }

  function Executions(run: seq<Event>): nat {
    if run == [] then 0 else Executions(run[..|run| - 1]) + if run[|run| - 1].DoExecute? then 1 else 0
  }

  /** What the events tell about the queue and its users. */
  ghost predicate AsTold(s: State, run: seq<Event>) {
    && s.accepted == Early(run) && s.failed == Late(run) && |s.executed| == Executions(run)
    && (FirstLoop(s.pc) <==> DoClose !in run) && (s.cancelled <==> Cancel in run)
  }

  lemma StepAsTold(s: State, run: seq<Event>, e: Event)
    requires AsTold(s, run) && ChannelOk(s) && Enabled(s, e)
    ensures AsTold(Apply(s, e), run + [e])
  {
    assert (run + [e])[..|run|] == run;
    assert forall x :: x in run + [e] <==> x in run || x == e;
    StepKeepsChannelOk(s, e);
    if !e.ScheduleOr? { OnlyScheduleSubmits(s, e); }
  }

  lemma {:induction false} RunAsTold(run: seq<Event>)
    requires Legal(Initial(), run)
    ensures AsTold(Exec(Initial(), run), run)
  {
    if run != [] {
      var n := |run| - 1;
      RunAsTold(run[..n]);
      RunKeepsInv(run[..n]);
      assert run == run[..n] + [run[n]];
      StepAsTold(Exec(Initial(), run[..n]), run[..n], run[n]);
    }
  }

  /** In every run nothing panics (the channel is closed at most once and never sent to afterwards). What is
      scheduled before the queue is closed is executed once, in that order, the k-th execution running the
      k-th of them; what is scheduled later has its onFailure run instead; and once `done` is closed all the
      early ones ran, so that every scheduled callback had exactly one of itself and its onFailure run. */
  lemma SerializerIsExactlyOnceFifo(run: seq<Event>)
    requires Legal(Initial(), run)
    ensures var s := Exec(Initial(), run);
            && !s.panicked
            && s.accepted == Early(run) && s.failed == Late(run)
            && s.executed + InHand(s.pc) + Pending(s.queue) == Early(run)
            && Executions(run) <= |Early(run)| && s.executed == Early(run)[..Executions(run)]
            && (s.pc.Finished? ==> s.executed == Early(run)
                                   && multiset(s.submitted) == multiset(s.executed) + multiset(s.failed))
  {
    RunKeepsInv(run);
    RunAsTold(run);
    var s := Exec(Initial(), run);
    FirstPart(s.executed, InHand(s.pc), Pending(s.queue), s.accepted);
  }

  lemma FirstPart(a: seq<Callback>, b: seq<Callback>, c: seq<Callback>, all: seq<Callback>)
    requires a + b + c == all
    ensures |a| <= |all| && a == all[..|a|] && (b == [] && c == [] ==> a == all)
  {
  }

  predicate ConsumerMoves(s: State, e: Event) { ByConsumer(e) && Enabled(s, e) }

  ghost predicate ConsumerBlocked(s: State) { forall e :: !ConsumerMoves(s, e) }

  lemma BlockedMeansIdle(s: State)
    requires ChannelOk(s) && ConsumerBlocked(s)
    ensures s.pc.Finished? || (s.pc.Select? && !s.cancelled && Pending(s.queue) == [])
  {
    assert !ConsumerMoves(s, CheckContext) && !ConsumerMoves(s, SelectDone) && !ConsumerMoves(s, SelectReceive);
    assert !ConsumerMoves(s, DoLoad) && !ConsumerMoves(s, DoExecute) && !ConsumerMoves(s, DoClose);
    assert !ConsumerMoves(s, RangeReceive) && !ConsumerMoves(s, RangeEnd);
  }

  /** `run` sleeps only when nothing is queued, and never once the context is cancelled. */
  lemma ConsumerNeverStarves(run: seq<Event>)
    requires Legal(Initial(), run)
    requires ConsumerBlocked(Exec(Initial(), run))
    ensures var s := Exec(Initial(), run);
            s.pc.Finished? || (s.pc.Select? && !s.cancelled && Pending(s.queue) == [])
  {
    RunKeepsInv(run);
    BlockedMeansIdle(Exec(Initial(), run));
  }

  // ----- drain termination -----

  /** Steps `run` still needs once the context is cancelled. */
  ghost function Fuel(s: State): nat {
    var pending := |Pending(s.queue)|;
    match s.pc
    case Load1(_) => 3 * pending + 5
    case Exec1(_) => 3 * pending + 4
    case Select => 3 * pending + 4
    case Check => 3 * pending + 3
    case CloseQueue => 3 * pending + 2
    case Load2(_) => 3 * pending + 3
    case Exec2(_) => 3 * pending + 2
    case Range => 3 * pending + 1
    case Finished => 0
  }

  ghost function ConsumerSteps(run: seq<Event>): nat {
    if run == [] then 0
    else ConsumerSteps(run[..|run| - 1]) + if ByConsumer(run[|run| - 1]) then 1 else 0
  }

  lemma StepBurnsFuel(s: State, e: Event)
    requires ChannelOk(s) && s.cancelled && Enabled(s, e)
    ensures var s' := Apply(s, e);
            && s'.cancelled
            && Fuel(s') + (if ByConsumer(e) then 1 else 0) <= Fuel(s) + 3 * (|s'.accepted| - |s.accepted|)
  {
    StepKeepsChannelOk(s, e);
    match e
    case ScheduleOr(f) => PutAppends(s.queue, f);
    case SelectReceive => ReceiveTakesFirst(s.queue);
    case RangeReceive => ReceiveTakesFirst(s.queue);
    case DoLoad => LoadKeepsPending(s.queue);
    case _ =>
  }

  /** After cancellation the consumer takes at most `Fuel` steps, plus three for every callback
      that still slips in, however the producers interleave; with ConsumerNeverStarves it finishes. */
  lemma {:induction false} DrainTerminates(run: seq<Event>, rest: seq<Event>)
    requires Legal(Initial(), run) && Exec(Initial(), run).cancelled
    requires Legal(Exec(Initial(), run), rest)
    ensures var s := Exec(Initial(), run);
            var s' := Exec(s, rest);
            && ChannelOk(s') && s'.cancelled
            && ConsumerSteps(rest) + Fuel(s') <= Fuel(s) + 3 * (|s'.accepted| - |s.accepted|)
  {
    var s := Exec(Initial(), run);
    if rest == [] {
      RunKeepsInv(run);
    } else {
      var n := |rest| - 1;
      DrainTerminates(run, rest[..n]);
      StepBurnsFuel(Exec(s, rest[..n]), rest[n]);
      StepKeepsChannelOk(Exec(s, rest[..n]), rest[n]);
    }
  }

  // ----- what cancellation does not do -----

  /** A callback is accepted exactly while `run` has not closed the queue yet. */
  lemma AcceptedUntilClosed(run: seq<Event>, f: Callback)
    requires Legal(Initial(), run)
    ensures var s := Exec(Initial(), run);
            Enabled(s, ScheduleOr(f)) &&
            (Apply(s, ScheduleOr(f)).accepted == s.accepted + [f] <==> FirstLoop(s.pc))
  {
    RunKeepsInv(run);
  }

  /** The documentation promises that no callback is added once the context is cancelled;
      this run adds one, which SerializerIsExactlyOnceFifo says will be executed. */
  lemma CancelledContextStillAccepts() returns (run: seq<Event>)
    ensures Legal(Initial(), run)
    ensures run == [Cancel, ScheduleOr(7)] && Exec(Initial(), run).accepted == [7]
  {
    run := [Cancel, ScheduleOr(7)];
    assert run[..1] == [Cancel] && run[..1][..0] == [];
    assert Exec(Initial(), run[..1]) == Initial().(cancelled := true);
  }

  /** Without the single consumer the guarantee fails: after two Puts, Close and both receives with
      their Loads, one more Load closes the channel again. */
  lemma SecondLoadPanics(a: Callback, b: Callback) returns (q: Queue<Callback>)
    ensures var two := AfterPut(AfterPut(Empty(), a).queue, b).queue;
            var closing := AfterClose(two).queue;
            var once := AfterLoad(closing.(chan := [])).queue;
            q == AfterLoad(once.(chan := [])).queue
    ensures AfterLoad(q).Panic?
  {
    var two := AfterPut(AfterPut(Empty(), a).queue, b).queue;
    assert two == Queue([a], false, false, false, [b]);
    var once := AfterLoad(AfterClose(two).queue.(chan := [])).queue;
    assert once == Queue([b], false, true, false, []);
    q := AfterLoad(once.(chan := [])).queue;
  }
}
