/** Run: n tasks in parallel, as a step system over the tasks' goroutines and the caller. */
module TaskRunner {
  import opened Bytes

  type Error = int

  /** A task's goroutine: the task runs, then its result is signalled or reported. */
  datatype Task = Waiting | Running | Passed | Failed(error: Error) | Signalled | Reported

  datatype Verdict = Success | TaskError(error: Error) | ContextError

  datatype Caller = Launching(next: nat) | Collecting(got: nat) | Returned(got: nat, verdict: Verdict)

  datatype State = State(
    tokens: nat,              // semaphore, a channel of capacity n
    slot: seq<Error>,         // the done channel, of capacity one
    cancelled: bool,
    tasks: seq<Task>,
    caller: Caller,
    reports: seq<Error>)      // errors that reached the done channel's select, in that order

  datatype Event =
    | Launch
    | LaunchedAll
    | Finish(i: nat, result: Verdict)
    | Signal(i: nat)
    | Report(i: nat)
    | Cancel
    | CollectToken
    | CollectError
    | CollectContext
    | ReturnNil

  function Initial(n: nat): State { State(n, [], false, seq(n, _ => Waiting), Launching(0), []) }

  predicate Enabled(s: State, e: Event) {
    match e
    case Launch => s.caller.Launching? && s.caller.next < |s.tasks| && s.tokens > 0
    case LaunchedAll => s.caller == Launching(|s.tasks|)
    case Finish(i, r) => i < |s.tasks| && s.tasks[i].Running? && !r.ContextError?
    case Signal(i) => i < |s.tasks| && s.tasks[i].Passed? && s.tokens < |s.tasks|
    case Report(i) => i < |s.tasks| && s.tasks[i].Failed?
    case Cancel => true
    case CollectToken => s.caller.Collecting? && s.caller.got < |s.tasks| && s.tokens > 0
    case CollectError => s.caller.Collecting? && s.caller.got < |s.tasks| && s.slot != []
    case CollectContext => s.caller.Collecting? && s.caller.got < |s.tasks| && s.cancelled
    case ReturnNil => s.caller == Collecting(|s.tasks|)
  }

  function Apply(s: State, e: Event): (s': State)
    requires Enabled(s, e)
    ensures |s'.tasks| == |s.tasks|
  {
    match e
    case Launch =>
      var k := s.caller.next;
      s.(tokens := s.tokens - 1, tasks := s.tasks[k := Running], caller := Launching(k + 1))
    case LaunchedAll => s.(caller := Collecting(0))
    case Finish(i, r) => s.(tasks := s.tasks[i := if r.Success? then Passed else Failed(r.error)])
    case Signal(i) => s.(tokens := s.tokens + 1, tasks := s.tasks[i := Signalled])
    case Report(i) =>
      var err := s.tasks[i].error;
      s.(slot := if s.slot == [] then [err] else s.slot,
         tasks := s.tasks[i := Reported],
         reports := s.reports + [err])
    case Cancel => s.(cancelled := true)
    case CollectToken => s.(tokens := s.tokens - 1, caller := Collecting(s.caller.got + 1))
    case CollectError => s.(slot := s.slot[1..], caller := Returned(s.caller.got, TaskError(s.slot[0])))
    case CollectContext => s.(caller := Returned(s.caller.got, ContextError))
    case ReturnNil => s.(caller := Returned(s.caller.got, Success))
  }

  predicate Legal(n: nat, run: seq<Event>)
    decreases |run|, 0
  {
    run == [] ||
    (var k := |run| - 1; Legal(n, run[..k]) && Enabled(Exec(n, run[..k]), run[k]))
  }

  function Exec(n: nat, run: seq<Event>): (s: State)
    requires Legal(n, run)
    ensures |s.tasks| == n
    decreases |run|, 1
  {
    if run == [] then Initial(n) else Apply(Exec(n, run[..|run| - 1]), run[|run| - 1])
  }

  // ----- counting -----

  function CountSignalled(tasks: seq<Task>): nat {
    if tasks == [] then 0
    else (if tasks[0].Signalled? then 1 else 0) + CountSignalled(tasks[1..])
  }

  lemma {:induction false} CountUpdate(tasks: seq<Task>, i: nat, t: Task)
    requires i < |tasks|
    ensures CountSignalled(tasks[i := t]) ==
            CountSignalled(tasks) - (if tasks[i].Signalled? then 1 else 0) + (if t.Signalled? then 1 else 0)
  {
    var tasks' := tasks[i := t];
    if i == 0 {
      assert tasks'[1..] == tasks[1..];
    } else {
      CountUpdate(tasks[1..], i - 1, t);
      assert tasks'[1..] == tasks[1..][i - 1 := t];
    }
  }

  /** Not all are signalled when some index is not. */
  lemma {:induction false} CountBelow(tasks: seq<Task>, k: nat)
    requires k <= |tasks| && forall i :: k <= i < |tasks| ==> !tasks[i].Signalled?
    ensures CountSignalled(tasks) <= k
    ensures (exists i :: 0 <= i < k && !tasks[i].Signalled?) ==> CountSignalled(tasks) < k
    ensures (forall i :: 0 <= i < k ==> tasks[i].Signalled?) ==> CountSignalled(tasks) == k
  {
    if k == 0 {
      if tasks != [] { CountBelow(tasks[1..], 0); }
    } else {
      CountBelow(tasks[1..], k - 1);
      if i :| 0 <= i < k && !tasks[i].Signalled? {
        assert i > 0 ==> !tasks[1..][i - 1].Signalled?;
      }
    }
  }

  // ----- the invariant -----

  function Launched(s: State): nat {
    if s.caller.Launching? then s.caller.next else |s.tasks|
  }

  function Got(s: State): nat {
    if s.caller.Launching? then 0 else s.caller.got
  }

  /** Exactly the first tasks are launched. */
  ghost predicate LaunchOk(s: State) {
    && Launched(s) <= |s.tasks|
    && (forall i :: 0 <= i < |s.tasks| ==> (s.tasks[i].Waiting? <==> Launched(s) <= i))
  }

  /** Permits are conserved: out of n, one per launch is gone, one per signal came back. */
  ghost predicate PermitsOk(s: State) {
    s.tokens + Launched(s) + Got(s) == |s.tasks| + CountSignalled(s.tasks)
  }

  /** The first report waits in the done channel. */
  ghost predicate ReportsOk(s: State) {
    && (!s.caller.Returned? ==> s.slot == if s.reports == [] then [] else [s.reports[0]])
    && (forall i :: 0 <= i < |s.tasks| && s.tasks[i].Reported? ==> s.reports != [])
  }

  ghost predicate VerdictOk(s: State) {
    s.caller.Returned? ==>
      match s.caller.verdict
      case Success => forall i :: 0 <= i < |s.tasks| ==> s.tasks[i].Signalled?
      case TaskError(err) => s.reports != [] && s.reports[0] == err
      case ContextError => s.cancelled
  }

  ghost predicate Inv(s: State) { LaunchOk(s) && PermitsOk(s) && ReportsOk(s) && VerdictOk(s) }

  lemma StepKeepsLaunches(s: State, e: Event)
    requires LaunchOk(s) && Enabled(s, e)
    ensures LaunchOk(Apply(s, e))
  {
  }

  lemma StepKeepsPermits(s: State, e: Event)
    requires LaunchOk(s) && PermitsOk(s) && Enabled(s, e)
    ensures PermitsOk(Apply(s, e))
  {
    match e
    case Launch => CountUpdate(s.tasks, s.caller.next, Running);
    case Finish(i, r) => CountUpdate(s.tasks, i, Apply(s, e).tasks[i]);
    case Signal(i) => CountUpdate(s.tasks, i, Signalled);
    case Report(i) => CountUpdate(s.tasks, i, Reported);
    case _ =>
  }

  lemma StepKeepsReports(s: State, e: Event)
    requires ReportsOk(s) && Enabled(s, e)
    ensures ReportsOk(Apply(s, e))
  {
  }

  lemma StepKeepsVerdict(s: State, e: Event)
    requires Inv(s) && Enabled(s, e)
    ensures VerdictOk(Apply(s, e))
  {
    if e.ReturnNil? { CountBelow(s.tasks, |s.tasks|); }
  }

  lemma StepKeepsInv(s: State, e: Event)
    requires Inv(s) && Enabled(s, e)
    ensures Inv(Apply(s, e))
  {
    StepKeepsLaunches(s, e);
    StepKeepsPermits(s, e);
    StepKeepsReports(s, e);
    StepKeepsVerdict(s, e);
  }

  lemma {:induction false} RunKeepsInv(n: nat, run: seq<Event>)
    requires Legal(n, run)
    ensures Inv(Exec(n, run))
  {
    if run != [] {
      var k := |run| - 1;
      RunKeepsInv(n, run[..k]);
      StepKeepsInv(Exec(n, run[..k]), run[k]);
    } else {
      CountBelow(Initial(n).tasks, 0);
    }
  }

  // ----- what Run promises -----

  /** The first task whose error reached the done channel's select. */
  function FirstReport(run: seq<Event>): Option<nat> {
    if run == [] then None
    else
      var e, before := run[|run| - 1], FirstReport(run[..|run| - 1]);
      if before.Some? then before else if e.Report? then Some(e.i) else None
  }

  /** What the goroutines hold is what their tasks returned. */
  ghost predicate FromTasks(s: State, run: seq<Event>) {
    && (forall i :: 0 <= i < |s.tasks| && (s.tasks[i].Passed? || s.tasks[i].Signalled?) ==> Finish(i, Success) in run)
    && (forall i :: 0 <= i < |s.tasks| && s.tasks[i].Failed? ==> Finish(i, TaskError(s.tasks[i].error)) in run)
    && (FirstReport(run).Some? <==> s.reports != [])
    && (s.reports != [] ==> Finish(FirstReport(run).value, TaskError(s.reports[0])) in run)
  }

  /** How the caller came to where it is. */
  ghost predicate CallerTold(s: State, run: seq<Event>) {
    && (s.cancelled <==> Cancel in run)
    && (ReturnNil in run <==> s.caller.Returned? && s.caller.verdict.Success?)
    && (CollectError in run <==> s.caller.Returned? && s.caller.verdict.TaskError?)
    && (CollectContext in run <==> s.caller.Returned? && s.caller.verdict.ContextError?)
  }

  lemma StepKeepsTold(s: State, run: seq<Event>, e: Event)
    requires FromTasks(s, run) && CallerTold(s, run) && Enabled(s, e)
    ensures FromTasks(Apply(s, e), run + [e]) && CallerTold(Apply(s, e), run + [e])
  {
    assert (run + [e])[..|run|] == run;
    assert forall x :: x in run + [e] <==> x in run || x == e;
  }

  lemma {:induction false} RunTells(n: nat, run: seq<Event>)
    requires Legal(n, run)
    ensures FromTasks(Exec(n, run), run) && CallerTold(Exec(n, run), run)
  {
    if run != [] {
      var k := |run| - 1;
      RunTells(n, run[..k]);
      StepKeepsTold(Exec(n, run[..k]), run[..k], run[k]);
      assert run == run[..k] + [run[k]];
    }
  }

  /** Run returns nil exactly when it has collected n signals, and then every task returned nil; an error it
      collects is what the first task to report had returned; a context error exactly when it saw the context
      cancelled, which it was. So without a cancellation and a failing task it returns nil. */
  lemma VerdictIsRight(n: nat, run: seq<Event>)
    requires Legal(n, run) && Exec(n, run).caller.Returned?
    ensures var verdict := Exec(n, run).caller.verdict;
            && (verdict == Success <==> ReturnNil in run)
            && (verdict.TaskError? <==> CollectError in run)
            && (verdict == ContextError <==> CollectContext in run)
            && (verdict == Success ==> forall i :: 0 <= i < n ==> Finish(i, Success) in run)
            && (verdict.TaskError? ==>
                  FirstReport(run).Some? && Finish(FirstReport(run).value, TaskError(verdict.error)) in run)
            && (verdict == ContextError ==> Cancel in run)
  {
    RunKeepsInv(n, run);
    RunTells(n, run);
  }

  /** Launching never waits for a permit, and a passed task never waits to give its permit back. */
  lemma PermitsNeverBlock(n: nat, run: seq<Event>)
    requires Legal(n, run)
    ensures var s := Exec(n, run);
            && (s.caller.Launching? ==> Enabled(s, Launch) || Enabled(s, LaunchedAll))
            && (forall i :: 0 <= i < n && s.tasks[i].Passed? ==> Enabled(s, Signal(i)))
  {
    var s := Exec(n, run);
    RunKeepsInv(n, run);
    forall i | 0 <= i < n && s.tasks[i].Passed?
      ensures Enabled(s, Signal(i))
    {
      CountBelow(s.tasks, Launched(s));
    }
  }

  predicate Ended(t: Task) { t.Signalled? || t.Reported? }

  /** Once all tasks' goroutines have ended, Run is not stuck: it can collect, fail or return. */
  lemma RunIsNotStuck(n: nat, run: seq<Event>)
    requires Legal(n, run) && Exec(n, run).caller.Collecting?
    requires forall i :: 0 <= i < n ==> Ended(Exec(n, run).tasks[i])
    ensures var s := Exec(n, run);
            Enabled(s, CollectToken) || Enabled(s, CollectError) || Enabled(s, ReturnNil)
  {
    var s := Exec(n, run);
    RunKeepsInv(n, run);
    CountBelow(s.tasks, n);
    if forall i :: 0 <= i < n ==> s.tasks[i].Signalled? {
      assert s.tokens == n - s.caller.got;
    } else {
      var i :| 0 <= i < n && !s.tasks[i].Signalled?;
      assert Ended(s.tasks[i]);
    }
  }

  // ----- termination -----

  function TaskWork(t: Task): nat {
    match t
    case Waiting => 3
    case Running => 2
    case Passed => 1
    case Failed(_) => 1
    case _ => 0
  }

  function TasksWork(tasks: seq<Task>): nat {
    if tasks == [] then 0 else TaskWork(tasks[0]) + TasksWork(tasks[1..])
  }

  function CallerWork(n: nat, c: Caller): int {
    match c
    case Launching(k) => n + 2
    case Collecting(got) => n - got + 1
    case Returned(_, _) => 0
  }

  lemma {:induction false} TasksWorkUpdate(tasks: seq<Task>, i: nat, t: Task)
    requires i < |tasks|
    ensures TasksWork(tasks[i := t]) == TasksWork(tasks) - TaskWork(tasks[i]) + TaskWork(t)
  {
    var tasks' := tasks[i := t];
    if i == 0 {
      assert tasks'[1..] == tasks[1..];
    } else {
      TasksWorkUpdate(tasks[1..], i - 1, t);
      assert tasks'[1..] == tasks[1..][i - 1 := t];
    }
  }

  lemma {:induction false} WaitingWork(n: nat)
    ensures TasksWork(seq(n, _ => Waiting)) == 3 * n
  {
    if n > 0 {
      assert seq(n, _ => Waiting)[1..] == seq(n - 1, _ => Waiting);
      WaitingWork(n - 1);
    }
  }

  function Steps(run: seq<Event>): nat {
    if run == [] then 0 else Steps(run[..|run| - 1]) + if run[|run| - 1].Cancel? then 0 else 1
  }

  /** Every schedule of n tasks takes at most 4n + 2 steps, cancellations aside. */
  lemma {:induction false} RunsAreBounded(n: nat, run: seq<Event>)
    requires Legal(n, run)
    ensures var s := Exec(n, run);
            && CallerWork(n, s.caller) >= 0
            && Steps(run) + TasksWork(s.tasks) + CallerWork(n, s.caller) <= 4 * n + 2
  {
    if run == [] {
      WaitingWork(n);
    } else {
      var k := |run| - 1;
      RunsAreBounded(n, run[..k]);
      var s, e := Exec(n, run[..k]), run[k];
      RunKeepsInv(n, run[..k]);
      match e
      case Launch => TasksWorkUpdate(s.tasks, s.caller.next, Running);
      case Finish(i, r) => TasksWorkUpdate(s.tasks, i, Apply(s, e).tasks[i]);
      case Signal(i) => TasksWorkUpdate(s.tasks, i, Signalled);
      case Report(i) => TasksWorkUpdate(s.tasks, i, Reported);
      case _ =>
    }
  }
}
