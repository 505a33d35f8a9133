/**
The blocking pipe as a step system: one step per locked section, separate steps for
"signal" and "wait", any number of concurrent readers and writers.
*/
module PipeProtocol {
  import opened Bytes

  datatype Status = Open | Closed | Errored

  datatype Failure = BufferFull | SlowDown | EndOfFile | ClosedPipe | ReadTimeout | Injected(code: int)

  /** Options of one pipe; a negative limit means no limit. */
  datatype Config = Config(limit: int, discardOverflow: bool)

  /** Everything the threads share. `data` is None for a nil MultiBuffer. */
  datatype Shared = Shared(
    data: Option<seq<Chunk>>,
    status: Status,
    readToken: bool,
    writeToken: bool,
    done: bool,
    pendingError: Option<int>)

  predicate IsEmpty(mb: seq<Chunk>) {
    forall i :: 0 <= i < |mb| ==> mb[i] == []
  }

  function Content(data: Option<seq<Chunk>>): Chunk {
    if data.Some? then Flatten(data.value) else []
  }

  predicate IsFull(cfg: Config, curSize: int) {
    cfg.limit >= 0 && curSize > cfg.limit
  }

  // ----- the locked sections, as functions on the shared state -----

  function GetState(cfg: Config, sh: Shared, forRead: bool): Option<Failure> {
    match sh.status
    case Open =>
      if !forRead && IsFull(cfg, Int32(|Content(sh.data)|)) then Some(BufferFull) else None
    case Closed =>
      if !forRead then Some(ClosedPipe)
      else if sh.data.Some? && !IsEmpty(sh.data.value) then None
      else Some(EndOfFile)
    case Errored => Some(ClosedPipe)
  }

  datatype ReadOutcome = Data(chunks: seq<Chunk>) | Nothing | Failed(failure: Failure)

  function ReadSection(cfg: Config, sh: Shared): (Shared, ReadOutcome) {
    var st := GetState(cfg, sh, true);
    if st.Some? then (sh, Failed(st.value))
    else if sh.data.Some? then (sh.(data := None), Data(sh.data.value))
    else (sh, Nothing)
  }

  function WriteSection(cfg: Config, sh: Shared, mb: seq<Chunk>): (Shared, Option<Failure>) {
    var st := GetState(cfg, sh, false);
    if st.Some? then (sh, st)
    else if sh.data.None? then (sh.(data := Some(mb)), None)
    else (sh.(data := Some(sh.data.value + mb)), Some(SlowDown))
  }

  function CloseSection(sh: Shared): Shared {
    if sh.status != Open then sh else sh.(status := Closed, done := true)
  }

  function InterruptSection(sh: Shared): Shared {
    if sh.status != Open then sh
    else sh.(status := Errored,
             data := if sh.data.Some? && !IsEmpty(sh.data.value) then None else sh.data,
             done := true)
  }

  // ----- threads -----

  /** Where a goroutine stands inside the call it is making. */
  datatype Thread =
    | Idle
    | ReadTry(timed: bool)
    | ReadSignal(outcome: ReadOutcome)
    | ReadWait(timed: bool)
    | WriteTry(mb: seq<Chunk>)
    | WriteSignal(result: Option<Failure>)
    | WriteWait(mb: seq<Chunk>)
    | Inject(code: int)

  /** What the calls did so far, recorded beside the protocol and never read by it. */
  datatype History = History(
    accepted: Chunk,      // bytes of the writes the pipe took, in the order it took them
    lastAccepted: Chunk,  // bytes of the most recent of them
    delivered: Chunk,     // bytes the read sections removed, in the order they removed them
    returned: Chunk,      // bytes the finished read calls returned to their callers
    sawEof: bool)         // some read section answered "end of file"

  datatype State = State(sh: Shared, threads: seq<Thread>, hist: History)

  /** What the scheduler may do next. */
  datatype Event =
    | StartRead(t: nat, timed: bool)
    | StartWrite(t: nat, mb: seq<Chunk>)
    | StartInject(t: nat, code: int)
    | TryRead(t: nat)
    | TryWrite(t: nat)
    | Signal(t: nat)
    | WakeByToken(t: nat)
    | WakeByDone(t: nat)
    | TakeError(t: nat)
    | Expire(t: nat)
    | PutError(t: nat)
    | Recover(t: nat)
    | Close(t: nat)
    | Interrupt(t: nat)

  predicate Enabled(cfg: Config, s: State, e: Event) {
    && e.t < |s.threads|
    && var th := s.threads[e.t];
       match e
       case StartRead(_, _) => th.Idle?
       case StartWrite(_, _) => th.Idle?
       case StartInject(_, _) => th.Idle?
       case TryRead(_) => th.ReadTry?
       case TryWrite(_) => th.WriteTry?
       case Signal(_) => th.ReadSignal? || th.WriteSignal?
       case WakeByToken(_) => (th.ReadWait? && s.sh.readToken) || (th.WriteWait? && s.sh.writeToken)
       case WakeByDone(_) => (th.ReadWait? || th.WriteWait?) && s.sh.done
       case TakeError(_) => th.ReadWait? && !th.timed && s.sh.pendingError.Some?
       case Expire(_) => th.ReadWait? && th.timed
       case PutError(_) => th.Inject? && s.sh.pendingError.None?
       case Recover(_) => th.Idle?
       case Close(_) => th.Idle?
       case Interrupt(_) => th.Idle?
  }

  function AfterTryRead(cfg: Config, s: State, t: nat): State
    requires Enabled(cfg, s, TryRead(t))
  {
    var (sh, outcome) := ReadSection(cfg, s.sh);
    var next := if outcome.Nothing? then ReadWait(s.threads[t].timed) else ReadSignal(outcome);
    State(sh, s.threads[t := next],
          if outcome.Data? then s.hist.(delivered := s.hist.delivered + Flatten(outcome.chunks))
          else s.hist.(sawEof := s.hist.sawEof || outcome == Failed(EndOfFile)))
  }

  function AfterTryWrite(cfg: Config, s: State, t: nat): State
    requires Enabled(cfg, s, TryWrite(t))
  {
    var mb := s.threads[t].mb;
    var (sh, err) := WriteSection(cfg, s.sh, mb);
    if err == None || err == Some(SlowDown) then
      State(sh, s.threads[t := WriteSignal(None)],
            s.hist.(accepted := s.hist.accepted + Flatten(mb), lastAccepted := Flatten(mb)))
    else if err == Some(BufferFull) && cfg.discardOverflow then
      State(sh, s.threads[t := Idle], s.hist)
    else if err != Some(BufferFull) then
      State(sh, s.threads[t := WriteSignal(err)], s.hist)
    else
      State(sh, s.threads[t := WriteWait(mb)], s.hist)
  }

  /** The bytes a read call at `th` holds and has not returned yet. */
  function InFlight(th: Thread): Chunk {
    if th.ReadSignal? && th.outcome.Data? then Flatten(th.outcome.chunks) else []
  }

  function Apply(cfg: Config, s: State, e: Event): (s': State)
    requires Enabled(cfg, s, e)
    ensures |s'.threads| == |s.threads|
  {
    var th := s.threads[e.t];
    match e
    case StartRead(t, timed) => s.(threads := s.threads[t := ReadTry(timed)])
    case StartWrite(t, mb) => if IsEmpty(mb) then s else s.(threads := s.threads[t := WriteTry(mb)])
    case StartInject(t, code) => s.(threads := s.threads[t := Inject(code)])
    case TryRead(t) => AfterTryRead(cfg, s, t)
    case TryWrite(t) => AfterTryWrite(cfg, s, t)
    case Signal(t) =>
      State(if th.ReadSignal? then s.sh.(writeToken := true) else s.sh.(readToken := true),
            s.threads[t := Idle],
            s.hist.(returned := s.hist.returned + InFlight(th)))
    case WakeByToken(t) =>
      if th.ReadWait? then
        s.(sh := s.sh.(readToken := false), threads := s.threads[t := ReadTry(th.timed)])
      else
        s.(sh := s.sh.(writeToken := false), threads := s.threads[t := WriteTry(th.mb)])
    case WakeByDone(t) =>
      s.(threads := s.threads[t := if th.ReadWait? then ReadTry(th.timed) else Idle])
    case TakeError(t) => s.(sh := s.sh.(pendingError := None), threads := s.threads[t := Idle])
    case Expire(t) => s.(threads := s.threads[t := Idle])
    case PutError(t) => s.(sh := s.sh.(pendingError := Some(th.code)), threads := s.threads[t := Idle])
    case Recover(_) => s.(sh := s.sh.(pendingError := None))
    case Close(_) => s.(sh := CloseSection(s.sh))
    case Interrupt(_) => s.(sh := InterruptSection(s.sh))
  }

  // ----- runs -----

  function Initial(threads: nat): State {
    State(Shared(None, Open, false, false, false, None), seq(threads, _ => Idle),
          History([], [], [], [], false))
  }

  /** A run is a list of events, each enabled where it happens. */
  predicate Legal(cfg: Config, s: State, run: seq<Event>)
    decreases |run|, 0
  {
    run == [] ||
    (var n := |run| - 1;
     Legal(cfg, s, run[..n]) && Enabled(cfg, Exec(cfg, s, run[..n]), run[n]))
  }

  function Exec(cfg: Config, s: State, run: seq<Event>): (s': State)
    requires Legal(cfg, s, run)
    ensures |s'.threads| == |s.threads|
    decreases |run|, 1
  {
    if run == [] then s
    else Apply(cfg, Exec(cfg, s, run[..|run| - 1]), run[|run| - 1])
  }

  /** One more enabled event extends a run. */
  lemma Extend(cfg: Config, s: State, run: seq<Event>, e: Event)
    requires Legal(cfg, s, run) && Enabled(cfg, Exec(cfg, s, run), e)
    ensures Legal(cfg, s, run + [e])
    ensures Exec(cfg, s, run + [e]) == Apply(cfg, Exec(cfg, s, run), e)
  {
    assert (run + [e])[..|run|] == run;
  }
}
