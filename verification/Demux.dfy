/**
The client side of one HTTP/2 connection: one goroutine reads frames and hands them to the streams of
concurrent calls. Every access to the shared map, to a stream's fields or to its done channel is a step
of its own, so a caller may come in between any two accesses of a frame handler.
*/
module Demux {
  import opened Bytes
  import opened Frames

  /** A decoded header the client looks at; HPACK itself is an input. A status that is no number is None. */
  datatype HeaderField = GrpcStatus(code: Option<int>) | GrpcMessage(text: string) | GrpcEncoding(name: string) | Other

  datatype Stream = Stream(payload: seq<byte>, status: int, message: string, encoding: string, doneCloses: nat)

  const NEW_STREAM := Stream([], -1, "", "", 0)

  /** One access of a handler to the stream it holds; Crash is the slicing of a payload that is too short. */
  datatype Effect =
    | Append(bytes: seq<byte>)
    | SetStatus(code: int)
    | SetMessage(text: string)
    | SetEncoding(name: string)
    | Skip
    | Crash

  function Affect(s: Stream, x: Effect): Stream {
    match x
    case Append(bytes) => s.(payload := s.payload + bytes)
    case SetStatus(code) => s.(status := code)
    case SetMessage(text) => s.(message := text)
    case SetEncoding(name) => s.(encoding := name)
    case Skip => s
    case Crash => s
  }

  /** A Range over the map on behalf of a GOAWAY frame: the calls mapped when it began, those mapped at any
      moment since, and those it visited. */
  datatype Sweep = NoSweep | Sweep(frame: Frame, start: set<nat>, seen: set<nat>, visited: set<nat>)

  /** Where the reading goroutine stands: between streams, at work on the stream of call `n` (and whether
      that stream ends with it), or about to close that stream's done channel. */
  datatype Reader =
    | Free(sweep: Sweep)
    | Holding(n: nat, todo: seq<Effect>, ends: bool, sweep: Sweep)
    | Closing(n: nat, sweep: Sweep)

  /** Streams are named by their call; `mapped` is the shared map from identifiers to streams. */
  datatype Client = Client(
    calls: nat, pending: set<nat>,
    streams: map<nat, Stream>, mapped: map<nat, nat>,
    reader: Reader,
    settingsAcked: bool, panicked: bool)

  datatype Event =
    | Arrive(frame: Frame, headers: Option<seq<HeaderField>>, ackWritten: bool)
    | Visit(n: nat)
    | EndSweep
    | Write(n: nat)
    | Unmap(n: nat)
    | CloseDone(n: nat)
    | Allocate
    | Store(n: nat)
    | Delete(n: nat)

  predicate ByReader(e: Event) { !e.Allocate? && !e.Store? && !e.Delete? }

  function Initial(): Client { Client(0, {}, map[], map[], Free(NoSweep), false, false) }

  /** Flag 0x1: END_STREAM on DATA and HEADERS, ACK on SETTINGS and PING. */
  predicate HasLowFlag(f: Frame) { f.flags % 2 == 1 }

  /** The n-th stream identifier: 1, 3, 5, ... in 32 bits. */
  function IdOf(n: nat): nat { (2 * n + 1) % 0x1_0000_0000 }

  predicate Mapped(c: Client, n: nat) { IdOf(n) in c.mapped && c.mapped[IdOf(n)] == n }

  // ----- what a frame does to the stream it finds -----

  function HeaderEffect(h: HeaderField): Effect {
    match h
    case GrpcStatus(code) => if code.Some? then SetStatus(code.value) else Skip
    case GrpcMessage(text) => SetMessage(text)
    case GrpcEncoding(name) => SetEncoding(name)
    case Other => Skip
  }

  function HeaderEffects(hs: seq<HeaderField>): seq<Effect> {
    if hs == [] then [] else [HeaderEffect(hs[0])] + HeaderEffects(hs[1..])
  }

  function ResetEffects(f: Frame): seq<Effect> {
    if |f.payload| < 4 then [Crash] else [SetStatus(Get32(f.payload)), SetMessage("Stream reset by server")]
  }

  function GoAwayEffects(f: Frame): seq<Effect> {
    if |f.payload| < 8 then [Crash] else [SetStatus(Get32(f.payload[4..8])), SetMessage("stream go away")]
  }

  /** The accesses a frame makes to its stream, and whether it then ends the stream. */
  function Work(f: Frame, headers: Option<seq<HeaderField>>): (seq<Effect>, bool) {
    if f.kind == DATA then ([Append(f.payload)], HasLowFlag(f))
    else if f.kind == HEADERS then
      if headers.None? then ([], false) else (HeaderEffects(headers.value), HasLowFlag(f))
    else if f.kind == RST_STREAM then (ResetEffects(f), true)
    else ([], false)
  }

  /** A handler with nothing left to do lets go of its stream. */
  function Hold(n: nat, todo: seq<Effect>, ends: bool, sweep: Sweep): Reader {
    if todo == [] && !ends then Free(sweep) else Holding(n, todo, ends, sweep)
  }

  // ----- steps -----

  predicate Enabled(c: Client, e: Event) {
    && !c.panicked
    && match e
       case Arrive(_, _, _) => c.reader == Free(NoSweep)
       case Visit(n) =>
         c.reader.Free? && c.reader.sweep.Sweep? && n in c.reader.sweep.seen && n !in c.reader.sweep.visited
       case EndSweep =>
         c.reader.Free? && c.reader.sweep.Sweep?
         && forall n :: n in c.reader.sweep.start && Mapped(c, n) ==> n in c.reader.sweep.visited
       case Write(n) => c.reader.Holding? && c.reader.n == n && c.reader.todo != [] && n in c.streams
       case Unmap(n) => c.reader.Holding? && c.reader.n == n && c.reader.todo == []
       case CloseDone(n) => c.reader.Closing? && c.reader.n == n && n in c.streams
       case Allocate => true
       case Store(n) => n in c.pending
       case Delete(n) => n in c.streams
  }

  function AfterArrive(c: Client, f: Frame, headers: Option<seq<HeaderField>>, ackWritten: bool): Client {
    if f.kind == SETTINGS then
      if HasLowFlag(f) || !ackWritten then c
      else if c.settingsAcked then c.(panicked := true)
      else c.(settingsAcked := true)
    else if f.kind == GOAWAY then c.(reader := Free(Sweep(f, c.mapped.Values, c.mapped.Values, {})))
    else if f.streamId !in c.mapped then c
    else
      var (todo, ends) := Work(f, headers);
      c.(reader := Hold(c.mapped[f.streamId], todo, ends, NoSweep))
  }

  function AfterWrite(c: Client, n: nat): Client
    requires Enabled(c, Write(n))
  {
    var r := c.reader;
    if r.todo[0].Crash? then c.(panicked := true)
    else c.(streams := c.streams[n := Affect(c.streams[n], r.todo[0])], reader := Hold(n, r.todo[1..], r.ends, r.sweep))
  }

  /** A Range that is under way may also come across a stream stored meanwhile. */
  function Noticing(r: Reader, n: nat): Reader {
    if r.sweep.NoSweep? then r else r.(sweep := r.sweep.(seen := r.sweep.seen + {n}))
  }

  function Apply(c: Client, e: Event): Client
    requires Enabled(c, e)
  {
    match e
    case Arrive(f, headers, ackWritten) => AfterArrive(c, f, headers, ackWritten)
    case Visit(n) =>
      var s := c.reader.sweep;
      c.(reader := Holding(n, GoAwayEffects(s.frame), true, s.(visited := s.visited + {n})))
    case EndSweep => c.(reader := Free(NoSweep))
    case Write(n) => AfterWrite(c, n)
    case Unmap(n) => c.(mapped := c.mapped - {IdOf(n)}, reader := Closing(n, c.reader.sweep))
    case CloseDone(n) =>
      c.(streams := c.streams[n := c.streams[n].(doneCloses := c.streams[n].doneCloses + 1)],
         reader := Free(c.reader.sweep))
    case Allocate => c.(calls := c.calls + 1, pending := c.pending + {c.calls})
    case Store(n) =>
      c.(pending := c.pending - {n}, streams := c.streams[n := NEW_STREAM], mapped := c.mapped[IdOf(n) := n],
         reader := Noticing(c.reader, n))
    case Delete(n) => c.(mapped := c.mapped - {IdOf(n)})
  }

  predicate Legal(c: Client, run: seq<Event>)
    decreases |run|, 0
  {
    run == [] ||
    (var n := |run| - 1; Legal(c, run[..n]) && Enabled(Exec(c, run[..n]), run[n]))
  }

  function Exec(c: Client, run: seq<Event>): Client
    requires Legal(c, run)
    decreases |run|, 1
  {
    if run == [] then c else Apply(Exec(c, run[..|run| - 1]), run[|run| - 1])
  }

  lemma Extend(c: Client, run: seq<Event>, e: Event)
    requires Legal(c, run) && Enabled(Exec(c, run), e)
    ensures Legal(c, run + [e]) && Exec(c, run + [e]) == Apply(Exec(c, run), e)
  {
    assert (run + [e])[..|run|] == run;
  }
}
