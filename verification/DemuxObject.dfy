/** The client as the object its handlers update, each handler run without a caller coming in between. */
module DemuxObject {
  import opened Bytes
  import opened Frames
  import opened Demux
  import opened DemuxSafety
  import opened DemuxAnswers

  /** The run is one frame's: it begins with its arrival, has only steps of the reader, and ends with the
      reader waiting for the next frame, or in a panic. */
  ghost predicate Handles(c: Client, run: seq<Event>, arrival: Event, c': Client) {
    && Legal(c, run) && Exec(c, run) == c' && [arrival] <= run
    && (forall i :: 0 <= i < |run| ==> ByReader(run[i]))
    && (c'.panicked || c'.reader == Free(NoSweep))
  }

  /** The same, while the handler is still at work. */
  ghost predicate Handling(c: Client, run: seq<Event>, arrival: Event, m: Client) {
    && Legal(c, run) && Exec(c, run) == m && [arrival] <= run
    && forall i :: 0 <= i < |run| ==> ByReader(run[i])
  }

  lemma Arrives(c: Client, arrival: Event)
    requires arrival.Arrive? && Enabled(c, arrival)
    ensures Handling(c, [arrival], arrival, Apply(c, arrival))
  {
    var run := [arrival];
    assert run[..0] == [];
    assert Exec(c, run[..0]) == c;
    assert Legal(c, run);
  }

  lemma GoesOn(c: Client, run: seq<Event>, arrival: Event, m: Client, e: Event)
    requires Handling(c, run, arrival, m) && Enabled(m, e) && ByReader(e)
    ensures Handling(c, run + [e], arrival, Apply(m, e))
  {
    Extend(c, run, e);
  }

  /** The streams once the done channel of one of them is closed. */
  function Closed(streams: map<nat, Stream>, n: nat): map<nat, Stream>
    requires n in streams
  {
    streams[n := streams[n].(doneCloses := streams[n].doneCloses + 1)]
  }

  /** The streams once one of them was told something, got more bytes and perhaps ended. */
  function Updated(streams: map<nat, Stream>, n: nat, t: Told, more: seq<byte>, ends: bool): map<nat, Stream>
    requires n in streams
  {
    var s := streams[n];
    streams[n := Stream(s.payload + more, t.status, t.message, t.encoding, s.doneCloses + if ends then 1 else 0)]
  }

  /** The accesses that are left before and after one header was looked at. */
  lemma NextHeader(s: Stream, hs: seq<HeaderField>, i: nat)
    requires i < |hs|
    ensures var todo, rest := HeaderEffects(hs[i..]), HeaderEffects(hs[i + 1..]);
            && todo != [] && todo[0] == HeaderEffect(hs[i]) && todo[1..] == rest && !todo[0].Crash?
            && AffectAll(s, todo) == AffectAll(Affect(s, todo[0]), rest)
  {
    assert hs[i..][0] == hs[i] && hs[i..][1..] == hs[i + 1..];
    var todo := HeaderEffects(hs[i..]);
    assert todo[0] == HeaderEffect(hs[i]) && todo[1..] == HeaderEffects(hs[i + 1..]);
  }

  lemma HeadersLeave(s: Stream, hs: seq<HeaderField>)
    ensures var s', t := AffectAll(s, HeaderEffects(hs)), Named(hs, ToldBy(s));
            s' == Stream(s.payload + [], t.status, t.message, t.encoding, s.doneCloses)
  {
    HeadersTell(s, hs);
    AffectKeepsCloses(s, HeaderEffects(hs));
    HeadersKeepPayload(s, hs);
  }

  lemma {:induction false} HeadersKeepPayload(s: Stream, hs: seq<HeaderField>)
    ensures AffectAll(s, HeaderEffects(hs)).payload == s.payload
    decreases |hs|
  {
    if hs != [] {
      var all := HeaderEffects(hs);
      assert all[0] == HeaderEffect(hs[0]) && all[1..] == HeaderEffects(hs[1..]);
      HeadersKeepPayload(Affect(s, all[0]), hs[1..]);
    }
  }

  /** A stream once a GOAWAY frame has visited it. */
  function GoneAway(s: Stream, f: Frame): Stream {
    if |f.payload| < 8 then s
    else Stream(s.payload, Number(f.payload[4..8]), "stream go away", s.encoding, s.doneCloses + 1)
  }

  /** The visited streams are gone away, and the others as they were. */
  ghost predicate Dismissed(before: map<nat, Stream>, after: map<nat, Stream>, visited: set<nat>, f: Frame) {
    && after.Keys == before.Keys
    && forall n :: n in before ==> after[n] == if n in visited then GoneAway(before[n], f) else before[n]
  }

  lemma OneMoreDismissed(before: map<nat, Stream>, now: map<nat, Stream>, visited: set<nat>, f: Frame, n: nat)
    requires Dismissed(before, now, visited, f) && n in now && n !in visited
    ensures Dismissed(before, now[n := GoneAway(now[n], f)], visited + {n}, f)
  {
  }

  /** What is left of the map during a Range: the entries it has not visited, which were there before. */
  ghost predicate Unvisited(mapped: map<nat, nat>, rest: map<nat, nat>, visited: set<nat>) {
    && mapped.Values == visited + rest.Values
    && forall id :: id in rest ==> id in mapped && rest[id] == mapped[id] && rest[id] !in visited
  }

  lemma RangeBegins(streams: map<nat, Stream>, mapped: map<nat, nat>, f: Frame)
    ensures Unvisited(mapped, mapped, {}) && Dismissed(streams, streams, {}, f)
  {
  }

  lemma NoneDismissed(before: map<nat, Stream>, after: map<nat, Stream>, f: Frame)
    requires Dismissed(before, after, {}, f)
    ensures after == before
  {
  }

  lemma AllVisited(mapped: map<nat, nat>, visited: set<nat>)
    requires Unvisited(mapped, map[], visited)
    ensures visited == mapped.Values
  {
  }

  lemma OneMoreVisited(mapped: map<nat, nat>, rest: map<nat, nat>, visited: set<nat>, id: nat)
    requires Unvisited(mapped, rest, visited) && id in rest
    requires forall k :: k in mapped ==> IdOf(mapped[k]) == k
    ensures Unvisited(mapped, rest - {id}, visited + {rest[id]}) && |rest - {id}| < |rest|
  {
    var less := rest - {id};
    forall v | v in rest.Values ensures v in {rest[id]} + less.Values {
      var k :| k in rest && rest[k] == v;
      if k != id { assert k in less && less[k] == v; }
    }
  }

  class GrpcClient {
    var calls: nat
    var pending: set<nat>
    var streams: map<nat, Stream>
    var mapped: map<nat, nat>
    var settingsAcked: bool
    var panicked: bool
    ghost var reader: Reader

    ghost function View(): Client
      reads this
    {
      Client(calls, pending, streams, mapped, reader, settingsAcked, panicked)
    }

    /** Between two frames. */
    ghost predicate Ready()
      reads this
    {
      MapOk(View()) && reader == Free(NoSweep) && !panicked
    }

    constructor ()
      ensures View() == Initial() && Ready()
    {
      calls, pending, streams, mapped, settingsAcked, panicked := 0, {}, map[], map[], false, false;
      reader := Free(NoSweep);
    }

    /** One access to the stream in hand. */
    method Access(n: nat, x: Effect)
      requires Enabled(View(), Write(n)) && reader.todo[0] == x
      modifies this`streams, this`panicked, this`reader
      ensures View() == Apply(old(View()), Write(n))
    {
      if x.Crash? {
        panicked := true;
        return;
      }
      var s := streams[n];
      match x {
        case Append(bytes) => s := s.(payload := s.payload + bytes);
        case SetStatus(code) => s := s.(status := code);
        case SetMessage(text) => s := s.(message := text);
        case SetEncoding(name) => s := s.(encoding := name);
        case _ =>
      }
      streams := streams[n := s];
      reader := Hold(n, reader.todo[1..], reader.ends, reader.sweep);
    }

    /** Delete from the map, then close the done channel. */
    method Complete(n: nat, ghost c: Client, ghost begun: seq<Event>, ghost arrival: Event)
      returns (ghost run: seq<Event>)
      requires Handling(c, begun, arrival, View()) && Enabled(View(), Unmap(n)) && n in streams
      modifies this`streams, this`mapped, this`reader
      ensures run == begun + [Unmap(n)] + [CloseDone(n)] && Handling(c, run, arrival, View())
      ensures reader == Free(old(reader).sweep) && mapped == old(mapped) - {IdOf(n)}
      ensures streams == Closed(old(streams), n)
    {
      GoesOn(c, begun, arrival, View(), Unmap(n));
      mapped := mapped - {IdOf(n)};
      reader := Closing(n, reader.sweep);
      GoesOn(c, begun + [Unmap(n)], arrival, View(), CloseDone(n));
      streams := streams[n := streams[n].(doneCloses := streams[n].doneCloses + 1)];
      reader := Free(reader.sweep);
      run := begun + [Unmap(n)] + [CloseDone(n)];
    }

    method OnData(f: Frame) returns (ghost run: seq<Event>)
      requires Ready() && f.kind == DATA
      modifies this
      ensures Handles(old(View()), run, Arrive(f, None, false), View())
      ensures f.streamId !in old(mapped) ==> streams == old(streams) && mapped == old(mapped)
      ensures f.streamId in old(mapped) ==>
                var n, ends := old(mapped)[f.streamId], f.flags % 2 == 1;
                && streams == Updated(old(streams), n, ToldBy(old(streams)[n]), f.payload, ends)
                && mapped == if ends then old(mapped) - {f.streamId} else old(mapped)
    {
      ghost var c, arrival := View(), Arrive(f, None, false);
      Arrives(c, arrival);
      run := [arrival];
      if f.streamId in mapped {
        var n := mapped[f.streamId];
        reader := Holding(n, [Append(f.payload)], HasLowFlag(f), NoSweep);
        GoesOn(c, run, arrival, View(), Write(n));
        Access(n, Append(f.payload));
        run := run + [Write(n)];
        if HasLowFlag(f) { run := Complete(n, c, run, arrival); }
      }
    }

    /** The frame is handed on only if HPACK could decode it; one header after the other is looked at. */
    method OnHeaders(f: Frame, headers: Option<seq<HeaderField>>) returns (ghost run: seq<Event>)
      requires Ready() && f.kind == HEADERS
      modifies this
      ensures Handles(old(View()), run, Arrive(f, headers, false), View())
      ensures f.streamId !in old(mapped) || headers.None? ==> streams == old(streams) && mapped == old(mapped)
      ensures f.streamId in old(mapped) && headers.Some? ==>
                var n, ends := old(mapped)[f.streamId], f.flags % 2 == 1;
                && streams == Updated(old(streams), n, Named(headers.value, ToldBy(old(streams)[n])), [], ends)
                && mapped == if ends then old(mapped) - {f.streamId} else old(mapped)
    {
      ghost var c, arrival := View(), Arrive(f, headers, false);
      Arrives(c, arrival);
      run := [arrival];
      if f.streamId in mapped && headers.Some? {
        var n := mapped[f.streamId];
        reader := Hold(n, HeaderEffects(headers.value), HasLowFlag(f), NoSweep);
        run := TakeHeaders(n, headers.value, HasLowFlag(f), c, run, arrival);
      }
    }

    method TakeHeaders(n: nat, hs: seq<HeaderField>, ends: bool,
                       ghost c: Client, ghost begun: seq<Event>, ghost arrival: Event)
      returns (ghost run: seq<Event>)
      requires Handling(c, begun, arrival, View()) && n in streams && !panicked
      requires reader == Hold(n, HeaderEffects(hs), ends, NoSweep)
      modifies this`streams, this`mapped, this`panicked, this`reader
      ensures Handling(c, run, arrival, View()) && reader == Free(NoSweep) && !panicked
      ensures streams == Updated(old(streams), n, Named(hs, ToldBy(old(streams)[n])), [], ends)
      ensures mapped == if ends then old(mapped) - {IdOf(n)} else old(mapped)
    {
      HeadersLeave(streams[n], hs);
      run := LookAt(n, hs, ends, c, begun, arrival);
      if ends { run := Complete(n, c, run, arrival); }
    }

    method LookAt(n: nat, hs: seq<HeaderField>, ends: bool,
                  ghost c: Client, ghost begun: seq<Event>, ghost arrival: Event)
      returns (ghost run: seq<Event>)
      requires Handling(c, begun, arrival, View()) && n in streams && !panicked
      requires reader == Hold(n, HeaderEffects(hs), ends, NoSweep)
      modifies this`streams, this`panicked, this`reader
      ensures Handling(c, run, arrival, View()) && reader == Hold(n, [], ends, NoSweep)
      ensures streams == old(streams)[n := AffectAll(old(streams)[n], HeaderEffects(hs))] && !panicked
    {
      run := begun;
      assert hs[0..] == hs;
      ghost var last := AffectAll(streams[n], HeaderEffects(hs));
      assert streams == streams[n := streams[n]];
      for i := 0 to |hs|
        invariant Handling(c, run, arrival, View()) && reader == Hold(n, HeaderEffects(hs[i..]), ends, NoSweep)
        invariant n in streams && streams == old(streams)[n := streams[n]] && !panicked
        invariant AffectAll(streams[n], HeaderEffects(hs[i..])) == last
      {
        NextHeader(streams[n], hs, i);
        GoesOn(c, run, arrival, View(), Write(n));
        Access(n, HeaderEffect(hs[i]));
        run := run + [Write(n)];
      }
    }

    /** Status, message, delete, close; slicing a payload of fewer than four bytes panics. */
    method OnReset(f: Frame) returns (ghost run: seq<Event>)
      requires Ready() && f.kind == RST_STREAM
      modifies this
      ensures Handles(old(View()), run, Arrive(f, None, false), View())
      ensures panicked <==> f.streamId in old(mapped) && |f.payload| < 4
      ensures f.streamId !in old(mapped) || panicked ==> streams == old(streams) && mapped == old(mapped)
      ensures f.streamId in old(mapped) && !panicked ==>
                var n := old(mapped)[f.streamId];
                var t := Told(Number(f.payload[..4]), "Stream reset by server", old(streams)[n].encoding);
                streams == Updated(old(streams), n, t, [], true) && mapped == old(mapped) - {f.streamId}
    {
      ghost var c, arrival := View(), Arrive(f, None, false);
      Arrives(c, arrival);
      run := [arrival];
      if f.streamId in mapped {
        var n := mapped[f.streamId];
        reader := Holding(n, ResetEffects(f), true, NoSweep);
        if |f.payload| >= 4 { NumberOfFour(f.payload[..4]); }
        run := Overwrite(n, |f.payload| < 4, if |f.payload| < 4 then 0 else Get32(f.payload), "Stream reset by server",
                         c, run, arrival);
      }
    }

    /** What a reset and a visit of GOAWAY do to the stream they hold. */
    method Overwrite(n: nat, crash: bool, code: int, text: string,
                     ghost c: Client, ghost begun: seq<Event>, ghost arrival: Event)
      returns (ghost run: seq<Event>)
      requires Handling(c, begun, arrival, View()) && n in streams && !panicked
      requires reader.Holding? && reader.n == n && reader.ends
      requires reader.todo == if crash then [Crash] else [SetStatus(code), SetMessage(text)]
      modifies this`streams, this`mapped, this`panicked, this`reader
      ensures Handling(c, run, arrival, View()) && panicked == crash
      ensures crash ==> streams == old(streams) && mapped == old(mapped)
      ensures !crash ==> reader == Free(old(reader).sweep) && mapped == old(mapped) - {IdOf(n)}
      ensures !crash ==> streams == Updated(old(streams), n, Told(code, text, old(streams)[n].encoding), [], true)
    {
      if crash {
        run := begun + [Write(n)];
        GoesOn(c, begun, arrival, View(), Write(n));
        Access(n, Crash);
      } else {
        assert streams[n].payload + [] == streams[n].payload;
        run := Say(n, code, text, c, begun, arrival);
        run := Complete(n, c, run, arrival);
      }
    }

    /** The status and the message, one access each. */
    method Say(n: nat, code: int, text: string, ghost c: Client, ghost begun: seq<Event>, ghost arrival: Event)
      returns (ghost run: seq<Event>)
      requires Handling(c, begun, arrival, View()) && n in streams && !panicked
      requires reader.Holding? && reader.n == n && reader.ends && reader.todo == [SetStatus(code), SetMessage(text)]
      modifies this`streams, this`panicked, this`reader
      ensures Handling(c, run, arrival, View()) && !panicked && reader == Holding(n, [], true, old(reader).sweep)
      ensures streams == old(streams)[n := old(streams)[n].(status := code, message := text)]
    {
      ghost var todo := reader.todo;
      assert todo[1..] == [SetMessage(text)] && todo[1..][1..] == [];
      GoesOn(c, begun, arrival, View(), Write(n));
      Access(n, SetStatus(code));
      run := begun + [Write(n)];
      GoesOn(c, run, arrival, View(), Write(n));
      Access(n, SetMessage(text));
      run := run + [Write(n)];
    }

    /** The settings are acknowledged to the peer, and then, if that could be written, to the constructor. */
    method OnSettings(f: Frame, ackWritten: bool) returns (ghost run: seq<Event>)
      requires Ready() && f.kind == SETTINGS
      modifies this
      ensures Handles(old(View()), run, Arrive(f, None, ackWritten), View())
      ensures panicked <==> !HasLowFlag(f) && ackWritten && old(settingsAcked)
    {
      Arrives(View(), Arrive(f, None, ackWritten));
      run := [Arrive(f, None, ackWritten)];
      if HasLowFlag(f) || !ackWritten { return; }
      if settingsAcked {
        panicked := true;
      } else {
        settingsAcked := true;
      }
    }

    /** One visit of the Range. */
    method Dismiss(f: Frame, n: nat, ghost c: Client, ghost begun: seq<Event>, ghost arrival: Event)
      returns (ghost run: seq<Event>)
      requires Handling(c, begun, arrival, View()) && !panicked && n in streams
      requires Enabled(View(), Visit(n)) && reader.sweep.frame == f
      modifies this`streams, this`mapped, this`panicked, this`reader
      ensures Handling(c, run, arrival, View()) && (panicked <==> |f.payload| < 8)
      ensures panicked ==> streams == old(streams) && mapped == old(mapped)
      ensures !panicked ==>
                var sweep := old(reader).sweep;
                && reader == Free(sweep.(visited := sweep.visited + {n})) && mapped == old(mapped) - {IdOf(n)}
                && streams == old(streams)[n := GoneAway(old(streams)[n], f)]
    {
      GoesOn(c, begun, arrival, View(), Visit(n));
      run := begun + [Visit(n)];
      reader := Holding(n, GoAwayEffects(f), true, reader.sweep.(visited := reader.sweep.visited + {n}));
      if |f.payload| >= 8 {
        NumberOfFour(f.payload[4..8]);
        assert streams[n].payload + [] == streams[n].payload;
      }
      run := Overwrite(n, |f.payload| < 8, if |f.payload| < 8 then 0 else Get32(f.payload[4..8]), "stream go away",
                       c, run, arrival);
    }

    /** Ranges over the map in any order and ends every stream it finds. */
    method OnGoAway(f: Frame) returns (ghost run: seq<Event>)
      requires Ready() && f.kind == GOAWAY
      modifies this
      ensures Handles(old(View()), run, Arrive(f, None, false), View())
      ensures panicked <==> old(mapped) != map[] && |f.payload| < 8
      ensures panicked ==> streams == old(streams)
      ensures !panicked ==> mapped == map[] && Dismissed(old(streams), streams, old(mapped).Values, f)
    {
      ghost var c, arrival := View(), Arrive(f, None, false);
      Arrives(c, arrival);
      reader := Free(Sweep(f, mapped.Values, mapped.Values, {}));
      RangeBegins(streams, mapped, f);
      run := RangeOver(f, c, [arrival], arrival);
      if panicked { return; }
      GoesOn(c, run, arrival, View(), EndSweep);
      run := run + [EndSweep];
      reader := Free(NoSweep);
    }

    method RangeOver(f: Frame, ghost c: Client, ghost begun: seq<Event>, ghost arrival: Event)
      returns (ghost run: seq<Event>)
      requires Handling(c, begun, arrival, View()) && Ranging(f, streams, mapped, {})
      modifies this`streams, this`mapped, this`panicked, this`reader
      ensures Handling(c, run, arrival, View())
      ensures panicked <==> old(mapped) != map[] && |f.payload| < 8
      ensures panicked ==> streams == old(streams)
      ensures !panicked ==> mapped == map[] && Dismissed(old(streams), streams, old(mapped).Values, f)
      ensures !panicked ==> reader.Free? && reader.sweep.Sweep?
    {
      run := begun;
      ghost var visited: set<nat> := {};
      while mapped != map[]
        invariant Handling(c, run, arrival, View()) && Ranging(f, old(streams), old(mapped), visited)
        invariant |f.payload| < 8 ==> visited == {}
        decreases |mapped|
      {
        var id :| id in mapped;
        ghost var n := mapped[id];
        run := VisitOne(f, id, c, run, arrival, old(streams), old(mapped), visited);
        if panicked {
          NoneDismissed(old(streams), streams, f);
          return;
        }
        visited := visited + {n};
      }
      AllVisited(old(mapped), visited);
    }

    /** Where a Range stands that began with `streams0` and `mapped0`. */
    ghost predicate Ranging(f: Frame, streams0: map<nat, Stream>, mapped0: map<nat, nat>, visited: set<nat>)
      reads this
    {
      && !panicked && reader == Free(Sweep(f, mapped0.Values, mapped0.Values, visited))
      && mapped0.Values <= streams0.Keys && (forall id :: id in mapped0 ==> IdOf(mapped0[id]) == id)
      && Unvisited(mapped0, mapped, visited) && Dismissed(streams0, streams, visited, f)
    }

    method VisitOne(f: Frame, id: nat, ghost c: Client, ghost begun: seq<Event>, ghost arrival: Event,
                    ghost streams0: map<nat, Stream>, ghost mapped0: map<nat, nat>, ghost visited: set<nat>)
      returns (ghost run: seq<Event>)
      requires Handling(c, begun, arrival, View()) && Ranging(f, streams0, mapped0, visited) && id in mapped
      modifies this`streams, this`mapped, this`panicked, this`reader
      ensures Handling(c, run, arrival, View()) && (panicked <==> |f.payload| < 8)
      ensures panicked ==> streams == old(streams)
      ensures !panicked ==> Ranging(f, streams0, mapped0, visited + {old(mapped)[id]}) && |mapped| < |old(mapped)|
    {
      OneMoreVisited(mapped0, mapped, visited, id);
      OneMoreDismissed(streams0, streams, visited, f, mapped[id]);
      run := Dismiss(f, mapped[id], c, begun, arrival);
    }
  }
}
