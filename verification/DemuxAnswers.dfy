/** What a stream ends up with and what its caller is told, over every run, read off the events alone. */
module DemuxAnswers {
  import opened Bytes
  import opened Frames
  import opened Demux
  import opened DemuxSafety

  // ----- what the events say -----

  /** The stream is in the map: stored, and nothing has taken it out or overwritten it since. */
  predicate InMap(run: seq<Event>, n: nat) {
    run != [] &&
    (var last := run[|run| - 1];
     last == Store(n) || (!Unmaps(last, n) && InMap(run[..|run| - 1], n)))
  }

  /** The last status, message and encoding a list of headers names, if it names one. */
  function LastStatus(hs: seq<HeaderField>): Option<int> {
    if hs == [] then None
    else
      var h := hs[|hs| - 1];
      if h.GrpcStatus? && h.code.Some? then h.code else LastStatus(hs[..|hs| - 1])
  }

  function LastMessage(hs: seq<HeaderField>): Option<string> {
    if hs == [] then None
    else
      var h := hs[|hs| - 1];
      if h.GrpcMessage? then Some(h.text) else LastMessage(hs[..|hs| - 1])
  }

  function LastEncoding(hs: seq<HeaderField>): Option<string> {
    if hs == [] then None
    else
      var h := hs[|hs| - 1];
      if h.GrpcEncoding? then Some(h.name) else LastEncoding(hs[..|hs| - 1])
  }

  function Or<T>(o: Option<T>, t: T): T { if o.Some? then o.value else t }

  datatype Told = Told(status: int, message: string, encoding: string)

  /** What a list of headers makes of what was told before. */
  function Named(hs: seq<HeaderField>, t: Told): Told {
    Told(Or(LastStatus(hs), t.status), Or(LastMessage(hs), t.message), Or(LastEncoding(hs), t.encoding))
  }

  /** What the frames tell a stream: the decoded headers and the resets that arrive while it is in the map, and
      the GOAWAY frames that visit it; a payload too short to hold its error code tells nothing. */
  function OwnTold(run: seq<Event>, n: nat): Told {
    if run == [] then Told(-1, "", "")
    else
      var before, last := run[..|run| - 1], run[|run| - 1];
      var t := OwnTold(before, n);
      if last.Arrive? && InMap(before, n) && last.frame.streamId == IdOf(n) then
        if last.frame.kind == HEADERS && last.headers.Some? then Named(last.headers.value, t)
        else if last.frame.kind == RST_STREAM && |last.frame.payload| >= 4 then
          Told(Number(last.frame.payload[..4]), "Stream reset by server", t.encoding)
        else t
      else if last == Visit(n) then
        var arrival := LastArrival(before);
        if arrival.Some? && arrival.value.Arrive? && |arrival.value.frame.payload| >= 8 then
          Told(Number(arrival.value.frame.payload[4..8]), "stream go away", t.encoding)
        else t
      else t
  }

  /** The bytes of the DATA frames that arrive while the stream is in the map. */
  function OwnBytes(run: seq<Event>, n: nat): seq<byte> {
    if run == [] then []
    else
      var before, last := run[..|run| - 1], run[|run| - 1];
      OwnBytes(before, n) + (if InMap(before, n) && IsDataOf(last, n) then last.frame.payload else [])
  }

  // ----- headers -----

  function ToldBy(s: Stream): Told { Told(s.status, s.message, s.encoding) }

  lemma {:induction false} LastFromFront(h: HeaderField, hs: seq<HeaderField>)
    ensures forall t :: Named([h] + hs, t) == Named(hs, Named([h], t))
  {
    if hs != [] {
      var n := |hs| - 1;
      var all := [h] + hs;
      LastFromFront(h, hs[..n]);
      assert all[|all| - 1] == hs[n] && all[..|all| - 1] == [h] + hs[..n];
      forall t ensures Named(all, t) == Named(hs, Named([h], t)) {
        assert Named([h] + hs[..n], t) == Named(hs[..n], Named([h], t));
      }
    } else {
      assert [h] + hs == [h];
    }
  }

  lemma OneHeader(s: Stream, h: HeaderField)
    ensures ToldBy(Affect(s, HeaderEffect(h))) == Named([h], ToldBy(s))
  {
    var one := [h];
    assert one[|one| - 1] == h && one[..|one| - 1] == [];
    assert LastStatus([]) == None && LastMessage([]) == None && LastEncoding([]) == None;
    assert LastStatus(one) == if h.GrpcStatus? && h.code.Some? then h.code else None;
    assert LastMessage(one) == if h.GrpcMessage? then Some(h.text) else None;
    assert LastEncoding(one) == if h.GrpcEncoding? then Some(h.name) else None;
  }

  /** The handler's loop over the headers leaves the last of each kind. */
  lemma {:induction false} HeadersTell(s: Stream, hs: seq<HeaderField>)
    ensures ToldBy(AffectAll(s, HeaderEffects(hs))) == Named(hs, ToldBy(s))
    decreases |hs|
  {
    if hs != [] {
      var all, s1 := HeaderEffects(hs), Affect(s, HeaderEffect(hs[0]));
      assert all[0] == HeaderEffect(hs[0]) && all[1..] == HeaderEffects(hs[1..]);
      HeadersTell(s1, hs[1..]);
      OneHeader(s, hs[0]);
      LastFromFront(hs[0], hs[1..]);
      assert hs == [hs[0]] + hs[1..];
    }
  }

  lemma OverwriteTells(s: Stream, code: int, text: string)
    ensures ToldBy(AffectAll(s, [SetStatus(code), SetMessage(text)])) == Told(code, text, s.encoding)
  {
    var todo := [SetStatus(code), SetMessage(text)];
    assert todo[1..] == [SetMessage(text)] && todo[1..][1..] == [];
    assert AffectAll(s, todo) == AffectAll(Affect(s, SetStatus(code)), [SetMessage(text)]);
  }

  // ----- steps -----

  /** What one event means for what a stream is told. */
  ghost predicate Tells(c: Client, e: Event, n: nat, t: Told)
    requires Enabled(c, e) && n in c.streams
  {
    n in Apply(c, e).streams && ToldBy(Landed(Apply(c, e), n)) == t
  }

  lemma FrameTells(c: Client, e: Event, n: nat)
    requires MapOk(c) && Enabled(c, e) && n in c.streams && e.Arrive? && Mapped(c, n) && e.frame.streamId == IdOf(n)
    ensures var t := ToldBy(Landed(c, n));
            Tells(c, e, n,
                  if e.frame.kind == HEADERS && e.headers.Some? then Named(e.headers.value, t)
                  else if e.frame.kind == RST_STREAM && |e.frame.payload| >= 4 then
                    Told(Number(e.frame.payload[..4]), "Stream reset by server", t.encoding)
                  else t)
  {
    var s, f := c.streams[n], e.frame;
    if f.kind == HEADERS && e.headers.Some? {
      HeadersTell(s, e.headers.value);
      HeadersNeverCrash(e.headers.value);
    } else if f.kind == RST_STREAM && |f.payload| >= 4 {
      NumberOfFour(f.payload[..4]);
      OverwriteTells(s, Get32(f.payload), "Stream reset by server");
    } else if f.kind == DATA {
      var todo := [Append(f.payload)];
      assert todo[1..] == [] && AffectAll(s, todo) == Affect(s, todo[0]);
    }
  }

  lemma OtherFrameTells(c: Client, e: Event, n: nat)
    requires MapOk(c) && Enabled(c, e) && n in c.streams && e.Arrive?
    requires !(Mapped(c, n) && e.frame.streamId == IdOf(n))
    ensures Tells(c, e, n, ToldBy(Landed(c, n)))
  {
  }

  lemma VisitTells(c: Client, n: nat, payload: seq<byte>)
    requires Enabled(c, Visit(n)) && n in c.streams && payload == c.reader.sweep.frame.payload
    ensures var t := ToldBy(Landed(c, n));
            Tells(c, Visit(n), n,
                  if |payload| >= 8 then Told(Number(payload[4..8]), "stream go away", t.encoding) else t)
  {
    if |payload| >= 8 {
      NumberOfFour(payload[4..8]);
      OverwriteTells(c.streams[n], Get32(payload[4..8]), "stream go away");
    }
  }

  lemma QuietTells(c: Client, e: Event, n: nat)
    requires MapOk(c) && ReaderOk(c) && Enabled(c, e) && n in c.streams && !e.Arrive? && e != Visit(n)
    ensures Tells(c, e, n, ToldBy(Landed(c, n)))
  {
    if e == Write(n) { WriteLands(c, n); }
  }

  // ----- runs -----

  /** The stream of a stored call is as the events say; a call not stored yet has been told nothing. */
  ghost predicate AsTold(c: Client, run: seq<Event>, n: nat) {
    && (n in c.streams <==> Store(n) in run)
    && (Mapped(c, n) <==> InMap(run, n))
    && (n !in c.streams ==> OwnBytes(run, n) == [] && OwnTold(run, n) == Told(-1, "", ""))
    && (n in c.streams ==> Flowing(c, n) == OwnBytes(run, n) && ToldBy(Landed(c, n)) == OwnTold(run, n))
  }

  lemma StoreAsTold(c: Client, run: seq<Event>, n: nat)
    requires Inv(c) && Enabled(c, Store(n)) && AsTold(c, run, n)
    ensures AsTold(Apply(c, Store(n)), run + [Store(n)], n)
  {
    assert (run + [Store(n)])[..|run|] == run;
    var c' := Apply(c, Store(n));
    assert n !in c.streams && !Held(c'.reader, n);
    assert c'.streams[n] == Stream([], -1, "", "", 0);
  }

  lemma StaysUnstored(c: Client, e: Event, n: nat)
    requires MapOk(c) && ReaderOk(c) && Enabled(c, e) && n !in c.streams && e != Store(n)
    ensures n !in Apply(c, e).streams && !Mapped(c, n) && !Mapped(Apply(c, e), n) && e != Visit(n)
  {
    StepKeepsMap(c, e);
  }

  lemma UnstoredAsTold(c: Client, run: seq<Event>, e: Event, n: nat)
    requires Inv(c) && Enabled(c, e) && AsTold(c, run, n) && n !in c.streams && e != Store(n)
    ensures AsTold(Apply(c, e), run + [e], n)
  {
    assert (run + [e])[..|run|] == run;
    StaysUnstored(c, e, n);
  }

  lemma StepAsTold(c: Client, run: seq<Event>, e: Event, n: nat)
    requires Inv(c) && Enabled(c, e) && AsTold(c, run, n) && Foretold(c, run) && n in c.streams && e != Store(n)
    ensures AsTold(Apply(c, e), run + [e], n)
  {
    assert (run + [e])[..|run|] == run;
    StepOnStream(c, e, n);
    if e.Arrive? && Mapped(c, n) && e.frame.streamId == IdOf(n) {
      FrameTells(c, e, n);
    } else if e.Arrive? {
      OtherFrameTells(c, e, n);
    } else if e == Visit(n) {
      VisitTells(c, n, c.reader.sweep.frame.payload);
    } else {
      QuietTells(c, e, n);
    }
  }

  lemma {:induction false} RunAsTold(run: seq<Event>, n: nat)
    requires Legal(Initial(), run)
    ensures AsTold(Exec(Initial(), run), run, n)
  {
    if run != [] {
      var before, last := run[..|run| - 1], run[|run| - 1];
      var c := Exec(Initial(), before);
      RunAsTold(before, n);
      RunKeepsInv(Initial(), before);
      RunForetold(before);
      assert run == before + [last];
      if last == Store(n) {
        StoreAsTold(c, before, n);
      } else if n in c.streams {
        StepAsTold(c, before, last, n);
      } else {
        UnstoredAsTold(c, before, last, n);
      }
    }
  }

  /** Over every run: once a stored stream is not in the reader's hand, its payload is the concatenation of the
      DATA frames that arrived while it was in the map, and its status, message and encoding are those named last
      by such headers, such a reset or a GOAWAY that visited it, or the initial ones. The same holds at any moment
      with what the reader still has in hand. */
  lemma StreamIsAsTold(run: seq<Event>, n: nat)
    requires Legal(Initial(), run) && Store(n) in run
    ensures var c := Exec(Initial(), run);
            && n in c.streams && (Mapped(c, n) <==> InMap(run, n))
            && Flowing(c, n) == OwnBytes(run, n) && ToldBy(Landed(c, n)) == OwnTold(run, n)
            && (!Held(c.reader, n) ==>
                  c.streams[n].payload == OwnBytes(run, n)
                  && Told(c.streams[n].status, c.streams[n].message, c.streams[n].encoding) == OwnTold(run, n))
  {
    RunAsTold(run, n);
  }

  // ----- the caller -----

  datatype CallResult = GrpcError(status: int, message: string) | Reply(bytes: seq<byte>) | Undecodable | Panicked

  /** What Call makes of its stream once the done channel is closed; every compressed message is refused, but
      only after its bytes were sliced. */
  function Finished(s: Stream, spare: seq<byte>): CallResult {
    if s.status != 0 then GrpcError(s.status, s.message)
    else if |s.payload| < 5 then Undecodable
    else
      var bound := (5 + Get32(s.payload[1..5])) % 0x1_0000_0000;
      if bound < 5 || bound > |s.payload| + |spare| then Panicked
      else if s.payload[0] != 0 then Undecodable
      else Reply((s.payload + spare)[5..bound])
  }

  /** The same, read off the bytes: the prefix announces the length in network order. */
  lemma FinishedExactly(s: Stream, spare: seq<byte>)
    ensures s.status != 0 ==> Finished(s, spare) == GrpcError(s.status, s.message)
    ensures s.status == 0 && |s.payload| < 5 ==> Finished(s, spare) == Undecodable
    ensures s.status == 0 && |s.payload| >= 5 ==>
              var all, end := s.payload + spare, 5 + Number(s.payload[1..5]);
              && (Finished(s, spare) == Panicked <==> end >= 0x1_0000_0000 || end > |all|)
              && (Finished(s, spare) == Undecodable <==> Finished(s, spare) != Panicked && s.payload[0] != 0)
              && (end < 0x1_0000_0000 && end <= |all| && s.payload[0] == 0 ==> Finished(s, spare) == Reply(all[5..end]))
  {
    if |s.payload| >= 5 {
      NumberOfFour(s.payload[1..5]);
      Put32OfGet32(s.payload[1..5]);
      BoundWraps(Get32(s.payload[1..5]));
    }
  }

  lemma FinishedInverts(s: Stream, m: seq<byte>, spare: seq<byte>)
    requires s.status == 0 && s.payload == EncodeGrpc(m) && |m| + 5 < 0x1_0000_0000
    ensures Finished(s, spare) == Reply(m)
  {
    GrpcLayout(m);
    FinishedWhole(s, m, spare);
  }

  lemma FinishedWhole(s: Stream, m: seq<byte>, spare: seq<byte>)
    requires s.status == 0 && |s.payload| == 5 + |m| < 0x1_0000_0000 && s.payload[5..] == m
    requires s.payload[0] == 0 && Number(s.payload[1..5]) == |m|
    ensures Finished(s, spare) == Reply(m)
  {
    FinishedExactly(s, spare);
    assert (s.payload + spare)[5..5 + |m|] == m;
  }

  /** What a call should answer that was told `told` and got `bytes`. */
  ghost predicate AnswersTo(answer: CallResult, told: Told, bytes: seq<byte>) {
    && (answer.GrpcError? <==> told.status != 0)
    && (answer.GrpcError? ==> answer == GrpcError(told.status, told.message))
    && (forall m :: told.status == 0 && bytes == EncodeGrpc(m) && |m| + 5 < 0x1_0000_0000 ==> answer == Reply(m))
  }

  lemma FinishedAnswers(s: Stream, spare: seq<byte>)
    ensures AnswersTo(Finished(s, spare), ToldBy(s), s.payload)
  {
    forall m | s.status == 0 && s.payload == EncodeGrpc(m) && |m| + 5 < 0x1_0000_0000
      ensures Finished(s, spare) == Reply(m)
    {
      FinishedInverts(s, m, spare);
    }
  }

  /** What a call answers, whenever it looks after its done channel was closed, in every run: the error told
      last if its code is not zero, and in particular if none was ever told; otherwise the message its DATA
      frames carry. */
  lemma CallAnswers(run: seq<Event>, rest: seq<Event>, n: nat, spare: seq<byte>)
    requires Legal(Initial(), run) && Store(n) in run && Legal(Exec(Initial(), run), rest)
    requires n in Exec(Initial(), run).streams && Exec(Initial(), run).streams[n].doneCloses == 1
    ensures n in Exec(Exec(Initial(), run), rest).streams
    ensures var s := Exec(Exec(Initial(), run), rest).streams[n];
            AnswersTo(Finished(s, spare), OwnTold(run, n), OwnBytes(run, n))
  {
    var c := Exec(Initial(), run);
    RunKeepsInv(Initial(), run);
    assert DoneOk(c, n);
    StreamIsAsTold(run, n);
    ClosedStreamIsFrozen(c, rest, n);
    FinishedAnswers(c.streams[n], spare);
  }
}
