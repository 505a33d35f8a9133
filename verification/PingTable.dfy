/** The table of outstanding pings of a client connection, shared by any number of isValid calls. */
module PingTable {
  import opened Bytes

  type Key = nat

  /** The one-slot channel of one call: what is in the slot, and how often it was sent to and closed. */
  datatype Chan = Chan(slot: seq<Key>, sends: nat, closes: nat)

  /** A call that finds the table empty sends pings; any other relies on somebody else's. */
  datatype Role = Pinger | Follower

  const FRESH := Chan([], 0, 0)

  /** What an ack does to one registered channel: send, then close. */
  function Resolve(c: Chan, ackKey: Key): Chan { Chan(c.slot + [ackKey], c.sends + 1, c.closes + 1) }

  // ----- the locked sections -----

  /** The connection's fields guarded by its mutex; a channel is named by the key of its call. */
  datatype Table = Table(pending: set<Key>, chans: map<Key, Chan>, next: Key, closed: bool)

  function Registered(t: Table): Table {
    t.(pending := t.pending + {t.next}, chans := t.chans[t.next := FRESH], next := t.next + 1)
  }

  function Unregistered(t: Table, k: Key): Table { t.(pending := t.pending - {k}) }

  function Acked(t: Table, a: Key): Table {
    if t.closed then t
    else t.(pending := (set k | k in t.pending && k < a),
            chans := (map k | k in t.chans :: if k in t.pending && a <= k then Resolve(t.chans[k], a) else t.chans[k]))
  }

  /** Every registered channel is empty and open, so a send to it cannot block nor panic. */
  ghost predicate TableOk(t: Table) {
    && t.pending <= t.chans.Keys
    && (forall k :: k in t.chans ==> k < t.next)
    && (forall k :: k in t.pending ==> t.chans[k] == FRESH)
  }

  class ClientConn {
    var pingRequests: set<Key>
    var chans: map<Key, Chan>
    var nextRequest: Key
    var closed: bool

    ghost function View(): Table
      reads this
    {
      Table(pingRequests, chans, nextRequest, closed)
    }

    constructor ()
      ensures View() == Table({}, map[], 0, false) && TableOk(View())
    {
      pingRequests, chans, nextRequest, closed := {}, map[], 0, false;
    }

    /** The first locked section of isValid; a closed connection registers nothing. */
    method Register() returns (key: Option<Key>, role: Role)
      requires TableOk(View())
      modifies this
      ensures TableOk(View())
      ensures key == if old(closed) then None else Some(old(nextRequest))
      ensures View() == if key.None? then old(View()) else Registered(old(View()))
      ensures key.Some? ==> key.value !in old(chans) && (role.Pinger? <==> old(pingRequests) == {})
    {
      role := if |pingRequests| == 0 then Pinger else Follower;
      if closed { return None, role; }
      key := Some(nextRequest);
      nextRequest := nextRequest + 1;
      pingRequests := pingRequests + {key.value};
      chans := chans[key.value := FRESH];
    }

    method Unregister(key: Key)
      requires TableOk(View())
      modifies this
      ensures TableOk(View()) && View() == Unregistered(old(View()), key)
    {
      pingRequests := pingRequests - {key};
    }

    /** An ack answers exactly the registered keys from its own key upwards, in whatever order
        the map is ranged over, and touches no other channel. */
    method PutPingAck(ackKey: Key) returns (handled: bool)
      requires TableOk(View())
      modifies this
      ensures TableOk(View()) && View() == Acked(old(View()), ackKey)
      ensures handled == (!closed && old(pingRequests) != {})
    {
      if closed { return false; }
      if pingRequests == {} {
        assert chans == map k | k in chans :: chans[k];
        return false;
      }
      var todo := pingRequests;
      while todo != {}
        invariant todo <= pingRequests && pingRequests <= old(pingRequests)
        invariant nextRequest == old(nextRequest) && closed == old(closed)
        invariant chans.Keys == old(chans).Keys
        invariant forall k :: k in old(pingRequests) && k !in todo ==> (k in pingRequests <==> k < ackKey)
        invariant forall k :: k in chans ==>
                    chans[k] == if k in old(pingRequests) && k !in pingRequests then Resolve(old(chans)[k], ackKey)
                                else old(chans)[k]
        decreases |todo|
      {
        var reqKey :| reqKey in todo;
        todo := todo - {reqKey};
        if reqKey >= ackKey {
          var req := chans[reqKey];
          assert |req.slot| == 0 && req.closes == 0;
          chans := chans[reqKey := Chan(req.slot + [ackKey], req.sends + 1, req.closes)];
          pingRequests := pingRequests - {reqKey};
          chans := chans[reqKey := chans[reqKey].(closes := chans[reqKey].closes + 1)];
        }
      }
      handled := true;
    }
  }

  // ----- all calls together -----

  /** One isValid call after it registered. */
  datatype Phase = Waiting | Expired | Returned(valid: bool, ackKey: Key)

  datatype Call = Call(phase: Phase, role: Role, since: nat)  // `since`: acks seen before it registered

  datatype State = State(table: Table, calls: map<Key, Call>, acks: seq<Key>)

  /** Expire is the end of a call's wait without an answer, Forget its last locked section after that. */
  datatype Event = Begin | Ack(a: Key) | Receive(k: Key) | Expire(k: Key) | Forget(k: Key) | Shut

  function Initial(): State { State(Table({}, map[], 0, false), map[], []) }

  predicate Enabled(s: State, e: Event) {
    match e
    case Begin => true
    case Ack(_) => true
    case Receive(k) => k in s.calls && k in s.table.chans && s.calls[k].phase.Waiting?
                       && (s.table.chans[k].slot != [] || s.table.chans[k].closes > 0)
    case Expire(k) => k in s.calls && s.calls[k].phase.Waiting?
    case Forget(k) => k in s.calls && s.calls[k].phase.Expired?
    case Shut => true
  }

  function Apply(s: State, e: Event): State
    requires Enabled(s, e)
  {
    var t := s.table;
    match e
    case Begin =>
      if t.closed then s
      else s.(table := Registered(t),
              calls := s.calls[t.next := Call(Waiting, if t.pending == {} then Pinger else Follower, |s.acks|)])
    case Ack(a) => s.(table := Acked(t, a), acks := if t.closed then s.acks else s.acks + [a])
    case Receive(k) =>
      // a receive from a closed and drained channel yields zero, and still counts as an answer
      var a := if t.chans[k].slot == [] then 0 else t.chans[k].slot[0];
      s.(calls := s.calls[k := s.calls[k].(phase := Returned(true, a))],
         table := t.(chans := t.chans[k := t.chans[k].(slot := [])]))
    case Expire(k) => s.(calls := s.calls[k := s.calls[k].(phase := Expired)])
    case Forget(k) =>
      s.(table := Unregistered(t, k), calls := s.calls[k := s.calls[k].(phase := Returned(false, 0))])
    case Shut => s.(table := t.(closed := true))
  }

  predicate Legal(run: seq<Event>)
    decreases |run|, 0
  {
    run == [] || (var n := |run| - 1; Legal(run[..n]) && Enabled(Exec(run[..n]), run[n]))
  }

  function Exec(run: seq<Event>): State
    requires Legal(run)
    decreases |run|, 1
  {
    if run == [] then Initial() else Apply(Exec(run[..|run| - 1]), run[|run| - 1])
  }

  /** An ack with key `a`, at most `k`, arrived after the call `k` registered. */
  ghost predicate AckedSince(s: State, k: Key, a: Key)
    requires k in s.calls
  {
    a <= k && s.calls[k].since <= |s.acks| && a in s.acks[s.calls[k].since..]
  }

  ghost predicate CallOk(s: State, k: Key)
    requires k in s.calls && k in s.table.chans
  {
    var call, chan := s.calls[k], s.table.chans[k];
    && call.since <= |s.acks|
    && (k in s.table.pending ==> !call.phase.Returned?)
    && (k !in s.table.pending && call.phase.Waiting? ==>
          chan.closes == 1 && |chan.slot| == 1 && AckedSince(s, k, chan.slot[0]))
    && (call.phase.Returned? && call.phase.valid ==> AckedSince(s, k, call.phase.ackKey))
    && |chan.slot| <= chan.sends <= 1 && chan.closes == chan.sends
  }

  ghost predicate Inv(s: State) {
    && TableOk(s.table) && s.calls.Keys == s.table.chans.Keys
    && (forall k :: k in s.calls ==> CallOk(s, k))
  }

  lemma StepKeepsTable(s: State, e: Event)
    requires Inv(s) && Enabled(s, e)
    ensures TableOk(Apply(s, e).table) && Apply(s, e).calls.Keys == Apply(s, e).table.chans.Keys
  {
    if e.Receive? { assert CallOk(s, e.k); }
  }

  lemma StepKeepsCall(s: State, e: Event, k: Key)
    requires Inv(s) && Enabled(s, e) && k in s.calls
    ensures k in Apply(s, e).calls && k in Apply(s, e).table.chans && CallOk(Apply(s, e), k)
  {
    assert CallOk(s, k);
    var since := s.calls[k].since;
    if e.Ack? && !s.table.closed {
      assert (s.acks + [e.a])[since..] == s.acks[since..] + [e.a];
    }
  }

  lemma StepKeepsInv(s: State, e: Event)
    requires Inv(s) && Enabled(s, e)
    ensures Inv(Apply(s, e))
  {
    StepKeepsTable(s, e);
    forall k | k in Apply(s, e).calls
      ensures CallOk(Apply(s, e), k)
    {
      if k in s.calls { StepKeepsCall(s, e, k); }
    }
  }

  lemma {:induction false} RunKeepsInv(run: seq<Event>)
    requires Legal(run)
    ensures Inv(Exec(run))
  {
    if run != [] {
      var n := |run| - 1;
      RunKeepsInv(run[..n]);
      StepKeepsInv(Exec(run[..n]), run[n]);
    }
  }

  /** In every interleaving: keys are below the next one; a channel is sent to at most once and closed at most
      once; a registered one is still empty and open, so the send of an ack never blocks and its close never
      panics; and a call answers "valid" only after an ack that followed its registration with a key not
      above its own. */
  lemma PingTableIsSafe(run: seq<Event>)
    requires Legal(run)
    ensures var s := Exec(run);
            && (forall k :: k in s.table.chans ==>
                  k < s.table.next && s.table.chans[k].sends <= 1 && s.table.chans[k].closes <= 1)
            && (forall k :: k in s.table.pending ==> k in s.table.chans && s.table.chans[k] == FRESH)
            && (forall k :: k in s.calls && s.calls[k].phase.Returned? && s.calls[k].phase.valid ==>
                  AckedSince(s, k, s.calls[k].phase.ackKey))
  {
    RunKeepsInv(run);
    var s := Exec(run);
    forall k | k in s.calls
      ensures CallOk(s, k)
    {
    }
  }

  /** A waiting call that was not answered is still registered, so the next ack up to its key reaches it: its
      receive is enabled, and the call then answers "valid" with that ack, or with the one that came before. */
  lemma NextAckAnswers(run: seq<Event>, k: Key, a: Key)
    requires Legal(run) && k in Exec(run).calls && Exec(run).calls[k].phase.Waiting?
    requires !Exec(run).table.closed && a <= k
    ensures var s, s' := Exec(run), Apply(Exec(run), Ack(a));
            && Enabled(s', Receive(k)) && k in Apply(s', Receive(k)).calls && k in s.table.chans
            && var phase := Apply(s', Receive(k)).calls[k].phase;
               && phase.Returned? && phase.valid
               && (if k in s.table.pending then phase.ackKey == a else s.table.chans[k].slot == [phase.ackKey])
  {
    RunKeepsInv(run);
    assert CallOk(Exec(run), k);
  }

  // ----- what the calls answer, as the events tell it -----

  /** The calls that found the connection open. */
  function Begun(run: seq<Event>): nat {
    if run == [] then 0
    else
      var n := |run| - 1;
      Begun(run[..n]) + if run[n].Begin? && Shut !in run[..n] then 1 else 0
  }

  /** The first ack with a key not above `k` after call `k` began, on the open connection. */
  function FirstAnswer(run: seq<Event>, k: Key): Option<Key> {
    if run == [] then None
    else
      var before, e := run[..|run| - 1], run[|run| - 1];
      if FirstAnswer(before, k).Some? then FirstAnswer(before, k)
      else if e.Ack? && e.a <= k && k < Begun(before) && Shut !in before then Some(e.a)
      else None
  }

  /** That ack is what reaches the call. */
  ghost predicate ReachedBy(s: State, first: Option<Key>, k: Key)
    requires k in s.calls && k in s.table.chans
  {
    && (k in s.table.pending ==> first.None?)
    && (k !in s.table.pending && s.calls[k].phase.Waiting? ==>
          first.Some? && s.table.chans[k].slot == [first.value])
    && (s.calls[k].phase.Returned? && s.calls[k].phase.valid ==> first == Some(s.calls[k].phase.ackKey))
  }

  lemma StepReaches(s: State, run: seq<Event>, e: Event, k: Key)
    requires Inv(s) && Enabled(s, e) && Counted(s, run) && k in s.calls && ReachedBy(s, FirstAnswer(run, k), k)
    ensures var s' := Apply(s, e);
            k in s'.calls && k in s'.table.chans && ReachedBy(s', FirstAnswer(run + [e], k), k)
  {
    assert (run + [e])[..|run|] == run;
    assert CallOk(s, k);
  }

  lemma {:induction false} RunReaches(run: seq<Event>)
    requires Legal(run)
    ensures Exec(run).calls.Keys == Exec(run).table.chans.Keys
    ensures forall k :: k in Exec(run).calls ==> ReachedBy(Exec(run), FirstAnswer(run, k), k)
  {
    RunKeepsInv(run);
    if run != [] {
      var n := |run| - 1;
      var s, e, before := Exec(run[..n]), run[n], run[..n];
      RunReaches(before);
      RunAsTold(before);
      RunKeepsInv(before);
      assert run == before + [e];
      forall k | k in Exec(run).calls ensures ReachedBy(Exec(run), FirstAnswer(run, k), k) {
        if k in s.calls {
          StepReaches(s, before, e, k);
        } else {
          NoAnswerYet(before, k);
        }
      }
    }
  }

  lemma {:induction false} NoAnswerYet(run: seq<Event>, k: Key)
    requires k >= Begun(run)
    ensures FirstAnswer(run, k).None?
  {
    if run != [] { NoAnswerYet(run[..|run| - 1], k); }
  }

  /** How far a call has come. */
  ghost predicate AsTold(s: State, run: seq<Event>, k: Key)
    requires k in s.calls
  {
    var phase := s.calls[k].phase;
    && (phase.Returned? && phase.valid <==> Receive(k) in run)
    && (phase.Returned? && !phase.valid <==> Expire(k) in run && Forget(k) in run)
    && (phase.Expired? <==> Expire(k) in run && Forget(k) !in run)
    && (Forget(k) in run ==> Expire(k) in run)
  }

  lemma StepAsTold(s: State, run: seq<Event>, e: Event, k: Key)
    requires Enabled(s, e) && k in s.calls && AsTold(s, run, k) && (e.Begin? ==> k < s.table.next)
    ensures k in Apply(s, e).calls && AsTold(Apply(s, e), run + [e], k)
  {
    assert forall x :: x in run + [e] <==> x in run || x == e;
  }

  /** No event is about a call that has not begun. */
  ghost predicate NotYet(run: seq<Event>, k: Key) { Receive(k) !in run && Expire(k) !in run && Forget(k) !in run }

  /** Which calls there are. */
  ghost predicate Counted(s: State, run: seq<Event>) {
    && (s.table.closed <==> Shut in run) && s.table.next == Begun(run)
    && (forall k: Key :: k in s.calls <==> k < s.table.next)
    && (forall k: Key :: k >= s.table.next ==> NotYet(run, k))
  }

  lemma StepCounts(s: State, run: seq<Event>, e: Event)
    requires Enabled(s, e) && Counted(s, run)
    ensures Counted(Apply(s, e), run + [e])
  {
    assert forall x :: x in run + [e] <==> x in run || x == e;
    assert (run + [e])[..|run|] == run;
    forall k: Key | k >= Apply(s, e).table.next ensures NotYet(run + [e], k) {
      assert NotYet(run, k);
    }
  }

  lemma {:induction false} RunAsTold(run: seq<Event>)
    requires Legal(run)
    ensures Counted(Exec(run), run)
    ensures forall k :: k in Exec(run).calls ==> AsTold(Exec(run), run, k)
  {
    if run != [] {
      var n := |run| - 1;
      var s, e, before := Exec(run[..n]), run[n], run[..n];
      RunAsTold(before);
      assert run == before + [e];
      StepCounts(s, before, e);
      forall k | k in Exec(run).calls ensures AsTold(Exec(run), run, k) {
        if k in s.calls {
          StepAsTold(s, before, e, k);
        } else {
          assert NotYet(before, k);
        }
      }
    }
  }

  /** What the call that event `e` ends answers. */
  function AnswerAt(s: State, e: Event): Option<bool>
    requires Enabled(s, e)
  {
    match e
    case Begin => if s.table.closed then Some(false) else None
    case Receive(k) => Some(Apply(s, e).calls[k].phase.valid)
    case Forget(k) => Some(Apply(s, e).calls[k].phase.valid)
    case _ => None
  }

  /** Over every run: a call has returned "valid" exactly if its wait ended by a receive, and "invalid" exactly
      if its wait expired and it was taken out of the table; what a valid call received is the first ack after its
      registration with a key not above its own; a call answers "valid" exactly at its receive, and
      "invalid" exactly there, or at once on a connection that was shut. */
  lemma AnswersExactly(run: seq<Event>, k: Key)
    requires Legal(run) && k in Exec(run).calls
    ensures var phase := Exec(run).calls[k].phase;
            && (phase.Returned? && phase.valid <==> Receive(k) in run)
            && (phase.Returned? && !phase.valid <==> Expire(k) in run && Forget(k) in run)
            && (phase.Expired? <==> Expire(k) in run && Forget(k) !in run)
            && (phase.Waiting? <==> Receive(k) !in run && Expire(k) !in run)
    ensures forall e :: Enabled(Exec(run), e) ==>
              && (AnswerAt(Exec(run), e) == Some(true) <==> e.Receive?)
              && (AnswerAt(Exec(run), e) == Some(false) <==> e.Forget? || (e.Begin? && Shut in run))
    ensures var phase := Exec(run).calls[k].phase;
            phase.Returned? && phase.valid ==> FirstAnswer(run, k) == Some(phase.ackKey)
    ensures k < Begun(run)
  {
    RunReaches(run);
    assert ReachedBy(Exec(run), FirstAnswer(run, k), k);
    RunAsTold(run);
    assert AsTold(Exec(run), run, k);
  }

  // ----- who sends the pings -----

  /** The call waits and no ack has reached it. */
  ghost predicate Awaits(s: State, k: Key) { k in s.table.pending && k in s.calls && s.calls[k].phase.Waiting? }

  ghost predicate SomeoneAwaits(s: State) { exists k :: Awaits(s, k) }

  /** The call is inside its loop of sending pings. */
  ghost predicate Pings(s: State, k: Key) { Awaits(s, k) && s.calls[k].role.Pinger? }

  ghost predicate SomeonePings(s: State) { exists k :: Pings(s, k) }

  /** If calls wait for an ack, one of them is sending pings. */
  ghost predicate Led(s: State) { SomeoneAwaits(s) ==> SomeonePings(s) }

  /** A pinging call is the oldest one registered, so no ack answers it before the others. */
  ghost predicate PingerIsOldest(s: State) { forall k, j :: Pings(s, k) && j in s.table.pending ==> k <= j }

  /** The steps that leave calls waiting with nobody pinging: the pinging call's wait ends while others
      wait, or a call joins a table that is not empty but has no pinging call. */
  ghost predicate Abandons(s: State, e: Event) {
    || (e.Expire? && Pings(s, e.k) && exists j :: j != e.k && Awaits(s, j))
    || (e.Begin? && !s.table.closed && s.table.pending != {} && !SomeonePings(s))
  }

  lemma StepKeepsOldest(s: State, e: Event)
    requires Inv(s) && Enabled(s, e) && PingerIsOldest(s)
    ensures PingerIsOldest(Apply(s, e))
  {
    var s' := Apply(s, e);
    forall k, j | Pings(s', k) && j in s'.table.pending
      ensures k <= j
    {
      if k in s.calls { assert Pings(s, k); }
    }
  }

  /** A step begins or ends what it says, and nothing else. */
  lemma StepOnWaiting(s: State, e: Event)
    requires Inv(s) && Enabled(s, e)
    ensures var s' := Apply(s, e);
            forall k :: Awaits(s', k) <==>
              || (Awaits(s, k) && !(e == Expire(k)) && !(e.Ack? && !s.table.closed && e.a <= k))
              || (e.Begin? && !s.table.closed && k == s.table.next)
  {
  }

  lemma ExpireOnLed(s: State, e: Event)
    requires Inv(s) && Enabled(s, e) && Led(s) && PingerIsOldest(s) && e.Expire?
    ensures Led(Apply(s, e)) <==> !Abandons(s, e)
  {
    var s' := Apply(s, e);
    StepOnWaiting(s, e);
    if Pings(s, e.k) {
      assert forall k :: Pings(s', k) ==> Pings(s, k);
      if j :| j != e.k && Awaits(s, j) {
        assert Awaits(s', j);
      }
    } else if SomeonePings(s) {
      var k :| Pings(s, k);
      assert Pings(s', k);
    }
  }

  lemma BeginOnLed(s: State)
    requires Inv(s) && Led(s)
    ensures Led(Apply(s, Begin)) <==> !Abandons(s, Begin)
  {
    var s' := Apply(s, Begin);
    if !s.table.closed {
      var n := s.table.next;
      assert Awaits(s', n);
      if s.table.pending == {} {
        assert Pings(s', n);
      } else if SomeonePings(s) {
        var k :| Pings(s, k);
        assert Pings(s', k);
      } else {
        assert forall k :: Pings(s', k) ==> k == n || Pings(s, k);
      }
    }
  }

  lemma AckOnLed(s: State, a: Key)
    requires Inv(s) && Led(s) && PingerIsOldest(s)
    ensures Led(Apply(s, Ack(a)))
  {
    var s' := Apply(s, Ack(a));
    StepOnWaiting(s, Ack(a));
    if j :| Awaits(s', j) {
      assert Awaits(s, j);
      var k :| Pings(s, k);
      assert Pings(s', k);
    }
  }

  lemma StepOnLed(s: State, e: Event)
    requires Inv(s) && Enabled(s, e) && Led(s) && PingerIsOldest(s)
    ensures Led(Apply(s, e)) <==> !Abandons(s, e)
  {
    match e
    case Begin => BeginOnLed(s);
    case Ack(a) => AckOnLed(s, a);
    case Expire(_) => ExpireOnLed(s, e);
    case _ =>
      var s' := Apply(s, e);
      StepOnWaiting(s, e);
      if j :| Awaits(s', j) {
        assert Awaits(s, j);
        var k :| Pings(s, k);
        assert Pings(s', k);
      }
  }

  /** Calls that were left alone stay so until none of them waits any more. */
  lemma StepOnAbandoned(s: State, e: Event)
    requires Inv(s) && Enabled(s, e) && !Led(s)
    ensures Led(Apply(s, e)) <==> !SomeoneAwaits(Apply(s, e))
    ensures Abandons(s, e) ==> SomeoneAwaits(Apply(s, e))
  {
    var s' := Apply(s, e);
    StepOnWaiting(s, e);
    assert forall k :: Pings(s', k) && k in s.calls ==> Pings(s, k);
    if Abandons(s, e) { assert e.Begin? && Awaits(s', s.table.next); }
  }

  lemma {:induction false} RunKeepsOldest(run: seq<Event>)
    requires Legal(run)
    ensures PingerIsOldest(Exec(run))
  {
    if run != [] {
      var n := |run| - 1;
      RunKeepsOldest(run[..n]);
      RunKeepsInv(run[..n]);
      StepKeepsOldest(Exec(run[..n]), run[n]);
    }
  }

  /** Some step of the run abandoned calls, and from then on some call waited after every step. */
  ghost predicate LeftAlone(run: seq<Event>)
    requires Legal(run)
  {
    run != [] &&
    (var n := |run| - 1;
     var before := Exec(run[..n]);
     Abandons(before, run[n]) || (LeftAlone(run[..n]) && SomeoneAwaits(Exec(run))))
  }

  /** Over whole runs: calls wait with nobody pinging if and only if the pinging call's wait ended, or a call
      joined a table without a pinging call, and since then somebody has been waiting all the time. */
  lemma {:induction false} UnledExactlyWhenLeftAlone(run: seq<Event>)
    requires Legal(run)
    ensures !Led(Exec(run)) <==> LeftAlone(run)
  {
    if run != [] {
      var n := |run| - 1;
      UnledExactlyWhenLeftAlone(run[..n]);
      RunKeepsInv(run[..n]);
      RunKeepsOldest(run[..n]);
      if Led(Exec(run[..n])) {
        StepOnLed(Exec(run[..n]), run[n]);
      } else {
        StepOnAbandoned(Exec(run[..n]), run[n]);
      }
    }
  }

  ghost predicate Leads(run: seq<Event>, s: State) { Legal(run) && Exec(run) == s }

  lemma Then(run: seq<Event>, s: State, e: Event)
    requires Leads(run, s) && Enabled(s, e)
    ensures Leads(run + [e], Apply(s, e))
  {
    assert (run + [e])[..|run|] == run;
  }

  /** When the pinging call gives up, every later call that comes before it is out of the table waits although
      nobody sends pings. */
  lemma LateCallWaitsAlone() returns (run: seq<Event>)
    ensures run == [Begin] + [Expire(0)] + [Begin] && Legal(run)
    ensures Awaits(Exec(run), 1) && !SomeonePings(Exec(run))
  {
    Then([], Initial(), Begin);
    assert [] + [Begin] == [Begin];
    var s1 := Apply(Initial(), Begin);
    Then([Begin], s1, Expire(0));
    var s2 := Apply(s1, Expire(0));
    Then([Begin] + [Expire(0)], s2, Begin);
    run := [Begin] + [Expire(0)] + [Begin];
    var s3 := Apply(s2, Begin);
    assert s3.calls == map[0 := Call(Expired, Pinger, 0), 1 := Call(Waiting, Follower, 0)];
  }

  /** Two calls, of which the pinging one gives up and leaves. */
  lemma PingerLeaves() returns (run: seq<Event>, s: State)
    ensures run == [Begin] + [Begin] + [Expire(0)] + [Forget(0)] && Leads(run, s)
    ensures s.table.pending == {1} && s.table.next == 2 && !s.table.closed
    ensures s.calls == map[0 := Call(Returned(false, 0), Pinger, 0), 1 := Call(Waiting, Follower, 0)]
  {
    Then([], Initial(), Begin);
    assert [] + [Begin] == [Begin];
    var s1 := Apply(Initial(), Begin);
    Then([Begin], s1, Begin);
    var s2 := Apply(s1, Begin);
    Then([Begin] + [Begin], s2, Expire(0));
    var s3 := Apply(s2, Expire(0));
    Then([Begin] + [Begin] + [Expire(0)], s3, Forget(0));
    run, s := [Begin] + [Begin] + [Expire(0)] + [Forget(0)], Apply(s3, Forget(0));
  }

  /** And the calls that joined it stay registered after it is out of the table, so all calls after them are
      followers too. */
  lemma FollowersMayBeLeftAlone() returns (run: seq<Event>)
    ensures run == [Begin] + [Begin] + [Expire(0)] + [Forget(0)] + [Begin] && Legal(run)
    ensures Awaits(Exec(run), 1) && Awaits(Exec(run), 2) && !SomeonePings(Exec(run))
  {
    var before, s := PingerLeaves();
    Then(before, s, Begin);
    run := before + [Begin];
  }
}
