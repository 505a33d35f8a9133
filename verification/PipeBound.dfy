/** Exactly when the pipe never holds more than its limit plus the largest write. */
module PipeBound {
  import opened Bytes
  import opened PipeProtocol
  import opened PipeSafety

  ghost predicate WritesWithin(run: seq<Event>, max: nat) {
    forall i :: 0 <= i < |run| && run[i].StartWrite? ==> |Flatten(run[i].mb)| <= max
  }

  /** `run` is a run with writes of at most `max` bytes; it ends in `s`, where goroutine 0 may write. */
  ghost predicate Leads(cfg: Config, n: nat, max: nat, run: seq<Event>, s: State) {
    && Legal(cfg, Initial(n), run) && Exec(cfg, Initial(n), run) == s && WritesWithin(run, max)
    && |s.threads| == n > 0 && s.threads[0].Idle? && s.sh.status == Open
  }

  lemma Follow(cfg: Config, n: nat, run: seq<Event>, a: Event, b: Event, c: Event)
    requires Legal(cfg, Initial(n), run)
    requires var s := Exec(cfg, Initial(n), run);
             Enabled(cfg, s, a) && Enabled(cfg, Apply(cfg, s, a), b) && Enabled(cfg, Apply(cfg, Apply(cfg, s, a), b), c)
    ensures Legal(cfg, Initial(n), run + [a] + [b] + [c])
    ensures Exec(cfg, Initial(n), run + [a] + [b] + [c]) ==
              Apply(cfg, Apply(cfg, Apply(cfg, Exec(cfg, Initial(n), run), a), b), c)
  {
    Extend(cfg, Initial(n), run, a);
    Extend(cfg, Initial(n), run + [a], b);
    Extend(cfg, Initial(n), run + [a] + [b], c);
  }

  /** A write that finds the pipe not full adds its bytes. */
  lemma WriteMore(cfg: Config, n: nat, max: nat, run: seq<Event>, s: State, m: nat)
    returns (run': seq<Event>, s': State)
    requires Leads(cfg, n, max, run, s) && 0 < m <= max && !IsFull(cfg, Int32(|Content(s.sh.data)|))
    ensures Leads(cfg, n, max, run', s') && |Content(s'.sh.data)| == |Content(s.sh.data)| + m
  {
    var c: Chunk := seq(m, _ => 7);
    FlattenSingle(c);
    assert [c][0] == c && !IsEmpty([c]);
    Follow(cfg, n, run, StartWrite(0, [c]), TryWrite(0), Signal(0));
    run' := run + [StartWrite(0, [c])] + [TryWrite(0)] + [Signal(0)];
    s' := Exec(cfg, Initial(n), run');
    if s.sh.data.Some? { FlattenAppend(s.sh.data.value, [c]); }
  }

  /** Any content up to the limit can be reached. */
  lemma {:induction false} FillTo(cfg: Config, n: nat, max: nat, c: nat) returns (run: seq<Event>, s: State)
    requires n > 0 && max > 0 && c <= cfg.limit < 0x8000_0000
    ensures Leads(cfg, n, max, run, s) && |Content(s.sh.data)| == c
  {
    if c == 0 {
      run, s := [], Initial(n);
    } else {
      var m := if c < max then c else max;
      run, s := FillTo(cfg, n, max, c - m);
      run, s := WriteMore(cfg, n, max, run, s, m);
    }
  }

  ghost predicate Within(cfg: Config, n: nat, max: nat, run: seq<Event>)
    requires Legal(cfg, Initial(n), run)
  {
    |Content(Exec(cfg, Initial(n), run).sh.data)| <= cfg.limit + max
  }

  /** In every run with writes of at most `max` bytes. */
  ghost predicate StaysWithin(cfg: Config, n: nat, max: nat) {
    forall run :: Legal(cfg, Initial(n), run) && WritesWithin(run, max) ==> Within(cfg, n, max, run)
  }

  /** Otherwise a write can leave exactly 2^31 bytes, which the test takes for a negative size. */
  lemma BoundBreaks(cfg: Config, n: nat, max: nat) returns (run: seq<Event>)
    requires n > 0 && 0 <= cfg.limit < 0x8000_0000 <= cfg.limit + max
    ensures Legal(cfg, Initial(n), run) && WritesWithin(run, max) && !Within(cfg, n, max, run)
  {
    var c := if max >= 0x8000_0000 then 0 else 0x8000_0000 - max;
    var s;
    run, s := FillTo(cfg, n, max, c);
    run, s := WriteMore(cfg, n, max, run, s, 0x8000_0000 - c);
    Int32Exact(0x8000_0000);
    run, s := WriteMore(cfg, n, max, run, s, max);
  }

  /** The bound holds in every run if and only if limit and largest write together stay below 2^31. */
  lemma MemoryBoundExactly(cfg: Config, n: nat, max: nat)
    requires 0 <= cfg.limit < 0x8000_0000
    ensures StaysWithin(cfg, n, max) <==> n == 0 || cfg.limit + max < 0x8000_0000
  {
    if cfg.limit + max < 0x8000_0000 {
      forall run | Legal(cfg, Initial(n), run) && WritesWithin(run, max) ensures Within(cfg, n, max, run) {
        PipeMemoryBound(cfg, n, run, max);
      }
    } else if n > 0 {
      var run := BoundBreaks(cfg, n, max);
    } else {
      forall run | Legal(cfg, Initial(n), run) && WritesWithin(run, max) ensures Within(cfg, n, max, run) {
        NobodyMoves(cfg, run);
      }
    }
  }

  lemma NobodyMoves(cfg: Config, run: seq<Event>)
    requires Legal(cfg, Initial(0), run)
    ensures run == []
  {
  }
}
