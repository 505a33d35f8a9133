/** Compact: merging neighbouring buffers, when it keeps every byte, and how far it packs them. */
module Compaction {
  import opened Bytes
  import opened Buffers
  import opened MultiBuffers
  import opened MultiBufferSplit

  // ----- by shape: what a caller can tell before the call -----

  /** Length of the content and free space behind it; None for a nil entry. */
  datatype Shape = Shape(len: nat, room: nat)

  datatype Verdict = Keeps | Loses | Panics

  function Worse(a: Verdict, b: Verdict): Verdict {
    if a.Panics? || b.Panics? then Panics else if a.Loses? || b.Loses? then Loses else Keeps
  }

  /** What compacting will do, from lengths and free space alone: it tests the sum of the lengths, not
      the free space, so a buffer whose front was consumed can be asked to take more than fits; the sum
      is a 32-bit one, so two long buffers can seem to fit together; and reading from an empty or nil
      buffer is an error it turns into a panic. */
  function Foresee(last: Option<Shape>, rest: seq<Option<Shape>>): Verdict
    decreases |rest|
  {
    if rest == [] then Keeps
    else
      var curr := rest[0];
      var l, c := if last.None? then 0 else last.value.len, if curr.None? then 0 else curr.value.len;
      if Int32(l + c) > SIZE then Foresee(curr, rest[1..])
      else if last.None? || curr.None? || c == 0 then Panics
      else
        var n := Min(last.value.room, c);
        var merged := Some(Shape(l + n, last.value.room - n));
        Worse(if n < c then Loses else Keeps, Foresee(merged, rest[1..]))
  }

  /** A regular buffer whose front was not consumed: length and free space make up SIZE. */
  predicate Regular(s: Option<Shape>) { s.Some? && s.value.len + s.value.room == SIZE }

  /** Regular buffers, none but the first empty, are always compacted without loss. */
  lemma {:induction false} RegularBuffersKeep(last: Option<Shape>, rest: seq<Option<Shape>>)
    requires Regular(last)
    requires forall i :: 0 <= i < |rest| ==> Regular(rest[i]) && rest[i].value.len > 0
    ensures Foresee(last, rest) == Keeps
    decreases |rest|
  {
    if rest != [] {
      var curr := rest[0];
      if last.value.len + curr.value.len > SIZE {
        RegularBuffersKeep(curr, rest[1..]);
      } else {
        var n := curr.value.len;
        RegularBuffersKeep(Some(Shape(last.value.len + n, last.value.room - n)), rest[1..]);
      }
    }
  }

  /** A full buffer of which all but one byte was read has no room, yet the next is poured into it. */
  lemma ConsumedFrontLosesBytes()
    ensures Foresee(Some(Shape(1, 0)), [Some(Shape(5, SIZE - 5))]) == Loses
  {
    assert [Some(Shape(5, SIZE - 5))][1..] == [];
  }

  /** Two full buffers of 2^30 bytes: their sum wraps to a negative number, so the second is "merged". */
  lemma LongBuffersLoseBytes()
    ensures Foresee(Some(Shape(0x4000_0000, 0)), [Some(Shape(0x4000_0000, 0))]) == Loses
  {
    Int32Exact(0x8000_0000);
    assert [Some(Shape(0x4000_0000, 0))][1..] == [];
  }

  ghost function ShapeOf(p: Pools, b: Buffer?): Option<Shape>
    reads p, p.repr
  {
    if b == null then None
    else if b !in p.repr || b.vlen < b.end then Some(Shape(0, 0))
    else Some(Shape(|b.content|, b.vlen - b.end))
  }

  ghost function RoomOf(p: Pools, b: Buffer): nat
    reads p, p.repr
  {
    if b !in p.repr || b.vlen < b.end then 0 else b.vlen - b.end
  }

  ghost function Shapes(p: Pools, mb: MultiBuffer): (ss: seq<Option<Shape>>)
    reads p, p.repr
    ensures |ss| == |mb|
  {
    seq(|mb|, i requires 0 <= i < |mb| reads p, p.repr => ShapeOf(p, mb[i]))
  }

  // ----- one merge -----

  /** last.ReadFrom(curr) and curr.Release(). */
  method Absorb(p: Pools, last: Buffer, curr: Buffer) returns (n: nat)
    requires p.Owned() && last in p.live && curr in p.live && last != curr
    modifies p, last, last.v, curr, curr.v
    ensures p.Owned() && OthersKept(p, [last, curr]) && last in p.live
    ensures last.v == old(last.v) && last.vlen == old(last.vlen)
    ensures n == Min(old(last.vlen - last.end), |old(curr.content)|) && last.end == old(last.end) + n
    ensures last.content == old(last.content) + old(curr.content)[..n]
  {
    var out := p.ReadOff(curr, last.vlen - last.end);
    n := p.WriteTo(last, out);
    assert n == |out| && out[..n] == out && old(curr.content)[..n] == out;
    p.Release(curr);
  }

  /** Absorb, as a list of other buffers sees it. */
  method AbsorbBeside(p: Pools, last: Buffer, curr: Buffer, ghost others: MultiBuffer) returns (n: nat)
    requires p.Owned() && last in p.live && curr in p.live && last != curr
    requires Held(p, others) && last !in others && curr !in others
    modifies p, last, last.v, curr, curr.v
    ensures p.Owned() && OthersKept(p, [last, curr]) && last in p.live && Held(p, others)
    ensures n == Min(old(RoomOf(p, last)), |old(ContentOf(p, curr))|) && RoomOf(p, last) == old(RoomOf(p, last)) - n
    ensures ContentOf(p, last) == old(ContentOf(p, last)) + old(ContentOf(p, curr))[..n]
    ensures Contents(p, others) == old(Contents(p, others)) && Shapes(p, others) == old(Shapes(p, others))
  {
    ghost var cs, ss := Contents(p, others), Shapes(p, others);
    n := Absorb(p, last, curr);
    assert Contents(p, others) == cs && Shapes(p, others) == ss;
  }

  lemma HeldApart(p: Pools, r: MultiBuffer, b: Buffer, c: Buffer, rest: MultiBuffer)
    requires Held(p, r + [b] + ([c] + rest))
    ensures Held(p, r + rest) && b in p.live && c in p.live && b != c && b !in r + rest && c !in r + rest
  {
    var all, others, k := r + [b] + ([c] + rest), r + rest, |r|;
    assert all[k] == b && all[k + 1] == c;
    ApartAt(all, k);
    ApartAt(all, k + 1);
    assert forall i :: 0 <= i < |others| ==> others[i] == all[if i < k then i else i + 2];
    forall i, j ensures Differ(others, i, j) {
      assert Differ(all, if i < k then i else i + 2, if j < k then j else j + 2);
    }
  }

  lemma HeldJoin(p: Pools, r: MultiBuffer, b: Buffer, rest: MultiBuffer)
    requires Held(p, r + rest) && b in p.live && b !in r + rest
    ensures Held(p, r + [b] + rest)
  {
    var all, others, k := r + [b] + rest, r + rest, |r|;
    assert all[k] == b;
    assert forall i :: 0 <= i < |all| && i != k ==> all[i] == others[if i < k then i else i - 1];
    forall i, j ensures Differ(all, i, j) {
      assert Differ(others, if i < k then i else i - 1, if j < k then j else j - 1);
    }
  }

  lemma ContentsJoin(p: Pools, r: MultiBuffer, b: Buffer, rest: MultiBuffer)
    ensures var cs := Contents(p, r + rest);
            Contents(p, r + [b] + rest) == cs[..|r|] + [ContentOf(p, b)] + cs[|r|..]
  {
  }

  lemma ContentsApart(p: Pools, r: MultiBuffer, b: Buffer, c: Buffer, rest: MultiBuffer)
    ensures var cs := Contents(p, r + rest);
            Contents(p, r + [b] + ([c] + rest)) == cs[..|r|] + [ContentOf(p, b)] + ([ContentOf(p, c)] + cs[|r|..])
  {
  }

  lemma ShapesDrop(p: Pools, r: MultiBuffer, rest: MultiBuffer)
    ensures Shapes(p, rest) == Shapes(p, r + rest)[|r|..]
  {
  }

  lemma ShapeIs(p: Pools, b: Buffer)
    requires p.Owned() && b in p.live
    ensures ShapeOf(p, b) == Some(Shape(|ContentOf(p, b)|, RoomOf(p, b)))
  {
  }

  /** The chunk list after its k-th chunk took the first n bytes of the next, which is gone. */
  ghost function Merged(cs: seq<Chunk>, k: nat, n: nat): seq<Chunk>
  {
    if k + 1 < |cs| && n <= |cs[k + 1]| then cs[..k] + [cs[k] + cs[k + 1][..n]] + cs[k + 2..] else cs
  }

  lemma MergedParts(cr: seq<Chunk>, l: Chunk, c: Chunk, rest: seq<Chunk>, n: nat)
    requires n <= |c|
    ensures Merged(cr + [l] + ([c] + rest), |cr|, n) == cr + [l + c[..n]] + rest
  {
    var cs := cr + [l] + ([c] + rest);
    assert cs[..|cr|] == cr && cs[|cr| + 2..] == rest;
  }

  /** A merge keeps all bytes exactly when it took all of the next chunk; otherwise some are gone. */
  lemma MergeBytesExact(cs: seq<Chunk>, k: nat, n: nat)
    requires k + 1 < |cs| && n <= |cs[k + 1]|
    ensures n == |cs[k + 1]| ==> Flatten(Merged(cs, k, n)) == Flatten(cs)
    ensures |Flatten(Merged(cs, k, n))| == |Flatten(cs)| - (|cs[k + 1]| - n)
  {
    var a, x, y, b := cs[..k], cs[k], cs[k + 1], cs[k + 2..];
    assert cs == a + ([x] + ([y] + b));
    assert Merged(cs, k, n) == a + ([x + y[..n]] + b);
    FlattenAppend(a, [x] + ([y] + b));
    FlattenAppend(a, [x + y[..n]] + b);
    FlattenCons(x, [y] + b);
    FlattenCons(y, b);
    FlattenCons(x + y[..n], b);
    if n == |y| {
      assert y[..n] == y;
      Associative(x, y, Flatten(b));
    }
  }

  /** The first m + 1 chunks are packed: no two neighbours would fit into one regular buffer. */
  ghost predicate Packed(cs: seq<Chunk>, m: nat) {
    m < |cs| && forall j :: 0 <= j < m ==> |cs[j]| + |cs[j + 1]| > SIZE
  }

  /** k packed buffers hold at least SIZE times half of k bytes. */
  lemma {:induction false} PackedIsDense(cs: seq<Chunk>)
    requires cs == [] || Packed(cs, |cs| - 1)
    ensures SIZE * (|cs| / 2) <= |Flatten(cs)|
    decreases |cs|
  {
    if |cs| >= 2 {
      var rest := cs[2..];
      assert |cs[0]| + |cs[0 + 1]| > SIZE;
      forall j | 0 <= j < |rest| - 1 ensures |rest[j]| + |rest[j + 1]| > SIZE {
        var m := j + 2;
        assert |cs[m]| + |cs[m + 1]| > SIZE;
      }
      PackedIsDense(rest);
      assert cs[1..][1..] == rest;
      assert |Flatten(cs)| == |cs[0]| + (|cs[1]| + |Flatten(rest)|);
      assert |cs| / 2 == |rest| / 2 + 1;
    }
  }

  lemma MergeKeepsPacked(cs: seq<Chunk>, k: nat, n: nat)
    requires k + 1 < |cs| && n <= |cs[k + 1]| && Packed(cs, k)
    ensures Packed(Merged(cs, k, n), k)
  {
    var cs' := Merged(cs, k, n);
    assert forall j :: 0 <= j < k ==> cs'[j] == cs[j];
    assert cs'[k] == cs[k] + cs[k + 1][..n];
  }

  function LenOf(s: Option<Shape>): nat { if s.None? then 0 else s.value.len }

  // ----- the loop, by value -----

  /** Where the loop stands: chunks `cs`, of which the first k + 1 are done or being filled; shape of
      the one being filled; shapes of those to come. */
  ghost predicate Tracks(cs: seq<Chunk>, k: nat, total: Chunk, verdict: Verdict,
                         last: Option<Shape>, rest: seq<Option<Shape>>)
  {
    && |cs| == k + 1 + |rest| && |cs[k]| == LenOf(last)
    && (forall j :: k + 1 <= j < |cs| ==> |cs[j]| == LenOf(rest[j - k - 1]))
    && Packed(cs, k)
    && (Flatten(cs) == total || |Flatten(cs)| < |total|)
    && verdict == Worse(if Flatten(cs) == total then Keeps else Loses, Foresee(last, rest))
  }

  /** The next buffer does not fit: it becomes the one being filled. */
  lemma TracksOn(cs: seq<Chunk>, k: nat, total: Chunk, verdict: Verdict,
                 last: Option<Shape>, rest: seq<Option<Shape>>)
    requires Tracks(cs, k, total, verdict, last, rest) && rest != [] && Int32(LenOf(last) + LenOf(rest[0])) > SIZE
    ensures Tracks(cs, k + 1, total, verdict, rest[0], rest[1..])
  {
    Int32Exact(LenOf(last) + LenOf(rest[0]));
    assert |cs[k + 1]| == LenOf(rest[0]);
  }

  /** The next buffer is merged; if it did not fit entirely, bytes are lost for good. */
  lemma TracksMerge(cs: seq<Chunk>, k: nat, total: Chunk, verdict: Verdict,
                    last: Option<Shape>, rest: seq<Option<Shape>>, n: nat)
    requires Tracks(cs, k, total, verdict, last, rest) && rest != [] && Int32(LenOf(last) + LenOf(rest[0])) <= SIZE
    requires last.Some? && LenOf(rest[0]) > 0 && n == Min(last.value.room, LenOf(rest[0]))
    ensures k + 1 < |cs| && n <= |cs[k + 1]|
    ensures Tracks(Merged(cs, k, n), k, total, verdict,
                   Some(Shape(last.value.len + n, last.value.room - n)), rest[1..])
  {
    assert |cs[k + 1]| == LenOf(rest[0]);
    MergeBytesExact(cs, k, n);
    MergeKeepsPacked(cs, k, n);
    var cs' := Merged(cs, k, n);
    assert forall j :: k + 1 <= j < |cs'| ==> cs'[j] == cs[j + 1];
  }

  /** The merge inside the whole list `r + [last] + tail`, whose next buffer is tail[0]. */
  method MergeNext(p: Pools, r: MultiBuffer, last: Buffer, tail: MultiBuffer) returns (n: nat)
    requires p.Owned() && tail != [] && tail[0] != null && Held(p, r + [last] + tail)
    modifies p, last, last.v, tail[0], tail[0].v
    ensures p.Owned() && Held(p, r + [last] + tail[1..]) && last in p.live && OthersKept(p, [last, tail[0]])
    ensures n == Min(old(RoomOf(p, last)), |old(ContentOf(p, tail[0]))|) && RoomOf(p, last) == old(RoomOf(p, last)) - n
    ensures Contents(p, r + [last] + tail[1..]) == Merged(old(Contents(p, r + [last] + tail)), |r|, n)
    ensures |ContentOf(p, last)| == |old(ContentOf(p, last))| + n
    ensures Shapes(p, tail[1..]) == old(Shapes(p, tail))[1..]
  {
    var curr := tail[0];
    ghost var rest := tail[1..];
    ghost var others := r + rest;
    assert tail == [curr] + rest;
    HeldApart(p, r, last, curr, rest);
    ContentsApart(p, r, last, curr, rest);
    ShapesTail(p, tail);
    ShapesDrop(p, r, rest);
    ghost var l, c, cs := ContentOf(p, last), ContentOf(p, curr), Contents(p, others);
    n := AbsorbBeside(p, last, curr, others);
    HeldJoin(p, r, last, rest);
    ContentsJoin(p, r, last, rest);
    ShapesDrop(p, r, rest);
    MergedParts(cs[..|r|], l, c, cs[|r|..], n);
  }

  /** The loop invariant of Compact on the heap: `r` done, `last` being filled, `tail` to come. */
  ghost predicate Stands(p: Pools, r: MultiBuffer, last: Buffer?, tail: MultiBuffer,
                         total: Chunk, verdict: Verdict)
    reads p, p.repr
  {
    && p.Owned() && Held(p, r + [last] + tail)
    && Tracks(Contents(p, r + [last] + tail), |r|, total, verdict, ShapeOf(p, last), Shapes(p, tail))
  }

  lemma ShapesTail(p: Pools, tail: MultiBuffer)
    requires tail != []
    ensures Shapes(p, tail[1..]) == Shapes(p, tail)[1..] && Shapes(p, tail)[0] == ShapeOf(p, tail[0])
  {
  }

  lemma LenOfShape(p: Pools, b: Buffer?)
    requires p.Owned() && (b != null ==> b in p.live)
    ensures LenOf(ShapeOf(p, b)) == |ContentOf(p, b)|
  {
    if b != null { ShapeIs(p, b); }
  }

  lemma StandsAtStart(p: Pools, mb: MultiBuffer)
    requires p.Owned() && Held(p, mb) && mb != []
    ensures Stands(p, [], mb[0], mb[1..], BytesOf(p, mb), Foresee(ShapeOf(p, mb[0]), Shapes(p, mb[1..])))
  {
    assert [] + [mb[0]] + mb[1..] == mb;
    var cs, last, rest := Contents(p, mb), ShapeOf(p, mb[0]), Shapes(p, mb[1..]);
    LenOfShape(p, mb[0]);
    forall j | 1 <= j < |cs| ensures |cs[j]| == LenOf(rest[j - 1]) {
      assert mb[1..][j - 1] == mb[j];
      LenOfShape(p, mb[j]);
    }
    assert Tracks(cs, 0, BytesOf(p, mb), Foresee(last, rest), last, rest);
  }

  lemma StandsAtEnd(p: Pools, r: MultiBuffer, last: Buffer?, total: Chunk, verdict: Verdict)
    requires Stands(p, r, last, [], total, verdict)
    ensures Held(p, r + [last]) && Packed(Contents(p, r + [last]), |r|)
    ensures verdict != Panics && (BytesOf(p, r + [last]) == total <==> verdict == Keeps)
  {
    assert r + [last] + [] == r + [last];
  }

  lemma StandsOn(p: Pools, r: MultiBuffer, last: Buffer?, tail: MultiBuffer, total: Chunk, verdict: Verdict)
    requires tail != [] && Stands(p, r, last, tail, total, verdict)
    requires Int32(LenOf(ShapeOf(p, last)) + LenOf(ShapeOf(p, tail[0]))) > SIZE
    ensures Stands(p, r + [last], tail[0], tail[1..], total, verdict)
  {
    var all := r + [last] + tail;
    ShapesTail(p, tail);
    TracksOn(Contents(p, all), |r|, total, verdict, ShapeOf(p, last), Shapes(p, tail));
    assert r + [last] + [tail[0]] + tail[1..] == all;
  }

  method RoundMerge(p: Pools, r: MultiBuffer, last: Buffer, tail: MultiBuffer, ghost total: Chunk,
                    ghost verdict: Verdict)
    requires tail != [] && tail[0] != null && Stands(p, r, last, tail, total, verdict)
    requires Int32(LenOf(ShapeOf(p, last)) + LenOf(ShapeOf(p, tail[0]))) <= SIZE && LenOf(ShapeOf(p, tail[0])) > 0
    modifies p, last, last.v, tail[0], tail[0].v
    ensures p.Owned() && OthersKept(p, [last, tail[0]])
    ensures Stands(p, r, last, tail[1..], total, verdict)
  {
    ghost var cs, shape, ss := Contents(p, r + [last] + tail), ShapeOf(p, last), Shapes(p, tail);
    ShapesTail(p, tail);
    LengthsOf(p, r, last, tail);
    LenOfShape(p, tail[0]);
    ShapeIs(p, last);
    var n := MergeNext(p, r, last, tail);
    ShapeIs(p, last);
    StandsAfterMerge(p, r, last, tail[1..], total, verdict, cs, shape.value, ss, n);
  }

  lemma StandsAfterMerge(p: Pools, r: MultiBuffer, last: Buffer, rest: MultiBuffer, total: Chunk,
                         verdict: Verdict, cs: seq<Chunk>, shape: Shape, ss: seq<Option<Shape>>, n: nat)
    requires p.Owned() && Held(p, r + [last] + rest)
    requires Tracks(cs, |r|, total, verdict, Some(shape), ss) && ss != []
    requires Int32(shape.len + LenOf(ss[0])) <= SIZE && LenOf(ss[0]) > 0
    requires n == Min(shape.room, LenOf(ss[0]))
    requires Contents(p, r + [last] + rest) == Merged(cs, |r|, n) && Shapes(p, rest) == ss[1..]
    requires ShapeOf(p, last) == Some(Shape(shape.len + n, shape.room - n))
    ensures Stands(p, r, last, rest, total, verdict)
  {
    TracksMerge(cs, |r|, total, verdict, Some(shape), ss, n);
  }

  lemma LengthsOf(p: Pools, r: MultiBuffer, last: Buffer?, tail: MultiBuffer)
    requires p.Owned() && tail != [] && Held(p, r + [last] + tail)
    ensures last != null ==> last in p.live && last.Valid() && LenOf(ShapeOf(p, last)) == last.Len()
    ensures tail[0] != null ==> tail[0] in p.live && tail[0].Valid() && LenOf(ShapeOf(p, tail[0])) == tail[0].Len()
  {
    var all := r + [last] + tail;
    assert all[|r|] == last && all[|r| + 1] == tail[0];
  }

  /** One round of the loop. */
  method Round(p: Pools, r: MultiBuffer, last: Buffer?, tail: MultiBuffer, ghost total: Chunk,
               ghost verdict: Verdict)
    returns (r': MultiBuffer, last': Buffer?, panicked: bool)
    requires tail != [] && Stands(p, r, last, tail, total, verdict)
    modifies p.repr
    ensures p.Owned() && OthersKept(p, [last, tail[0]])
    ensures panicked ==> verdict == Panics
    ensures !panicked ==> Stands(p, r', last', tail[1..], total, verdict)
    ensures last' == last || last' == tail[0]
  {
    r', last', panicked := r, last, false;
    var curr := tail[0];
    LengthsOf(p, r, last, tail);
    ShapesTail(p, tail);
    var l, c := if last == null then 0 else last.Len(), if curr == null then 0 else curr.Len();
    if Int32(l + c) > SIZE {
      StandsOn(p, r, last, tail, total, verdict);
      r', last' := r + [last], curr;
    } else if last == null || curr == null || c == 0 {
      panicked := true;
    } else {
      RoundMerge(p, r, last, tail, total, verdict);
    }
  }

  /** Stands on the list `mb`, of which buffers from index i on are to come and `last` is one before them. */
  ghost predicate StandsAt(p: Pools, mb: MultiBuffer, i: nat, r: MultiBuffer, last: Buffer?,
                           total: Chunk, verdict: Verdict)
    reads p, p.repr
  {
    i <= |mb| && last in mb && Stands(p, r, last, mb[i..], total, verdict)
  }

  /** A round on the list `mb`, of which buffers from index i on are to come. */
  method RoundWithin(p: Pools, mb: MultiBuffer, i: nat, r: MultiBuffer, last: Buffer?, ghost total: Chunk,
                     ghost verdict: Verdict)
    returns (r': MultiBuffer, last': Buffer?, panicked: bool)
    requires i < |mb| && StandsAt(p, mb, i, r, last, total, verdict)
    modifies p.repr
    ensures p.Owned() && OthersKept(p, mb)
    ensures panicked ==> verdict == Panics
    ensures !panicked ==> StandsAt(p, mb, i + 1, r', last', total, verdict)
  {
    ghost var tail := mb[i..];
    assert tail[0] == mb[i] && tail[1..] == mb[i + 1..];
    r', last', panicked := Round(p, r, last, mb[i..], total, verdict);
  }

  method Rounds(p: Pools, mb: MultiBuffer, ghost total: Chunk, ghost verdict: Verdict)
    returns (r: MultiBuffer, last: Buffer?, panicked: bool)
    requires mb != [] && StandsAt(p, mb, 1, [], mb[0], total, verdict)
    modifies p.repr
    ensures p.Owned() && OthersKept(p, mb)
    ensures panicked ==> verdict == Panics
    ensures !panicked ==> StandsAt(p, mb, |mb|, r, last, total, verdict)
  {
    r, last, panicked := [], mb[0], false;
    var i := 1;
    while i < |mb| && !panicked
      invariant i <= |mb| && p.Owned() && OthersKept(p, mb)
      invariant if panicked then verdict == Panics else StandsAt(p, mb, i, r, last, total, verdict)
    {
      r, last, panicked := RoundWithin(p, mb, i, r, last, total, verdict);
      i := i + 1;
    }
  }

  /** Compact: merges each buffer into the one before it when their lengths fit together. It keeps
      every byte in order exactly when Foresee says so, and no two neighbours of its result would fit
      into one regular buffer. */
  method Compact(p: Pools, mb: MultiBuffer) returns (r: MultiBuffer, panicked: bool)
    requires p.Owned() && Held(p, mb)
    modifies p.repr
    ensures p.Owned() && OthersKept(p, mb)
    ensures mb == [] ==> !panicked && r == []
    ensures mb != [] ==> (panicked <==> old(Foresee(ShapeOf(p, mb[0]), Shapes(p, mb[1..]))) == Panics)
    ensures !panicked ==> Held(p, r)
    ensures mb != [] && !panicked ==>
              && r != [] && Packed(Contents(p, r), |r| - 1) && SIZE * (|r| / 2) <= |BytesOf(p, r)|
              && (BytesOf(p, r) == old(BytesOf(p, mb)) <==>
                    old(Foresee(ShapeOf(p, mb[0]), Shapes(p, mb[1..]))) == Keeps)
  {
    if |mb| == 0 { return [], false; }
    ghost var total, verdict := BytesOf(p, mb), Foresee(ShapeOf(p, mb[0]), Shapes(p, mb[1..]));
    StandsAtStart(p, mb);
    var last;
    r, last, panicked := Rounds(p, mb, total, verdict);
    if !panicked {
      assert mb[|mb|..] == [];
      StandsAtEnd(p, r, last, total, verdict);
      r := r + [last];
      PackedIsDense(Contents(p, r));
    }
  }

  // ----- a list on which bytes are lost -----

  /** A full buffer of which all but the last byte was read. */
  method ConsumedBuffer(p: Pools) returns (b: Buffer)
    requires p.Owned()
    modifies p.repr
    ensures p.Owned() && OthersKept(p, []) && fresh(b) && b in p.live
    ensures ShapeOf(p, b) == Some(Shape(1, 0))
  {
    b := NewEmpty(p);
    var n := p.WriteTo(b, seq(SIZE, _ => 1));
    var out := p.ReadOff(b, SIZE - 1);
    ShapeIs(p, b);
  }

  method SmallBuffer(p: Pools) returns (b: Buffer)
    requires p.Owned()
    modifies p.repr
    ensures p.Owned() && OthersKept(p, []) && fresh(b) && b in p.live
    ensures ShapeOf(p, b) == Some(Shape(5, SIZE - 5))
  {
    b := NewEmpty(p);
    var n := p.WriteTo(b, [1, 2, 3, 4, 5]);
    ShapeIs(p, b);
  }

  /** Compacting the two loses bytes: the first has no room, yet the second is poured into it. */
  method CompactLosesBytes(p: Pools) returns (r: MultiBuffer, ghost before: Chunk)
    requires p.Owned()
    modifies p.repr
    ensures p.Owned() && Held(p, r) && |before| == 6 && BytesOf(p, r) != before
  {
    var a := ConsumedBuffer(p);
    var b := SmallBuffer(p);
    var mb: MultiBuffer := [a, b];
    TwoBuffers(p, a, b);
    before := BytesOf(p, mb);
    ConsumedFrontLosesBytes();
    var panicked;
    r, panicked := Compact(p, mb);
  }

  method LongBuffer(p: Pools, x: Block) returns (b: Buffer)
    requires p.Owned() && x.holder == Nobody && |x.cells| == 0x4000_0000
    modifies p, x
    ensures p.Owned() && fresh(b) && p.live == old(p.live) + {b} && p.repr == old(p.repr) + {b, x}
    ensures b.content == old(x.cells) && ShapeOf(p, b) == Some(Shape(0x4000_0000, 0))
    ensures forall c :: c in old(p.live) ==> LookOf(c) == old(LookOf(c))
  {
    b := p.FromBytes(x);
    ShapeIs(p, b);
  }

  /** So does compacting two arrays of 2^30 bytes wrapped as buffers: the second is dropped, with no panic. */
  method CompactLosesLongBuffer(p: Pools, x: Block, y: Block) returns (r: MultiBuffer, panicked: bool)
    requires p.Owned() && x != y && x.holder == y.holder == Nobody && |x.cells| == |y.cells| == 0x4000_0000
    modifies p, p.repr, x, y
    ensures p.Owned() && !panicked && Held(p, r) && BytesOf(p, r) != old(x.cells) + old(y.cells)
  {
    var a := LongBuffer(p, x);
    var b := LongBuffer(p, y);
    TwoBuffers(p, a, b);
    LongBuffersLoseBytes();
    r, panicked := Compact(p, [a, b]);
  }

  lemma TwoBuffers(p: Pools, a: Buffer, b: Buffer)
    requires p.Owned() && a in p.live && b in p.live && a != b
    ensures Held(p, [a, b]) && BytesOf(p, [a, b]) == a.content + b.content
    ensures Shapes(p, [a, b][1..]) == [ShapeOf(p, b)]
  {
    assert [a, b] == [a] + [b];
    SingleList(p, a);
    HeldAppend(p, [a], b);
    assert [a, b][1..] == [b];
  }
}
