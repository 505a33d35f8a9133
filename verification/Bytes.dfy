/** Bytes, chunk lists and the fixed-width integers shared by the other modules. */
module Bytes {

  type byte = x: int | 0 <= x < 256

  /** A chunk is the content of one buffer, a chunk list the content of a MultiBuffer. */
  type Chunk = seq<byte>

  datatype Option<+T> = None | Some(value: T)

  /** The bytes of a chunk list, in order. */
  function Flatten(chunks: seq<Chunk>): Chunk {
    if chunks == [] then [] else chunks[0] + Flatten(chunks[1..])
  }

  lemma {:induction false} FlattenAppend(a: seq<Chunk>, b: seq<Chunk>)
    ensures Flatten(a + b) == Flatten(a) + Flatten(b)
  {
    if a == [] {
      assert a + b == b;
    } else {
      FlattenAppend(a[1..], b);
      assert (a + b)[1..] == a[1..] + b;
      Associative(a[0], Flatten(a[1..]), Flatten(b));
    }
  }

  lemma FlattenSingle(c: Chunk)
    ensures Flatten([c]) == c
  {
    assert [c][1..] == [];
  }

  lemma FlattenCons(c: Chunk, rest: seq<Chunk>)
    ensures Flatten([c] + rest) == c + Flatten(rest)
  {
    assert ([c] + rest)[1..] == rest;
  }

  lemma Associative(a: Chunk, b: Chunk, c: Chunk)
    ensures a + b + c == a + (b + c)
  {
  }

  lemma FrontOfSlice(s: seq<byte>, i: nat, j: nat, n: nat)
    requires i + n <= j <= |s|
    ensures s[i..j][..n] == s[i..i + n] && s[i..j] == s[i..i + n] + s[i + n..j]
  {
  }

  lemma FlattenTake(mb: seq<Chunk>, i: nat)
    requires i < |mb|
    ensures Flatten(mb[..i + 1]) == Flatten(mb[..i]) + mb[i]
  {
    assert mb[..i + 1] == mb[..i] + [mb[i]];
    FlattenAppend(mb[..i], [mb[i]]);
    FlattenSingle(mb[i]);
  }

  lemma FlattenSplit(mb: seq<Chunk>, i: nat)
    requires i <= |mb|
    ensures Flatten(mb) == Flatten(mb[..i]) + Flatten(mb[i..])
  {
    assert mb == mb[..i] + mb[i..];
    FlattenAppend(mb[..i], mb[i..]);
  }

  /** An integer kept in 32 bits: wrapped around until it is in range. */
  function Int32(n: int): (r: int)
    ensures -0x8000_0000 <= r < 0x8000_0000
    ensures -0x8000_0000 <= n < 0x8000_0000 ==> r == n
    decreases if -0x8000_0000 <= n < 0x8000_0000 then 0 else if n < 0 then -n else n
  {
    if n >= 0x8000_0000 then Int32(n - 0x1_0000_0000)
    else if n < -0x8000_0000 then Int32(n + 0x1_0000_0000)
    else n
  }

  lemma {:induction false} Int32Add(a: int, b: int)
    ensures Int32(Int32(a) + b) == Int32(a + b)
    decreases if -0x8000_0000 <= a < 0x8000_0000 then 0 else if a < 0 then -a else a
  {
    if a >= 0x8000_0000 {
      Int32Add(a - 0x1_0000_0000, b);
      Int32Wraps(a + b - 0x1_0000_0000);
    } else if a < -0x8000_0000 {
      Int32Add(a + 0x1_0000_0000, b);
      Int32Wraps(a + b);
    }
  }

  lemma Int32Wraps(n: int)
    ensures Int32(n + 0x1_0000_0000) == Int32(n)
  {
  }

  /** A count kept in 32 bits is right exactly below 2^31, and never too large. */
  lemma Int32Exact(n: nat)
    ensures Int32(n) <= n && (Int32(n) == n <==> n < 0x8000_0000)
    ensures 0x8000_0000 <= n < 0x1_0000_0000 ==> Int32(n) < 0
  {
  }

  /** What is left of a natural number kept in 32 bits. */
  lemma {:induction false} Int32OfNat(n: nat)
    ensures var m := n % 0x1_0000_0000; Int32(n) == if m < 0x8000_0000 then m else m - 0x1_0000_0000
  {
    if n >= 0x1_0000_0000 {
      Int32OfNat(n - 0x1_0000_0000);
      Int32Wraps(n - 0x1_0000_0000);
    }
  }
}
