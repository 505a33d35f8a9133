/** The two base-128 varint decoders and the wire-format parsers built on them. */
module Varint {
  import opened Bytes

  const WORD: nat := 0x1_0000_0000_0000_0000  // 2^64

  function Pow2(k: nat): (p: nat)
    ensures p > 0
  {
    if k == 0 then 1 else 2 * Pow2(k - 1)
  }

  /** Bitwise or of two naturals. */
  function BitOr(a: nat, b: nat): nat {
    if a == 0 && b == 0 then 0
    else 2 * BitOr(a / 2, b / 2) + (if a % 2 == 1 || b % 2 == 1 then 1 else 0)
  }

  /** A left shift in a 64-bit register; a shift by 64 or more leaves nothing. */
  function Shl64(x: nat, k: nat): nat { (x * Pow2(k)) % WORD }

  // ----- reference meaning -----

  /** Length of the varint at the head of `s`: up to and including the first byte below 128. */
  function VarintLen(s: seq<byte>): (n: Option<nat>)
    ensures n.Some? ==> 0 < n.value <= |s|
  {
    if s == [] then None
    else if s[0] < 128 then Some(1)
    else
      var rest := VarintLen(s[1..]);
      if rest.None? then None else Some(rest.value + 1)
  }

  /** Seven-bit groups, least significant first. */
  function Groups(s: seq<byte>): nat {
    if s == [] then 0 else s[0] % 128 + 128 * Groups(s[1..])
  }

  datatype Decoded = Value(bits: nat, used: nat) | Eof | TooLong

  /** What a decoder should answer: at most `limit` bytes, or any number without a limit. */
  function Decode(s: seq<byte>, limit: Option<nat>): Decoded {
    var n := VarintLen(if limit.Some? && limit.value < |s| then s[..limit.value] else s);
    if n.Some? then Value(Groups(s[..n.value]) % WORD, n.value)
    else if limit.Some? && limit.value <= |s| then TooLong
    else Eof
  }

  /** The base-128 encoder of the Protocol Buffers guide. */
  function Encode(v: nat): seq<byte> {
    if v < 128 then [v] else [128 + v % 128] + Encode(v / 128)
  }

  // ----- arithmetic -----

  lemma {:induction false} Pow2Add(a: nat, b: nat)
    ensures Pow2(a + b) == Pow2(a) * Pow2(b)
  {
    if a > 0 {
      Pow2Add(a - 1, b);
      assert Pow2(a + b) == 2 * Pow2(a - 1 + b);
      assert 2 * (Pow2(a - 1) * Pow2(b)) == 2 * Pow2(a - 1) * Pow2(b);
    }
  }

  lemma Pow2Of64()
    ensures Pow2(64) == WORD && Pow2(7) == 128
  {
    assert Pow2(4) == 16;
    Pow2Add(4, 3);
    Pow2Add(4, 4);
    Pow2Add(8, 8);
    Pow2Add(16, 16);
    Pow2Add(32, 32);
  }

  lemma {:induction false} BitOrZero(a: nat)
    ensures BitOr(a, 0) == a
  {
    if a > 0 { BitOrZero(a / 2); }
  }

  lemma {:induction false} ZeroBitOr(a: nat)
    ensures BitOr(0, a) == a
  {
    if a > 0 { ZeroBitOr(a / 2); }
  }

  /** Bits below 2^k and a multiple of 2^k do not overlap, so their or is their sum. */
  lemma {:induction false} DisjointOr(a: nat, c: nat, k: nat)
    requires a < Pow2(k)
    ensures BitOr(a, c * Pow2(k)) == a + c * Pow2(k)
  {
    if k == 0 {
      ZeroBitOr(c);
    } else {
      var b := c * Pow2(k);
      var h := c * Pow2(k - 1);
      assert b == 2 * h by { assert c * (2 * Pow2(k - 1)) == 2 * (c * Pow2(k - 1)); }
      DisjointOr(a / 2, c, k - 1);
      assert b / 2 == h && b % 2 == 0;
    }
  }

  /** Quotient and remainder are the only pair that fits. */
  lemma ModUnique(x: int, m: int, q: int, r: int)
    requires m > 0 && x == q * m + r && 0 <= r < m
    ensures x % m == r
  {
    assert (x / m - q) * m == r - x % m;
    MultipleInside(x / m - q, m);
  }

  lemma MultipleInside(d: int, m: int)
    requires m > 0 && -m < d * m < m
    ensures d == 0
  {
  }

  lemma ScaledMod(g: nat, m: nat, p: nat)
    requires m > 0 && p > 0
    ensures m * p > 0 && (g * p) % (m * p) == (g % m) * p
  {
    var q, r := g / m, g % m;
    assert g * p == q * (m * p) + r * p by {
      assert g == q * m + r;
      assert (q * m + r) * p == (q * m) * p + r * p;
      assert (q * m) * p == q * (m * p);
    }
    assert r * p + p <= m * p by { assert (r + 1) * p <= m * p; }
    ModUnique(g * p, m * p, q, r * p);
  }

  lemma ShiftedRemainder(g: nat, k: nat)
    requires k <= 64
    ensures Shl64(g, k) == (g % Pow2(64 - k)) * Pow2(k)
  {
    Pow2Of64();
    Pow2Add(64 - k, k);
    ScaledMod(g, Pow2(64 - k), Pow2(k));
  }

  lemma {:induction false} Pow2Monotone(a: nat, b: nat)
    requires a <= b
    ensures Pow2(a) <= Pow2(b)
  {
    if a < b { Pow2Monotone(a, b - 1); }
  }

  lemma LowGroupSum(a: nat, g: nat, m: nat, p: nat, w: nat)
    requires m > 0 && m * p == w && a < p
    ensures a + (g % m) * p < w && (a + g * p) % w == a + (g % m) * p
  {
    var q, c := g / m, g % m;
    assert c * p + p <= w by { assert (c + 1) * p <= m * p; }
    assert g * p == q * w + c * p by {
      assert g == q * m + c;
      assert (q * m + c) * p == (q * m) * p + c * p;
      assert (q * m) * p == q * (m * p);
    }
    ModUnique(a + g * p, w, q, a + c * p);
  }

  lemma OrAddsLowGroup(a: nat, g: nat, k: nat)
    requires k <= 64 && a < Pow2(k)
    ensures BitOr(a, Shl64(g, k)) == a + (g % Pow2(64 - k)) * Pow2(k)
  {
    ShiftedRemainder(g, k);
    DisjointOr(a, g % Pow2(64 - k), k);
  }

  lemma OrAddsHighGroup(a: nat, g: nat, k: nat)
    requires k >= 64
    ensures BitOr(a % WORD, Shl64(g, k)) == (a + g * Pow2(k)) % WORD
  {
    Pow2Of64();
    Pow2Add(k - 64, 64);
    var q := g * Pow2(k - 64);
    assert g * Pow2(k) == q * WORD;
    ModUnique(q * WORD, WORD, q, 0);
    BitOrZero(a % WORD);
    ModUnique(a + q * WORD, WORD, a / WORD + q, a % WORD);
  }

  /** One round of the decoders' loop adds one group, modulo 2^64. */
  lemma OrAddsGroup(a: nat, g: nat, k: nat)
    requires a < Pow2(k)
    ensures BitOr(a % WORD, Shl64(g, k)) == (a + g * Pow2(k)) % WORD
  {
    if k < 64 {
      OrAddsWithin(a, g, k);
    } else {
      OrAddsHighGroup(a, g, k);
    }
  }

  lemma OrAddsWithin(a: nat, g: nat, k: nat)
    requires a < Pow2(k) && k < 64
    ensures BitOr(a % WORD, Shl64(g, k)) == (a + g * Pow2(k)) % WORD
  {
    var m, p := Pow2(64 - k), Pow2(k);
    WordSplits(a, k);
    OrAddsLowGroup(a, g, k);
    LowGroupSum(a, g, m, p, WORD);
  }

  lemma WordSplits(a: nat, k: nat)
    requires a < Pow2(k) && k < 64
    ensures Pow2(64 - k) * Pow2(k) == WORD && a % WORD == a
  {
    Pow2Of64();
    Pow2Monotone(k, 64);
    Pow2Add(64 - k, k);
  }

  lemma {:induction false} GroupsSnoc(s: seq<byte>, b: byte)
    ensures Groups(s + [b]) == Groups(s) + (b % 128) * Pow2(7 * |s|)
    ensures Groups(s) < Pow2(7 * |s|)
  {
    Pow2Of64();
    if s == [] {
      assert s + [b] == [b];
      assert [b][1..] == [];
    } else {
      GroupsSnoc(s[1..], b);
      assert (s + [b])[1..] == s[1..] + [b];
      Pow2Add(7, 7 * |s[1..]|);
      var x, p := b % 128, Pow2(7 * |s[1..]|);
      assert 128 * (x * p) == x * (128 * p);
    }
  }

  lemma {:induction false} VarintLenIs(s: seq<byte>, n: nat)
    requires 0 < n <= |s| && s[n - 1] < 128 && forall i :: 0 <= i < n - 1 ==> s[i] >= 128
    ensures VarintLen(s) == Some(n)
  {
    if n > 1 { VarintLenIs(s[1..], n - 1); }
  }

  lemma {:induction false} VarintLenNone(s: seq<byte>)
    requires forall i :: 0 <= i < |s| ==> s[i] >= 128
    ensures VarintLen(s) == None
  {
    if s != [] { VarintLenNone(s[1..]); }
  }

  /** A varint inside a prefix of the input is the varint of the input. */
  lemma {:induction false} VarintLenPrefix(s: seq<byte>, m: nat)
    requires m <= |s|
    ensures VarintLen(s[..m]).Some? ==> VarintLen(s) == VarintLen(s[..m])
    ensures VarintLen(s[..m]).None? <==> forall i :: 0 <= i < m ==> s[i] >= 128
    ensures VarintLen(s[..m]).None? && VarintLen(s).Some? ==> VarintLen(s).value > m
  {
    if m > 0 {
      assert s[..m][1..] == s[1..][..m - 1];
      VarintLenPrefix(s[1..], m - 1);
      assert forall i :: 1 <= i < m ==> s[i] == s[1..][i - 1];
    }
  }

  /** The loop body, shared by both decoders: fold byte `s[i]` into the register. */
  lemma FoldByte(s: seq<byte>, i: nat)
    requires i < |s|
    ensures BitOr(Groups(s[..i]) % WORD, Shl64(s[i] % 128, 7 * i)) == Groups(s[..i + 1]) % WORD
  {
    GroupsSnoc(s[..i], s[i]);
    assert s[..i + 1] == s[..i] + [s[i]];
    OrAddsGroup(Groups(s[..i]), s[i] % 128, 7 * i);
  }

  // ----- the decoders -----

  /** The decoder of binproto/protobuf: gives up when the shift reaches 64. */
  method ReadVarintLimited(s: seq<byte>) returns (d: Decoded)
    ensures d == Decode(s, Some(10))
  {
    var result, shift, i := 0, 0, 0;
    while true
      invariant i <= |s| && i < 10 && shift == 7 * i
      invariant result == Groups(s[..i]) % WORD
      invariant forall j :: 0 <= j < i ==> s[j] >= 128
      decreases |s| - i
    {
      if i == |s| {
        VarintLenNone(s);
        return Eof;
      }
      var b := s[i];
      FoldByte(s, i);
      result := BitOr(result, Shl64(b % 128, shift));
      i := i + 1;
      if b < 128 {
        VarintLenIs(if 10 < |s| then s[..10] else s, i);
        return Value(result, i);
      }
      shift := shift + 7;
      if shift >= 64 {
        VarintLenNone(s[..10]);
        assert s[..|s|] == s;
        return TooLong;
      }
    }
  }

  /** The decoder of the proto command: no limit. */
  method ReadVarintUnlimited(s: seq<byte>) returns (d: Decoded)
    ensures d == Decode(s, None)
  {
    var value, shift, i := 0, 0, 0;
    while i < |s|
      invariant i <= |s| && shift == 7 * i
      invariant value == Groups(s[..i]) % WORD
      invariant forall j :: 0 <= j < i ==> s[j] >= 128
    {
      var b := s[i];
      FoldByte(s, i);
      value := BitOr(value, Shl64(b % 128, shift));
      i := i + 1;
      if b < 128 {
        VarintLenIs(s, i);
        return Value(value, i);
      }
      shift := shift + 7;
    }
    VarintLenNone(s);
    return Eof;
  }

  /** Whenever the limited decoder succeeds the other one agrees bit for bit; they differ exactly
      on inputs whose first ten bytes all carry the continuation bit. */
  lemma DecodersAgree(s: seq<byte>)
    ensures Decode(s, Some(10)).Value? ==> Decode(s, None) == Decode(s, Some(10))
    ensures Decode(s, Some(10)) == Decode(s, None) <==> !(|s| >= 10 && forall i :: 0 <= i < 10 ==> s[i] >= 128)
  {
    if |s| >= 10 {
      VarintLenPrefix(s, 10);
      if |s| == 10 { assert s[..10] == s; }
    }
  }

  lemma {:induction false} EncodeShape(v: nat, n: nat)
    requires v < Pow2(7 * n)
    ensures |Encode(v)| <= n || n == 0
    ensures VarintLen(Encode(v)) == Some(|Encode(v)|) && Groups(Encode(v)) == v
  {
    var e := Encode(v);
    if v < 128 {
      assert e[1..] == [];
    } else {
      assert n > 0;
      Pow2Of64();
      Pow2Add(7, 7 * (n - 1));
      EncodeShape(v / 128, n - 1);
      assert e[1..] == Encode(v / 128);
    }
  }

  lemma EncodeFitsTenBytes(v: nat)
    requires v < WORD
    ensures 0 < |Encode(v)| <= 10
    ensures VarintLen(Encode(v)) == Some(|Encode(v)|) && Groups(Encode(v)) == v
  {
    Pow2Of64();
    Pow2Monotone(64, 70);
    EncodeShape(v, 10);
  }

  /** Both decoders invert the encoder on every 64-bit value, whatever follows it. */
  lemma DecodeInvertsEncode(v: nat, tail: seq<byte>, limit: Option<nat>)
    requires v < WORD && (limit == None || limit == Some(10))
    ensures Decode(Encode(v) + tail, limit) == Value(v, |Encode(v)|)
  {
    EncodeFitsTenBytes(v);
    var s, n := Encode(v) + tail, |Encode(v)|;
    assert s[..n] == Encode(v);
    VarintLenPrefix(s, n);
    if limit.Some? && 10 < |s| {
      assert s[..10][..n] == Encode(v);
      VarintLenPrefix(s[..10], n);
    }
  }
}
