/** Parsing a whole Protocol Buffers message with either varint decoder. */
module Protobuf {
  import opened Bytes
  import opened Varint

  const LIMIT := Some(10)  // bytes the decoder of binproto/protobuf accepts in one varint

  datatype Content = Number(value: int) | Fixed64(bits: nat) | Payload(bytes: seq<byte>) | Fixed32(bits: nat)

  datatype Field = Field(number: int, content: Content)

  /** How a parse stopped: at the end of input, at a malformed field, or in a failed allocation. */
  datatype End = Clean | Broken | Crash

  datatype Parsed = Parsed(fields: seq<Field>, end: End)

  /** The limited decoder returns a signed word, the other an unsigned one. */
  function Reading(bits: nat, limit: Option<nat>): int {
    if limit.Some? && bits >= WORD / 2 then bits - WORD else bits
  }

  /** The key is shifted as it was read, arithmetically if signed. */
  function FieldNumber(key: nat, limit: Option<nat>): int { Reading(key, limit) / 8 }

  function FromLittleEndian(s: seq<byte>): nat {
    if s == [] then 0 else s[0] + 256 * FromLittleEndian(s[1..])
  }

  function ToLittleEndian(v: nat, n: nat): (s: seq<byte>)
    ensures |s| == n
  {
    if n == 0 then [] else [v % 256] + ToLittleEndian(v / 256, n - 1)
  }

  datatype Read = Got(content: Content, used: nat) | Fail(end: End)

  /** A length and that many bytes; a length that `make` does not grant panics. */
  function ReadPayload(s: seq<byte>, d: Decoded, maxAlloc: nat): (r: Read)
    ensures r.Got? ==> r.used <= |s|
    ensures r.Fail? ==> r.end != Clean
  {
    if !d.Value? then Fail(Broken)
    else if d.bits > maxAlloc || d.bits >= WORD / 2 then Fail(Crash)
    else if |s| < d.used + d.bits then Fail(Broken)
    else Got(Payload(s[d.used..d.used + d.bits]), d.used + d.bits)
  }

  /** readValue, and the switch of ParseProtobufTo; `maxAlloc` is the longest slice `make` grants, which is
      never one of 2^63 bytes. */
  function ReadContent(s: seq<byte>, wireType: nat, limit: Option<nat>, maxAlloc: nat): (r: Read)
    ensures r.Got? ==> r.used <= |s|
    ensures r.Fail? ==> r.end != Clean
  {
    match wireType
    case 0 =>
      var d := Decode(s, limit);
      if d.Value? then Got(Number(Reading(d.bits, limit)), d.used) else Fail(Broken)
    case 1 => if |s| < 8 then Fail(Broken) else Got(Fixed64(FromLittleEndian(s[..8])), 8)
    case 2 => ReadPayload(s, Decode(s, limit), maxAlloc)
    case 5 => if |s| < 4 then Fail(Broken) else Got(Fixed32(FromLittleEndian(s[..4])), 4)
    case _ => Fail(Broken)
  }

  datatype Step = Stop(end: End) | One(field: Field, used: nat)

  /** One round of the parse loops; end of input inside a key counts as the end of the message. */
  function NextField(s: seq<byte>, limit: Option<nat>, maxAlloc: nat): (step: Step)
    ensures step.One? ==> 0 < step.used <= |s|
  {
    match Decode(s, limit)
    case Eof => Stop(Clean)
    case TooLong => Stop(Broken)
    case Value(key, used) =>
      match ReadContent(s[used..], key % 8, limit, maxAlloc)
      case Fail(end) => Stop(end)
      case Got(content, more) => One(Field(FieldNumber(key, limit), content), used + more)
  }

  function Parse(s: seq<byte>, limit: Option<nat>, maxAlloc: nat): Parsed
    decreases |s|
  {
    match NextField(s, limit, maxAlloc)
    case Stop(end) => Parsed([], end)
    case One(f, used) =>
      var rest := Parse(s[used..], limit, maxAlloc);
      Parsed([f] + rest.fields, rest.end)
  }

  /** `fields` read so far, `rest` still to read: together the parse of the whole. */
  ghost predicate ReadSoFar(whole: Parsed, fields: seq<Field>, rest: seq<byte>, limit: Option<nat>, maxAlloc: nat) {
    var p := Parse(rest, limit, maxAlloc);
    whole == Parsed(fields + p.fields, p.end)
  }

  lemma ReadOneMore(whole: Parsed, fields: seq<Field>, rest: seq<byte>, limit: Option<nat>, maxAlloc: nat,
                    f: Field, used: nat)
    requires ReadSoFar(whole, fields, rest, limit, maxAlloc) && NextField(rest, limit, maxAlloc) == One(f, used)
    ensures ReadSoFar(whole, fields + [f], rest[used..], limit, maxAlloc)
  {
    var p := Parse(rest[used..], limit, maxAlloc);
    assert fields + ([f] + p.fields) == fields + [f] + p.fields;
  }

  /** The parse loop itself, advancing through the input. */
  method ParseMessage(s: seq<byte>, limit: Option<nat>, maxAlloc: nat) returns (fields: seq<Field>, end: End)
    ensures Parsed(fields, end) == Parse(s, limit, maxAlloc)
  {
    ghost var whole := Parse(s, limit, maxAlloc);
    var rest := s;
    fields := [];
    while true
      invariant ReadSoFar(whole, fields, rest, limit, maxAlloc)
      decreases |rest|
    {
      match NextField(rest, limit, maxAlloc) {
        case Stop(e) =>
          end := e;
          return;
        case One(f, used) =>
          ReadOneMore(whole, fields, rest, limit, maxAlloc, f, used);
          fields, rest := fields + [f], rest[used..];
      }
    }
  }

  // ----- the two parsers -----

  /** The two parsers name a field alike exactly when its key fits in 63 bits. */
  lemma FieldNumbersAgree(key: nat)
    requires key < WORD
    ensures FieldNumber(key, LIMIT) == FieldNumber(key, None) <==> key < WORD / 2
  {
  }

  /** Ten bytes that all carry the continuation bit: more than the limited decoder reads. */
  predicate TenOn(s: seq<byte>) { |s| >= 10 && forall i :: 0 <= i < 10 ==> s[i] >= 128 }

  /** Both parsers make the same of the message: wherever a key, a number or a length begins with ten
      continuation bytes, the unlimited parser finds the field malformed too; and keys and numbers stay
      below 2^63. */
  predicate Uniform(s: seq<byte>, maxAlloc: nat)
    decreases |s|
  {
    if TenOn(s) then NextField(s, None, maxAlloc) == Stop(Broken)
    else
      match Decode(s, None)
      case Eof => true
      case TooLong => true
      case Value(key, used) =>
        var rest := s[used..];
        if TenOn(rest) && (key % 8 == 0 || key % 8 == 2) then ReadContent(rest, key % 8, None, maxAlloc) == Fail(Broken)
        else
          match ReadContent(rest, key % 8, None, maxAlloc)
          case Fail(_) => true
          case Got(c, more) =>
            used > 0 && key < WORD / 2 && (c.Number? ==> c.value < WORD / 2) && Uniform(rest[more..], maxAlloc)
  }

  lemma LimitedStops(s: seq<byte>)
    requires TenOn(s)
    ensures Decode(s, LIMIT) == TooLong
  {
    VarintLenNone(s[..10]);
    assert s[..|s|] == s;
  }

  /** A number as the limited parser returns it. */
  function AsSigned(c: Content): Content { if c.Number? && c.value >= WORD / 2 then Number(c.value - WORD) else c }

  /** The content after a key: where it begins with ten continuation bytes the limited parser stops. */
  lemma ContentExactly(s: seq<byte>, wireType: nat, maxAlloc: nat)
    ensures var r, r' := ReadContent(s, wireType, None, maxAlloc), ReadContent(s, wireType, LIMIT, maxAlloc);
            r' == if TenOn(s) && (wireType == 0 || wireType == 2) then Fail(Broken)
                  else if r.Got? then Got(AsSigned(r.content), r.used) else r
  {
    DecodersAgree(s);
    if TenOn(s) { LimitedStops(s); }
  }

  /** The two parsers agree on a message if and only if it is uniform, on every input. */
  lemma {:induction false} ParsersAgreeExactly(s: seq<byte>, maxAlloc: nat)
    ensures Parse(s, None, maxAlloc) == Parse(s, LIMIT, maxAlloc) <==> Uniform(s, maxAlloc)
    decreases |s|, 2
  {
    if TenOn(s) {
      LimitedStops(s);
      assert NextField(s, LIMIT, maxAlloc) == Stop(Broken);
    } else {
      DecodersAgree(s);
      var d := Decode(s, None);
      if d.Value? {
        ContentExactly(s[d.used..], d.bits % 8, maxAlloc);
        var content := ReadContent(s[d.used..], d.bits % 8, None, maxAlloc);
        if content.Got? && ReadContent(s[d.used..], d.bits % 8, LIMIT, maxAlloc).Got? {
          SameContent(s, d.bits, d.used, content.content, content.used, maxAlloc);
        }
      }
    }
  }

  lemma NextOne(s: seq<byte>, limit: Option<nat>, key: nat, used: nat, c: Content, more: nat, maxAlloc: nat)
    requires Decode(s, limit) == Value(key, used)
    requires ReadContent(s[used..], key % 8, limit, maxAlloc) == Got(c, more)
    ensures 0 < used <= |s| && used + more <= |s|
    ensures NextField(s, limit, maxAlloc) == One(Field(FieldNumber(key, limit), c), used + more)
  {
  }

  lemma ParseNext(s: seq<byte>, limit: Option<nat>, f: Field, n: nat, maxAlloc: nat)
    requires NextField(s, limit, maxAlloc) == One(f, n)
    ensures var rest := Parse(s[n..], limit, maxAlloc); Parse(s, limit, maxAlloc) == Parsed([f] + rest.fields, rest.end)
  {
  }

  /** One field both parsers read: they agree on the message if they name it alike, read the same value and
      agree on the rest. */
  lemma SameContent(s: seq<byte>, key: nat, used: nat, c: Content, more: nat, maxAlloc: nat)
    requires Decode(s, None) == Decode(s, LIMIT) == Value(key, used)
    requires ReadContent(s[used..], key % 8, None, maxAlloc) == Got(c, more)
    requires ReadContent(s[used..], key % 8, LIMIT, maxAlloc) == Got(AsSigned(c), more)
    ensures 0 < used <= |s| && used + more <= |s| && s[used..][more..] == s[used + more..]
    ensures Parse(s, None, maxAlloc) == Parse(s, LIMIT, maxAlloc) <==>
              key < WORD / 2 && (c.Number? ==> c.value < WORD / 2) && Uniform(s[used..][more..], maxAlloc)
    decreases |s|, 1
  {
    NextOne(s, None, key, used, c, more, maxAlloc);
    NextOne(s, LIMIT, key, used, AsSigned(c), more, maxAlloc);
    assert s[used..][more..] == s[used + more..];
    KeyFits(s, key, used);
    FieldNumbersAgree(key);
    SameStep(s, Field(FieldNumber(key, None), c), Field(FieldNumber(key, LIMIT), AsSigned(c)), used + more, maxAlloc);
  }

  lemma SameStep(s: seq<byte>, f: Field, g: Field, n: nat, maxAlloc: nat)
    requires NextField(s, None, maxAlloc) == One(f, n) && NextField(s, LIMIT, maxAlloc) == One(g, n)
    ensures Parse(s, None, maxAlloc) == Parse(s, LIMIT, maxAlloc) <==> f == g && Uniform(s[n..], maxAlloc)
    decreases |s|, 0
  {
    var rest := s[n..];
    ParseNext(s, None, f, n, maxAlloc);
    ParseNext(s, LIMIT, g, n, maxAlloc);
    ParsersAgreeExactly(rest, maxAlloc);
    SameListsOnly(Parse(s, None, maxAlloc), f, Parse(rest, None, maxAlloc),
                  Parse(s, LIMIT, maxAlloc), g, Parse(rest, LIMIT, maxAlloc));
  }

  lemma KeyFits(s: seq<byte>, key: nat, used: nat)
    requires Decode(s, None) == Value(key, used)
    ensures key < WORD
  {
  }

  lemma SameListsOnly(p: Parsed, f: Field, p1: Parsed, q: Parsed, g: Field, q1: Parsed)
    requires p == Parsed([f] + p1.fields, p1.end) && q == Parsed([g] + q1.fields, q1.end)
    ensures p == q <==> f == g && p1 == q1
  {
    assert p.fields[0] == f && q.fields[0] == g && p.fields[1..] == p1.fields && q.fields[1..] == q1.fields;
  }

  /** Every field with a negative number: to the unlimited parser it is that number plus 2^64. */
  lemma ParsersReadSignsApart(n: nat, v: int, maxAlloc: nat)
    requires n * 8 < WORD / 2 && -(WORD / 2) <= v < 0
    ensures var s := EncodeMessage([Field(n, Number(v))]);
            && Parse(s, LIMIT, maxAlloc) == Parsed([Field(n, Number(v))], Clean)
            && Parse(s, None, maxAlloc) == Parsed([Field(n, Number(v + WORD))], Clean)
  {
    ParseInvertsEncode([Field(n, Number(v))], LIMIT, maxAlloc);
    ParseInvertsEncode([Field(n, Number(v + WORD))], None, maxAlloc);
    SameWord(n, v);
  }

  lemma SameWord(n: nat, v: int)
    requires -(WORD / 2) <= v < 0
    ensures EncodeMessage([Field(n, Number(v))]) == EncodeMessage([Field(n, Number(v + WORD))])
  {
    WordReads(v, LIMIT);
    WordReads(v + WORD, None);
    assert EncodeField(Field(n, Number(v))) == EncodeField(Field(n, Number(v + WORD)));
    assert [Field(n, Number(v))][1..] == [] && [Field(n, Number(v + WORD))][1..] == [];
  }

  /** A message on which they differ: ten continuation bytes are a clean end to one, malformed to the other. */
  lemma ParsersDiffer(maxAlloc: nat)
    ensures var s := seq(10, _ => 128);
            Parse(s, None, maxAlloc) == Parsed([], Clean) && Parse(s, LIMIT, maxAlloc) == Parsed([], Broken)
  {
    var s: seq<byte> := seq(10, _ => 128);
    LimitedStops(s);
    VarintLenNone(s);
  }

  // ----- round trip -----

  function WireType(c: Content): nat {
    match c
    case Number(_) => 0
    case Fixed64(_) => 1
    case Payload(_) => 2
    case Fixed32(_) => 5
  }

  function EncodeContent(c: Content): seq<byte> {
    match c
    case Number(v) => Encode(v % WORD)
    case Fixed64(v) => ToLittleEndian(v, 8)
    case Payload(b) => Encode(|b|) + b
    case Fixed32(v) => ToLittleEndian(v, 4)
  }

  /** The integers a decoder can return. */
  predicate Readable(v: int, limit: Option<nat>) {
    if limit.Some? then -(WORD / 2) <= v < WORD / 2 else 0 <= v < WORD
  }

  predicate ContentFits(c: Content, limit: Option<nat>, maxAlloc: nat) {
    match c
    case Number(v) => Readable(v, limit)
    case Fixed64(v) => v < WORD
    case Payload(b) => |b| < WORD / 2 && |b| <= maxAlloc
    case Fixed32(v) => v < 0x1_0000_0000
  }

  /** What a parser can give back. */
  predicate Representable(f: Field, limit: Option<nat>, maxAlloc: nat) {
    ContentFits(f.content, limit, maxAlloc) && Readable(f.number * 8 + WireType(f.content), limit)
  }

  /** The key as a word. */
  function KeyOf(f: Field): nat { (f.number * 8 + WireType(f.content)) % WORD }

  function EncodeField(f: Field): seq<byte> { Encode(KeyOf(f)) + EncodeContent(f.content) }

  function EncodeMessage(fields: seq<Field>): seq<byte> {
    if fields == [] then [] else EncodeField(fields[0]) + EncodeMessage(fields[1..])
  }

  function Pow256(n: nat): nat { if n == 0 then 1 else 256 * Pow256(n - 1) }

  lemma {:induction false} LittleEndianInverts(v: nat, n: nat)
    requires v < Pow256(n)
    ensures FromLittleEndian(ToLittleEndian(v, n)) == v
  {
    if n > 0 {
      LittleEndianInverts(v / 256, n - 1);
      assert ToLittleEndian(v, n)[1..] == ToLittleEndian(v / 256, n - 1);
    }
  }

  lemma PayloadInverts(b: seq<byte>, tail: seq<byte>, limit: Option<nat>, maxAlloc: nat)
    requires |b| < WORD / 2 && |b| <= maxAlloc && (limit == None || limit == LIMIT)
    ensures ReadContent(Encode(|b|) + b + tail, 2, limit, maxAlloc) == Got(Payload(b), |Encode(|b|) + b|)
  {
    Middle(Encode(|b|), b, tail);
    DecodeInvertsEncode(|b|, b + tail, limit);
    PayloadAt(Encode(|b|), b, tail, maxAlloc);
  }

  lemma Middle(e: seq<byte>, b: seq<byte>, tail: seq<byte>)
    ensures e + b + tail == e + (b + tail) && (e + b + tail)[|e|..|e| + |b|] == b
  {
  }

  lemma PayloadAt(e: seq<byte>, b: seq<byte>, tail: seq<byte>, maxAlloc: nat)
    requires |b| < WORD / 2 && |b| <= maxAlloc
    ensures ReadPayload(e + b + tail, Value(|b|, |e|), maxAlloc) == Got(Payload(b), |e + b|)
  {
    Middle(e, b, tail);
  }

  lemma ContentInverts(c: Content, tail: seq<byte>, limit: Option<nat>, maxAlloc: nat)
    requires ContentFits(c, limit, maxAlloc) && (limit == None || limit == LIMIT)
    ensures ReadContent(EncodeContent(c) + tail, WireType(c), limit, maxAlloc) == Got(c, |EncodeContent(c)|)
  {
    match c
    case Number(v) =>
      WordReads(v, limit);
      DecodeInvertsEncode(v % WORD, tail, limit);
    case Fixed64(v) =>
      assert Pow256(8) == WORD by { assert Pow256(4) == 0x1_0000_0000; }
      LittleEndianInverts(v, 8);
      assert (ToLittleEndian(v, 8) + tail)[..8] == ToLittleEndian(v, 8);
    case Payload(b) => PayloadInverts(b, tail, limit, maxAlloc);
    case Fixed32(v) =>
      assert Pow256(4) == 0x1_0000_0000;
      LittleEndianInverts(v, 4);
      assert (ToLittleEndian(v, 4) + tail)[..4] == ToLittleEndian(v, 4);
  }

  /** An integer a decoder can return is what it makes of its own word. */
  lemma WordReads(v: int, limit: Option<nat>)
    requires Readable(v, limit)
    ensures 0 <= v % WORD < WORD && Reading(v % WORD, limit) == v && v % WORD == if v < 0 then v + WORD else v
  {
    if v < 0 {
      ModUnique(v, WORD, -1, v + WORD);
    } else {
      ModUnique(v, WORD, 0, v);
    }
  }

  lemma KeySplits(f: Field, limit: Option<nat>, maxAlloc: nat)
    requires Representable(f, limit, maxAlloc)
    ensures KeyOf(f) < WORD && KeyOf(f) % 8 == WireType(f.content) && FieldNumber(KeyOf(f), limit) == f.number
  {
    WordReads(f.number * 8 + WireType(f.content), limit);
  }

  lemma FieldInverts(f: Field, tail: seq<byte>, limit: Option<nat>, maxAlloc: nat)
    requires (limit == None || limit == LIMIT) && Representable(f, limit, maxAlloc)
    ensures NextField(EncodeField(f) + tail, limit, maxAlloc) == One(f, |EncodeField(f)|)
  {
    var key, c := KeyOf(f), EncodeContent(f.content);
    var s, n := EncodeField(f) + tail, |Encode(key)|;
    KeySplits(f, limit, maxAlloc);
    assert s == Encode(key) + (c + tail);
    DecodeInvertsEncode(key, c + tail, limit);
    assert s[n..] == c + tail;
    ContentInverts(f.content, tail, limit, maxAlloc);
  }

  /** What follows whole fields is parsed as if it stood alone. */
  lemma {:induction false} ParseGoesOn(fields: seq<Field>, tail: seq<byte>, limit: Option<nat>, maxAlloc: nat)
    requires limit == None || limit == LIMIT
    requires forall i :: 0 <= i < |fields| ==> Representable(fields[i], limit, maxAlloc)
    ensures var rest := Parse(tail, limit, maxAlloc);
            Parse(EncodeMessage(fields) + tail, limit, maxAlloc) == Parsed(fields + rest.fields, rest.end)
  {
    if fields == [] {
      assert [] + tail == tail;
    } else {
      var f, rest := fields[0], fields[1..];
      var e, more := EncodeField(f), EncodeMessage(rest) + tail;
      FieldInverts(f, more, limit, maxAlloc);
      ParseNext(e + more, limit, f, |e|, maxAlloc);
      assert (e + more)[|e|..] == more;
      ParseGoesOn(rest, tail, limit, maxAlloc);
      GoesOnBehind(fields, e, EncodeMessage(rest), tail, Parse(tail, limit, maxAlloc).fields);
    }
  }

  lemma GoesOnBehind(fields: seq<Field>, e: seq<byte>, more: seq<byte>, tail: seq<byte>, read: seq<Field>)
    requires fields != []
    ensures e + more + tail == e + (more + tail)
    ensures [fields[0]] + (fields[1..] + read) == fields + read
  {
  }

  /** Each parser inverts the encoder on every list of fields it can represent at all. */
  lemma ParseInvertsEncode(fields: seq<Field>, limit: Option<nat>, maxAlloc: nat)
    requires limit == None || limit == LIMIT
    requires forall i :: 0 <= i < |fields| ==> Representable(fields[i], limit, maxAlloc)
    ensures Parse(EncodeMessage(fields), limit, maxAlloc) == Parsed(fields, Clean)
  {
    ParseGoesOn(fields, [], limit, maxAlloc);
    assert EncodeMessage(fields) + [] == EncodeMessage(fields) && fields + [] == fields;
    assert Parse([], limit, maxAlloc) == Parsed([], Clean);
  }

  // ----- truncated and malformed messages -----

  /** A varint cut short reads as the end of the input. */
  lemma CutVarint(v: nat, k: nat, limit: Option<nat>)
    requires v < WORD && k < |Encode(v)| && (limit == None || limit == LIMIT)
    ensures Decode(Encode(v)[..k], limit) == Eof
  {
    EncodeFitsTenBytes(v);
    VarintLenPrefix(Encode(v), k);
  }

  lemma CutPayload(b: seq<byte>, k: nat, limit: Option<nat>, maxAlloc: nat)
    requires |b| < WORD / 2 && |b| <= maxAlloc && (limit == None || limit == LIMIT)
    requires k < |Encode(|b|) + b|
    ensures ReadContent((Encode(|b|) + b)[..k], 2, limit, maxAlloc) == Fail(Broken)
  {
    var e := Encode(|b|);
    if k < |e| {
      assert (e + b)[..k] == e[..k];
      CutVarint(|b|, k, limit);
    } else {
      assert (e + b)[..k] == e + b[..k - |e|];
      DecodeInvertsEncode(|b|, b[..k - |e|], limit);
    }
  }

  /** Content cut short is malformed, whatever its wire type. */
  lemma CutContent(c: Content, k: nat, limit: Option<nat>, maxAlloc: nat)
    requires ContentFits(c, limit, maxAlloc) && (limit == None || limit == LIMIT) && k < |EncodeContent(c)|
    ensures ReadContent(EncodeContent(c)[..k], WireType(c), limit, maxAlloc) == Fail(Broken)
  {
    match c
    case Number(v) =>
      WordReads(v, limit);
      CutVarint(v % WORD, k, limit);
    case Payload(b) => CutPayload(b, k, limit, maxAlloc);
    case _ =>
  }

  lemma CutField(f: Field, k: nat, limit: Option<nat>, maxAlloc: nat)
    requires (limit == None || limit == LIMIT) && Representable(f, limit, maxAlloc) && k < |EncodeField(f)|
    ensures var end := if k < |Encode(KeyOf(f))| then Clean else Broken;
            NextField(EncodeField(f)[..k], limit, maxAlloc) == Stop(end)
  {
    var e, c := Encode(KeyOf(f)), EncodeContent(f.content);
    KeySplits(f, limit, maxAlloc);
    if k < |e| {
      assert (e + c)[..k] == e[..k];
      CutVarint(KeyOf(f), k, limit);
    } else {
      assert (e + c)[..k] == e + c[..k - |e|];
      DecodeInvertsEncode(KeyOf(f), c[..k - |e|], limit);
      assert (e + c[..k - |e|])[|e|..] == c[..k - |e|];
      CutContent(f.content, k - |e|, limit, maxAlloc);
    }
  }

  /** A message cut off inside a field: all fields before it are read, and the end is malformed if and only if
      the cut comes after the whole key; a cut inside a key goes unnoticed. */
  lemma TruncationExactly(fields: seq<Field>, f: Field, k: nat, limit: Option<nat>, maxAlloc: nat)
    requires limit == None || limit == LIMIT
    requires forall i :: 0 <= i < |fields| ==> Representable(fields[i], limit, maxAlloc)
    requires Representable(f, limit, maxAlloc) && k < |EncodeField(f)|
    ensures Parse(EncodeMessage(fields) + EncodeField(f)[..k], limit, maxAlloc)
              == Parsed(fields, if k < |Encode(KeyOf(f))| then Clean else Broken)
  {
    CutField(f, k, limit, maxAlloc);
    ParseGoesOn(fields, EncodeField(f)[..k], limit, maxAlloc);
    assert fields + [] == fields;
  }

  /** After whole fields, a key whose low three bits name no supported wire type is malformed. */
  lemma UnsupportedIsBroken(fields: seq<Field>, key: nat, tail: seq<byte>, limit: Option<nat>, maxAlloc: nat)
    requires limit == None || limit == LIMIT
    requires forall i :: 0 <= i < |fields| ==> Representable(fields[i], limit, maxAlloc)
    requires key < WORD && key % 8 in {3, 4, 6, 7}
    ensures Parse(EncodeMessage(fields) + (Encode(key) + tail), limit, maxAlloc) == Parsed(fields, Broken)
  {
    DecodeInvertsEncode(key, tail, limit);
    ParseGoesOn(fields, Encode(key) + tail, limit, maxAlloc);
    assert fields + [] == fields;
  }

  /** After whole fields, an announced length that cannot be allocated panics before any byte is looked at. */
  lemma HugeLengthCrashes(fields: seq<Field>, key: nat, length: nat, tail: seq<byte>, limit: Option<nat>, maxAlloc: nat)
    requires limit == None || limit == LIMIT
    requires forall i :: 0 <= i < |fields| ==> Representable(fields[i], limit, maxAlloc)
    requires key < WORD && key % 8 == 2 && length < WORD && (length > maxAlloc || length >= WORD / 2)
    ensures Parse(EncodeMessage(fields) + (Encode(key) + (Encode(length) + tail)), limit, maxAlloc)
              == Parsed(fields, Crash)
  {
    var rest := Encode(length) + tail;
    DecodeInvertsEncode(length, tail, limit);
    DecodeInvertsEncode(key, rest, limit);
    assert (Encode(key) + rest)[|Encode(key)|..] == rest;
    ParseGoesOn(fields, Encode(key) + rest, limit, maxAlloc);
    assert fields + [] == fields;
  }
}
