/** HTTP/2 frames on the wire (section 4.1 of RFC 7540) and the length-prefixed gRPC message. */
module Frames {
  import opened Bytes

  const DATA: byte := 0
  const HEADERS: byte := 1
  const RST_STREAM: byte := 3
  const SETTINGS: byte := 4
  const PING: byte := 6
  const GOAWAY: byte := 7

  const HEADER_LEN := 9

  datatype Frame = Frame(kind: byte, flags: byte, streamId: nat, payload: seq<byte>)

  /** Big-endian, as binary.BigEndian.PutUint32. */
  function Put32(v: nat): seq<byte> { [v / 256 / 256 / 256 % 256, v / 256 / 256 % 256, v / 256 % 256, v % 256] }

  function Get32(s: seq<byte>): nat
    requires |s| >= 4
  {
    0x100_0000 * s[0] as int + 0x1_0000 * s[1] as int + 0x100 * s[2] as int + s[3] as int
  }

  /** A string of bytes read as one number, the most significant byte first. */
  function Number(s: seq<byte>): nat {
    if s == [] then 0 else 256 * Number(s[..|s| - 1]) + s[|s| - 1]
  }

  lemma NumberOfThree(s: seq<byte>)
    requires |s| == 3
    ensures Number(s) == Get24(s)
  {
    assert s[..2][..1] == s[..1] && s[..1][..0] == [] && Number(s[..1]) == s[0];
    assert Number(s[..2]) == 256 * s[0] as int + s[1] as int;
  }

  lemma NumberOfFour(s: seq<byte>)
    requires |s| == 4
    ensures Number(s) == Get32(s)
  {
    NumberOfThree(s[..3]);
  }

  lemma Remainder(q: nat, low: nat)
    requires low < 0x1_0000_0000
    ensures (0x1_0000_0000 * q + low) % 0x1_0000_0000 == low
  {
  }

  lemma Get32OfPut32(v: nat, tail: seq<byte>)
    ensures Get32(Put32(v) + tail) == v % 0x1_0000_0000
  {
    var a := v / 256;
    var b := a / 256;
    var c := b / 256;
    var low := 0x100_0000 * (c % 256) + 0x1_0000 * (b % 256) + 0x100 * (a % 256) + v % 256;
    assert v == 0x1_0000_0000 * (c / 256) + low;
    Remainder(c / 256, low);
  }

  function Get24(s: seq<byte>): nat
    requires |s| >= 3
  {
    0x1_0000 * s[0] as int + 0x100 * s[1] as int + s[2] as int
  }

  function Put24(n: nat): seq<byte> { [n / 256 / 256 % 256, n / 256 % 256, n % 256] }

  lemma Get24OfPut24(n: nat, tail: seq<byte>)
    ensures Get24(Put24(n) + tail) == n % 0x100_0000
  {
    var a := n / 256;
    var b := a / 256;
    var low := 0x1_0000 * (b % 256) + 0x100 * (a % 256) + n % 256;
    assert n == 0x100_0000 * (b / 256) + low;
    assert (0x100_0000 * (b / 256) + low) % 0x100_0000 == low;
  }

  /** The nine header bytes. */
  function EncodeHeader(f: Frame): seq<byte> {
    Put24(|f.payload|) + [f.kind, f.flags] + Put32(f.streamId)
  }

  function EncodeFrame(f: Frame): seq<byte> { EncodeHeader(f) + f.payload }

  function EncodeFrames(frames: seq<Frame>): seq<byte> {
    if frames == [] then [] else EncodeFrame(frames[0]) + EncodeFrames(frames[1..])
  }

  /** readFrameHeader and readFramePayload; None when the connection ends first. */
  function ParseFrame(s: seq<byte>): (r: Option<(Frame, seq<byte>)>)
    ensures r.Some? ==> |r.value.1| < |s|
  {
    if |s| < HEADER_LEN then None
    else
      var length := Get24(s);
      var id := Get32(s[5..9]) % 0x8000_0000;
      if |s| - HEADER_LEN < length then None
      else Some((Frame(s[3], s[4], id, s[9..9 + length]), s[9 + length..]))
  }

  function ParseFrames(s: seq<byte>): seq<Frame>
    decreases |s|
  {
    match ParseFrame(s)
    case None => []
    case Some((f, rest)) => [f] + ParseFrames(rest)
  }

  /** What the 24-bit length field and the 31-bit stream identifier can carry. */
  predicate Fits(f: Frame) { |f.payload| < 0x100_0000 && f.streamId < 0x8000_0000 }

  lemma HeaderFields(f: Frame, tail: seq<byte>)
    ensures var s := EncodeFrame(f) + tail;
            && |s| == 9 + |f.payload| + |tail|
            && Get24(s) == |f.payload| % 0x100_0000
            && s[3] == f.kind && s[4] == f.flags
            && Get32(s[5..9]) == f.streamId % 0x1_0000_0000
            && s[9..] == f.payload + tail
  {
    var s, n := EncodeFrame(f) + tail, |f.payload|;
    assert s[5..9] == Put32(f.streamId) + [];
    Get32OfPut32(f.streamId, []);
    assert s == Put24(n) + s[3..];
    Get24OfPut24(n, s[3..]);
  }

  /** The layout of section 4.1 of RFC 7540: a 24-bit length, the type, the flags, a 32-bit identifier and the
      payload, with numbers in network order. */
  lemma FrameLayout(f: Frame)
    ensures var s := EncodeFrame(f);
            && |s| == 9 + |f.payload|
            && Number(s[0..3]) == |f.payload| % 0x100_0000
            && s[3] == f.kind && s[4] == f.flags
            && Number(s[5..9]) == f.streamId % 0x1_0000_0000
            && s[9..] == f.payload
  {
    HeaderFields(f, []);
    var s := EncodeFrame(f);
    assert s + [] == s && Get24(s[0..3]) == Get24(s);
    NumberOfThree(s[0..3]);
    NumberOfFour(s[5..9]);
  }

  /** What is read off any bytes: nothing exactly when they end before the header or the payload it announces
      does; otherwise their leading fields, and the rest of the bytes. */
  lemma ParseFrameExactly(s: seq<byte>)
    ensures ParseFrame(s).None? <==> |s| < 9 || |s| < 9 + Number(s[0..3])
    ensures ParseFrame(s).Some? ==>
              var (f, rest) := ParseFrame(s).value;
              && |f.payload| == Number(s[0..3]) && f.kind == s[3] && f.flags == s[4]
              && f.streamId == Number(s[5..9]) % 0x8000_0000 && s == s[..9] + f.payload + rest
  {
    if |s| >= 9 {
      NumberOfThree(s[0..3]);
      NumberOfFour(s[5..9]);
      assert Get24(s[0..3]) == Get24(s);
    }
  }

  lemma Put24OfGet24(s: seq<byte>)
    requires |s| == 3
    ensures Put24(Get24(s)) == s && Get24(s) < 0x100_0000
  {
    var n := Get24(s);
    assert n / 256 == 0x100 * s[0] as int + s[1] as int && n / 256 / 256 == s[0];
  }

  lemma Put32OfGet32(s: seq<byte>)
    requires |s| == 4
    ensures Put32(Get32(s)) == s && Get32(s) < 0x1_0000_0000
    ensures Get32(s) < 0x8000_0000 <==> s[0] < 128
  {
    var n := Get32(s);
    assert n / 256 == 0x1_0000 * s[0] as int + 0x100 * s[1] as int + s[2] as int;
    assert n / 256 / 256 == 0x100 * s[0] as int + s[1] as int && n / 256 / 256 / 256 == s[0];
  }

  lemma InPieces(s: seq<byte>, n: nat)
    requires 9 + n <= |s|
    ensures s == s[0..3] + [s[3], s[4]] + s[5..9] + s[9..9 + n] + s[9 + n..]
  {
  }

  /** Writing what was read gives back the bytes, exactly when the reserved bit was clear. */
  lemma EncodeOfParse(s: seq<byte>)
    requires ParseFrame(s).Some?
    ensures var (f, rest) := ParseFrame(s).value;
            Fits(f) && (EncodeFrame(f) + rest == s <==> s[5] < 128)
  {
    var (f, rest) := ParseFrame(s).value;
    var id := Get32(s[5..9]);
    assert Get24(s[0..3]) == Get24(s) && s[5..9][0] == s[5];
    Put24OfGet24(s[0..3]);
    Put32OfGet32(s[5..9]);
    if s[5] < 128 {
      InPieces(s, |f.payload|);
    } else {
      IdSurvives(f, rest);
      assert f.streamId < id;
    }
  }

  lemma IdSurvives(f: Frame, tail: seq<byte>)
    requires Fits(f)
    ensures |EncodeFrame(f) + tail| >= 9 && Get32((EncodeFrame(f) + tail)[5..9]) == f.streamId
  {
    HeaderFields(f, tail);
  }

  /** What the parser makes of any encoded frame: length and identifier cut to their fields. */
  lemma ParseOfEncode(f: Frame, tail: seq<byte>)
    requires f.streamId < 0x1_0000_0000
    ensures var n := |f.payload| % 0x100_0000;
            ParseFrame(EncodeFrame(f) + tail) ==
              Some((f.(streamId := f.streamId % 0x8000_0000, payload := f.payload[..n]), f.payload[n..] + tail))
  {
    HeaderFields(f, tail);
    var s, n := EncodeFrame(f) + tail, |f.payload| % 0x100_0000;
    assert n <= |f.payload|;
    assert s[9..9 + n] == s[9..][..n] == f.payload[..n];
    assert s[9 + n..] == s[9..][n..] == f.payload[n..] + tail;
  }

  /** A frame survives the wire exactly when its length and stream identifier fit their fields. */
  lemma FrameRoundTrip(f: Frame, tail: seq<byte>)
    requires f.streamId < 0x1_0000_0000
    ensures ParseFrame(EncodeFrame(f) + tail) == Some((f, tail)) <==> Fits(f)
  {
    ParseOfEncode(f, tail);
    var n := |f.payload| % 0x100_0000;
    if |f.payload| >= 0x100_0000 {
      assert |f.payload[..n]| < |f.payload|;
    } else if f.streamId >= 0x8000_0000 {
      assert f.streamId % 0x8000_0000 < f.streamId;
    } else {
      assert n == |f.payload| && f.payload[..n] == f.payload && f.payload[n..] + tail == tail;
    }
  }

  /** Every list of frames that fit is recovered from the concatenated output. */
  lemma {:induction false} FramesRoundTrip(frames: seq<Frame>)
    requires forall i :: 0 <= i < |frames| ==> Fits(frames[i])
    ensures ParseFrames(EncodeFrames(frames)) == frames
  {
    if frames != [] {
      FramesRoundTrip(frames[1..]);
      NextFrame(frames[0], EncodeFrames(frames[1..]));
      assert frames == [frames[0]] + frames[1..];
    }
  }

  lemma NextFrame(f: Frame, tail: seq<byte>)
    requires Fits(f)
    ensures ParseFrames(EncodeFrame(f) + tail) == [f] + ParseFrames(tail)
  {
    FrameRoundTrip(f, tail);
  }

  // ----- writing -----

  /** The connection; a write either takes everything or fails having taken a prefix. */
  class Conn {
    var sent: seq<byte>
    ghost var failures: nat  // how many writes have failed

    method Write(p: seq<byte>) returns (ok: bool)
      modifies this
      ensures ok ==> sent == old(sent) + p
      ensures !ok ==> old(sent) <= sent <= old(sent) + p
      ensures failures == old(failures) + if ok then 0 else 1
    {
      ok := *;
      var n := |p|;
      if !ok {
        n :| 0 <= n <= |p|;
        failures := failures + 1;
      }
      sent := sent + p[..n];
    }
  }

  lemma Shifts(v: nat)
    ensures v / 256 / 256 == v / 0x1_0000 && v / 256 / 256 / 256 == v / 0x100_0000
  {
  }

  /** The header array, filled cell by cell. */
  method FillHeader(length: nat, kind: byte, flags: byte, streamId: nat) returns (buf: array<byte>)
    ensures fresh(buf) && buf[..] == Put24(length) + [kind, flags] + Put32(streamId)
  {
    Shifts(length);
    Shifts(streamId);
    buf := new byte[HEADER_LEN];
    buf[0], buf[1], buf[2] := length / 0x1_0000 % 256, length / 0x100 % 256, length % 256;
    buf[3] := kind;
    buf[4] := flags;
    buf[5], buf[6] := streamId / 0x100_0000 % 256, streamId / 0x1_0000 % 256;
    buf[7], buf[8] := streamId / 0x100 % 256, streamId % 256;
  }

  method WriteDataFrame(w: Conn, streamId: nat, flags: byte, body: seq<byte>) returns (ok: bool)
    modifies w
    ensures var frame := EncodeFrame(Frame(0, flags, streamId, body));
            && (ok ==> w.sent == old(w.sent) + frame)
            && (!ok ==> old(w.sent) <= w.sent <= old(w.sent) + frame)
    ensures ok <==> w.failures == old(w.failures)
  {
    var buf := FillHeader(|body|, DATA, flags, streamId);
    ok := w.Write(buf[..]);
    if ok && |body| > 0 {
      ok := w.Write(body);
    }
  }

  method WriteHeadersFrame(w: Conn, streamId: nat, flags: byte, block: seq<byte>) returns (ok: bool)
    modifies w
    ensures var frame := EncodeFrame(Frame(1, flags, streamId, block));
            && (ok ==> w.sent == old(w.sent) + frame)
            && (!ok ==> old(w.sent) <= w.sent <= old(w.sent) + frame)
    ensures ok <==> w.failures == old(w.failures)
  {
    var buf := FillHeader(|block|, HEADERS, flags, streamId);
    ok := w.Write(buf[..]);
    if ok {
      ok := w.Write(block);
    }
  }

  method WriteSettingsFrame(w: Conn, flags: byte, payload: seq<byte>) returns (ok: bool)
    modifies w
    ensures var frame := EncodeFrame(Frame(4, flags, 0, payload));
            && (ok ==> w.sent == old(w.sent) + frame)
            && (!ok ==> old(w.sent) <= w.sent <= old(w.sent) + frame)
    ensures ok <==> w.failures == old(w.failures)
  {
    var buf := FillHeader(|payload|, SETTINGS, flags, 0);
    ok := w.Write(buf[..]);
    if ok && |payload| > 0 {
      ok := w.Write(payload);
    }
  }

  /** A ping payload must be eight bytes; otherwise nothing is sent. */
  method WritePingFrame(w: Conn, flags: byte, payload: seq<byte>) returns (ok: bool)
    modifies w
    ensures |payload| != 8 ==> !ok && w.sent == old(w.sent) && w.failures == old(w.failures)
    ensures var frame := EncodeFrame(Frame(6, flags, 0, payload));
            && (ok ==> w.sent == old(w.sent) + frame)
            && (!ok ==> old(w.sent) <= w.sent <= old(w.sent) + frame)
    ensures ok <==> |payload| == 8 && w.failures == old(w.failures)
  {
    if |payload| != 8 { return false; }
    var buf := FillHeader(|payload|, PING, flags, 0);
    ok := w.Write(buf[..]);
    if ok {
      ok := w.Write(payload);
    }
  }

  // ----- gRPC message -----

  datatype Message = Ok(bytes: seq<byte>) | Invalid | Panic

  /** Flag byte 0, the length truncated to 32 bits, the payload. */
  function EncodeGrpc(payload: seq<byte>): seq<byte> { [0] + Put32(|payload|) + payload }

  /** DecodeGrpcPayload on a slice of length |data| with `spare` more bytes of capacity behind it:
      the bound 5 + length is computed in 32 bits, and slicing may run into the spare capacity. */
  function DecodeGrpc(data: seq<byte>, spare: seq<byte>): Message {
    if |data| < 5 then Invalid
    else if data[0] != 0 then Invalid
    else
      var bound := (5 + Get32(data[1..5])) % 0x1_0000_0000;
      if bound < 5 || bound > |data| + |spare| then Panic else Ok((data + spare)[5..bound])
  }

  /** What is decoded from any bytes: an error exactly for a short message or one with the compressed flag, a
      panic exactly where the announced end overflows 32 bits or lies beyond the capacity, and otherwise the
      announced number of bytes behind the prefix. */
  lemma DecodeGrpcExactly(data: seq<byte>, spare: seq<byte>)
    ensures DecodeGrpc(data, spare) == Invalid <==> |data| < 5 || data[0] != 0
    ensures |data| >= 5 && data[0] == 0 ==>
              var length, all := Number(data[1..5]), data + spare;
              && (DecodeGrpc(data, spare) == Panic <==> 5 + length >= 0x1_0000_0000 || 5 + length > |all|)
              && (5 + length < 0x1_0000_0000 && 5 + length <= |all| ==>
                    DecodeGrpc(data, spare) == Ok(all[5..5 + length]))
  {
    if |data| >= 5 {
      NumberOfFour(data[1..5]);
      Put32OfGet32(data[1..5]);
      BoundWraps(Get32(data[1..5]));
    }
  }

  lemma BoundWraps(length: nat)
    requires length < 0x1_0000_0000
    ensures var end, bound := 5 + length, (5 + length) % 0x1_0000_0000;
            if end < 0x1_0000_0000 then bound == end else bound < 5
  {
  }

  /** The prefix is a zero byte and the length in network order, cut to 32 bits. */
  lemma GrpcLayout(payload: seq<byte>)
    ensures var s := EncodeGrpc(payload);
            |s| == 5 + |payload| && s[0] == 0 && Number(s[1..5]) == |payload| % 0x1_0000_0000 && s[5..] == payload
  {
    var s := EncodeGrpc(payload);
    assert s[1..5] == Put32(|payload|) + [];
    Get32OfPut32(|payload|, []);
    NumberOfFour(s[1..5]);
  }

  /** The 32-bit bound: right, wrapped below the prefix, or computed from a truncated length. */
  lemma BoundCases(n: nat)
    ensures var bound := (5 + n % 0x1_0000_0000) % 0x1_0000_0000;
            && (n + 5 < 0x1_0000_0000 ==> bound == n + 5)
            && (n + 5 >= 0x1_0000_0000 ==> bound < 5 || bound - 5 < n)
  {
  }

  /** A message survives exactly when its length plus the prefix fits in 32 bits. */
  lemma GrpcRoundTrip(payload: seq<byte>, spare: seq<byte>)
    ensures DecodeGrpc(EncodeGrpc(payload), spare) == Ok(payload) <==> |payload| + 5 < 0x1_0000_0000
  {
    var data, n := EncodeGrpc(payload), |payload|;
    assert data[1..5] == Put32(n) + [];
    Get32OfPut32(n, []);
    BoundCases(n);
    if n + 5 < 0x1_0000_0000 {
      assert (data + spare)[5..5 + n] == payload;
    }
  }
}
