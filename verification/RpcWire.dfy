/** Reading RPC frames byte by byte (benches/tier4_rpc_support.rs, header of src/protocol/wire2/header.rs). */
module RpcWire {
  import opened Basics

  newtype byte = x: int | 0 <= x < 256
  type Bytes = seq<byte>

  const HEADER_LEN: nat := 15
  const RPC_RESPONSE: nat := 303

  // ----- big-endian numbers

  function FromBE(s: Bytes): nat {
    if s == [] then 0 else FromBE(s[..|s| - 1]) * 256 + s[|s| - 1] as nat
  }

  function ToBE(n: nat, width: nat): (s: Bytes)
    ensures |s| == width
  {
    if width == 0 then [] else ToBE(n / 256, width - 1) + [(n % 256) as byte]
  }

  function Pow256(k: nat): nat {
    if k == 0 then 1 else 256 * Pow256(k - 1)
  }

  lemma {:induction false} BytesToNumberAndBack(s: Bytes)
    ensures FromBE(s) < Pow256(|s|) && ToBE(FromBE(s), |s|) == s
  {
    if s != [] {
      BytesToNumberAndBack(s[..|s| - 1]);
      assert FromBE(s) / 256 == FromBE(s[..|s| - 1]) && FromBE(s) % 256 == s[|s| - 1] as nat;
    }
  }

  lemma {:induction false} NumberToBytesAndBack(n: nat, width: nat)
    requires n < Pow256(width)
    ensures FromBE(ToBE(n, width)) == n
  {
    if width > 0 {
      NumberToBytesAndBack(n / 256, width - 1);
      assert ToBE(n, width)[..width - 1] == ToBE(n / 256, width - 1);
    }
  }

  // ----- layouts

  datatype Request = Request(id: Bytes, route: Bytes, body: Bytes, timeout: Option<nat>)
  datatype Response = Response(id: Bytes, seqNo: nat, flags: byte, body: Bytes)

  predicate IsRequest(q: Request) {
    |q.id| == 16 && |q.route| <= U32_MAX && |q.body| <= U32_MAX && (q.timeout.Some? ==> q.timeout.value <= U32_MAX)
  }

  predicate IsResponse(r: Response) {
    |r.id| == 16 && r.seqNo <= U64_MAX && |r.body| <= U32_MAX
  }

  function Prefixed(s: Bytes): Bytes {
    ToBE(|s|, 4) + s
  }

  function EncodeTimeout(timeout: Option<nat>): Bytes {
    if timeout.None? then [0] else [1] + ToBE(timeout.value, 4)
  }

  function EncodeRequest(q: Request): Bytes {
    q.id + Prefixed(q.route) + Prefixed(q.body) + EncodeTimeout(q.timeout)
  }

  function EncodeResponse(r: Response): Bytes {
    r.id + ToBE(r.seqNo, 8) + [r.flags] + Prefixed(r.body)
  }

  // ----- the readers, each advancing an offset

  lemma Pow256Values()
    ensures Pow256(4) == U32_MAX + 1 && Pow256(8) == U64_MAX + 1
  {
  }

  /** `checked_add` then `get`: a slice is taken only when it lies inside the input, whatever the offset. */
  method ReadNumber(input: Bytes, offset: nat, width: nat) returns (value: Option<nat>, next: nat)
    requires |input| <= U64_MAX
    ensures value.Some? <==> offset + width <= |input|
    ensures value.Some? ==> next == offset + width && value.value == FromBE(input[offset..next]) < Pow256(width)
    ensures value.None? ==> next == offset
  {
    if offset + width > U64_MAX || offset + width > |input| {
      return None, offset;
    }
    BytesToNumberAndBack(input[offset..offset + width]);
    return Some(FromBE(input[offset..offset + width])), offset + width;
  }

  predicate HoldsPrefixed(input: Bytes, offset: nat) {
    && offset + 4 <= |input| && offset + 4 + FromBE(input[offset..offset + 4]) <= |input|
  }

  method ReadLenPrefixed(input: Bytes, offset: nat) returns (range: Option<(nat, nat)>, next: nat)
    requires |input| <= U64_MAX
    ensures offset <= next && (next <= |input| || next == offset)
    ensures range.Some? <==> HoldsPrefixed(input, offset)
    ensures range.Some? ==>
              && range.value == (offset + 4, next) && next == offset + 4 + FromBE(input[offset..offset + 4])
                            && input[offset..next] == Prefixed(input[offset + 4..next])
                               && |input[offset + 4..next]| <= U32_MAX
  {
    Pow256Values();
    var len, start := ReadNumber(input, offset, 4);
    if len.None? {
      return None, start;
    }
    if start + len.value > U64_MAX || start + len.value > |input| {
      return None, start;
    }
    next := start + len.value;
    BytesToNumberAndBack(input[offset..start]);
    assert input[offset..next] == input[offset..start] + input[start..next];
    return Some((start, next)), next;
  }

  method ReadUuid(input: Bytes, offset: nat) returns (id: Option<Bytes>, next: nat)
    requires |input| <= U64_MAX
    ensures id.Some? <==> offset + 16 <= |input|
    ensures id.Some? ==> next == offset + 16 && id.value == input[offset..next]
    ensures id.None? ==> next == offset
  {
    if offset + 16 > U64_MAX || offset + 16 > |input| {
      return None, offset;
    }
    return Some(input[offset..offset + 16]), offset + 16;
  }

  // ----- unambiguous layouts

  lemma PrefixedIsReadBack(before: Bytes, s: Bytes, after: Bytes)
    requires |s| <= U32_MAX
    ensures var input := before + Prefixed(s) + after;
            && HoldsPrefixed(input, |before|) && FromBE(input[|before|..|before| + 4]) == |s|
            && input[|before| + 4..|before| + 4 + |s|] == s && input[|before| + 4 + |s|..] == after
  {
    Pow256Values();
    NumberToBytesAndBack(|s|, 4);
    var input := before + Prefixed(s) + after;
    assert input[|before|..|before| + 4] == ToBE(|s|, 4);
  }

  /** The end of the length-prefixed field at `offset`. */
  function FieldEnd(input: Bytes, offset: nat): (end: nat)
    requires HoldsPrefixed(input, offset)
    ensures offset + 4 <= end <= |input|
  {
    offset + 4 + FromBE(input[offset..offset + 4])
  }

  /** The reference reading of a request payload: every byte is accounted for. */
  function DecodeRequest(p: Bytes): Option<Request> {
    if |p| < 16 || !HoldsPrefixed(p, 16) then None
    else
      var routeEnd := FieldEnd(p, 16);
      if !HoldsPrefixed(p, routeEnd) then None
      else
        var bodyEnd := FieldEnd(p, routeEnd);
        var read := Request(p[..16], p[20..routeEnd], p[routeEnd + 4..bodyEnd], None);
        if |p| == bodyEnd + 1 && p[bodyEnd] == 0 then Some(read)
        else if |p| == bodyEnd + 5 && p[bodyEnd] == 1 then Some(read.(timeout := Some(FromBE(p[bodyEnd + 1..]))))
        else None
  }

  function DecodeResponse(p: Bytes): Option<Response> {
    if |p| < 25 || !HoldsPrefixed(p, 25) || FieldEnd(p, 25) != |p| then None
    else Some(Response(p[..16], FromBE(p[16..24]), p[24], p[29..]))
  }

  lemma FieldIsPrefixed(input: Bytes, offset: nat)
    requires HoldsPrefixed(input, offset)
    ensures var end := FieldEnd(input, offset);
            input[offset..end] == Prefixed(input[offset + 4..end]) && |input[offset + 4..end]| <= U32_MAX
  {
    Pow256Values();
    BytesToNumberAndBack(input[offset..offset + 4]);
    var end := FieldEnd(input, offset);
    assert input[offset..end] == input[offset..offset + 4] + input[offset + 4..end];
  }

  lemma RequestFields(q: Request)
    requires IsRequest(q)
    ensures var p := EncodeRequest(q);
            var routeEnd := 20 + |q.route|;
            var bodyEnd := routeEnd + 4 + |q.body|;
            && |p| == bodyEnd + |EncodeTimeout(q.timeout)| && p[..16] == q.id
            && HoldsPrefixed(p, 16) && FieldEnd(p, 16) == routeEnd && p[20..routeEnd] == q.route
            && HoldsPrefixed(p, routeEnd) && FieldEnd(p, routeEnd) == bodyEnd && p[routeEnd + 4..bodyEnd] == q.body
            && p[bodyEnd..] == EncodeTimeout(q.timeout)
  {
    var p := EncodeRequest(q);
    assert p == q.id + Prefixed(q.route) + (Prefixed(q.body) + EncodeTimeout(q.timeout));
    PrefixedIsReadBack(q.id, q.route, Prefixed(q.body) + EncodeTimeout(q.timeout));
    PrefixedIsReadBack(q.id + Prefixed(q.route), q.body, EncodeTimeout(q.timeout));
  }

  /** An encoder's request is read back field by field. */
  lemma RequestRoundTrips(q: Request)
    requires IsRequest(q)
    ensures DecodeRequest(EncodeRequest(q)) == Some(q)
  {
    hide ToBE, FromBE;
    RequestFields(q);
    var p := EncodeRequest(q);
    var bodyEnd := 24 + |q.route| + |q.body|;
    assert p[bodyEnd] == p[bodyEnd..][0];
    if q.timeout.Some? {
      Pow256Values();
      NumberToBytesAndBack(q.timeout.value, 4);
      assert p[bodyEnd + 1..] == p[bodyEnd..][1..] == ToBE(q.timeout.value, 4);
    }
  }

  /** Whatever is accepted is some request's encoding, to the last byte. */
  lemma AcceptedRequestIsEncoding(p: Bytes)
    requires DecodeRequest(p).Some?
    ensures IsRequest(DecodeRequest(p).value) && EncodeRequest(DecodeRequest(p).value) == p
  {
    hide ToBE, FromBE;
    var q := DecodeRequest(p).value;
    FieldIsPrefixed(p, 16);
    var routeEnd := FieldEnd(p, 16);
    FieldIsPrefixed(p, routeEnd);
    var bodyEnd := FieldEnd(p, routeEnd);
    if q.timeout.Some? {
      Pow256Values();
      BytesToNumberAndBack(p[bodyEnd + 1..]);
    }
    assert p[bodyEnd..] == EncodeTimeout(q.timeout);
    assert p == p[..16] + p[16..routeEnd] + p[routeEnd..bodyEnd] + p[bodyEnd..];
  }

  /** The accepted payloads are exactly the encodings, and each has one reading. */
  lemma RequestLanguage(p: Bytes)
    ensures DecodeRequest(p).Some? <==> exists q :: IsRequest(q) && EncodeRequest(q) == p
    ensures forall q | IsRequest(q) && EncodeRequest(q) == p :: DecodeRequest(p) == Some(q)
  {
    forall q | IsRequest(q) && EncodeRequest(q) == p ensures DecodeRequest(p) == Some(q) {
      RequestRoundTrips(q);
    }
    if DecodeRequest(p).Some? { AcceptedRequestIsEncoding(p); }
  }

  lemma ResponseLanguage(p: Bytes)
    ensures DecodeResponse(p).Some? <==> exists r :: IsResponse(r) && EncodeResponse(r) == p
    ensures forall r | IsResponse(r) && EncodeResponse(r) == p :: DecodeResponse(p) == Some(r)
  {
    forall r | IsResponse(r) && EncodeResponse(r) == p ensures DecodeResponse(p) == Some(r) {
      ResponseRoundTrips(r);
    }
    if DecodeResponse(p).Some? { AcceptedResponseIsEncoding(p); }
  }

  lemma ResponseRoundTrips(r: Response)
    requires IsResponse(r)
    ensures DecodeResponse(EncodeResponse(r)) == Some(r)
  {
    var before := r.id + ToBE(r.seqNo, 8) + [r.flags];
    var p := EncodeResponse(r);
    assert p == before + Prefixed(r.body) + [];
    PrefixedIsReadBack(before, r.body, []);
    Pow256Values();
    NumberToBytesAndBack(r.seqNo, 8);
    assert p[16..24] == ToBE(r.seqNo, 8) && p[..16] == r.id;
  }

  lemma AcceptedResponseIsEncoding(p: Bytes)
    requires DecodeResponse(p).Some?
    ensures IsResponse(DecodeResponse(p).value) && EncodeResponse(DecodeResponse(p).value) == p
  {
    FieldIsPrefixed(p, 25);
    Pow256Values();
    BytesToNumberAndBack(p[16..24]);
    assert p == p[..16] + p[16..24] + [p[24]] + p[25..];
    assert p[25..] == p[25..FieldEnd(p, 25)] && p[29..] == p[29..FieldEnd(p, 25)];
  }

  /** The request parser accepts exactly the encodings of requests and recovers id and body. */
  method ParseRequest(payload: Bytes) returns (parsed: Option<(Bytes, Bytes)>)
    requires |payload| <= U64_MAX
    ensures parsed.Some? <==> DecodeRequest(payload).Some?
    ensures parsed.Some? ==> parsed.value == (DecodeRequest(payload).value.id, DecodeRequest(payload).value.body)
  {
    var id, afterId := ReadUuid(payload, 0);
    if id.None? { return None; }
    var route, afterRoute := ReadLenPrefixed(payload, afterId);
    if route.None? { return None; }
    var body, afterBody := ReadLenPrefixed(payload, afterRoute);
    if body.None? { return None; }
    var end := afterBody;
    if afterBody >= |payload| { return None; }
    if payload[afterBody] == 0 {
      end := afterBody + 1;
    } else if payload[afterBody] == 1 {
      var timeout;
      timeout, end := ReadNumber(payload, afterBody + 1, 4);
      if timeout.None? { return None; }
    } else {
      return None;
    }
    if end != |payload| { return None; }
    return Some((id.value, payload[body.value.0..body.value.1]));
  }

  datatype ResponseParts = ResponseParts(id: Bytes, seqNo: nat, body: Bytes, streamEnd: bool)

  function PartsOf(r: Response): ResponseParts {
    ResponseParts(r.id, r.seqNo, r.body, r.flags % 2 == 1)
  }

  method ParseResponse(payload: Bytes) returns (parsed: Option<ResponseParts>)
    requires |payload| <= U64_MAX
    ensures parsed.Some? <==> DecodeResponse(payload).Some?
    ensures parsed.Some? ==> parsed.value == PartsOf(DecodeResponse(payload).value)
  {
    var id, afterId := ReadUuid(payload, 0);
    if id.None? { return None; }
    var seqNo, afterSeq := ReadNumber(payload, afterId, 8);
    if seqNo.None? { return None; }
    if afterSeq >= |payload| { return None; }
    var flags := payload[afterSeq];
    var body, afterBody := ReadLenPrefixed(payload, afterSeq + 1);
    if body.None? { return None; }
    if afterBody != |payload| { return None; }
    return Some(ResponseParts(id.value, seqNo.value, payload[body.value.0..body.value.1], flags % 2 == 1));
  }

  // ----- frames

  /** The fixed header: type, flags with no reserved bit, correlation, and the exact length of the value. */
  function DecodeFrame(frame: Bytes): Option<(nat, Bytes)> {
    if |frame| < HEADER_LEN || frame[2] >= 4 then None
    else
      var length := FromBE(frame[11..15]);
      if length > U32_MAX - HEADER_LEN || |frame| - HEADER_LEN != length then None
      else Some((FromBE(frame[..2]), frame[HEADER_LEN..]))
  }

  datatype Message = Message(messageType: nat, flags: byte, correlation: nat, value: Bytes)

  predicate IsMessage(m: Message) {
    m.messageType < 65536 && m.flags < 4 && m.correlation <= U64_MAX && |m.value| <= U32_MAX - HEADER_LEN
  }

  function EncodeFrame(m: Message): Bytes {
    ToBE(m.messageType, 2) + [m.flags] + ToBE(m.correlation, 8) + ToBE(|m.value|, 4) + m.value
  }

  lemma FrameRoundTrips(m: Message)
    requires IsMessage(m)
    ensures DecodeFrame(EncodeFrame(m)) == Some((m.messageType, m.value))
  {
    var frame := EncodeFrame(m);
    Pow256Values();
    assert Pow256(2) == 65536;
    NumberToBytesAndBack(m.messageType, 2);
    NumberToBytesAndBack(|m.value|, 4);
    assert frame[..2] == ToBE(m.messageType, 2) && frame[11..15] == ToBE(|m.value|, 4) && frame[15..] == m.value;
  }

  /** Whatever is accepted is some message's encoding, to the last byte. */
  lemma AcceptedFrameIsEncoding(frame: Bytes) returns (m: Message)
    requires DecodeFrame(frame).Some?
    ensures IsMessage(m) && EncodeFrame(m) == frame && DecodeFrame(frame) == Some((m.messageType, m.value))
  {
    hide ToBE, FromBE;
    m := Message(FromBE(frame[..2]), frame[2], FromBE(frame[3..11]), frame[HEADER_LEN..]);
    Pow256Values();
    assert Pow256(2) == 65536;
    BytesToNumberAndBack(frame[..2]);
    BytesToNumberAndBack(frame[3..11]);
    BytesToNumberAndBack(frame[11..15]);
    assert frame == frame[..2] + [frame[2]] + frame[3..11] + frame[11..15] + frame[15..];
  }

  /** The accepted frames are exactly the encoded messages, and each has one type and value. */
  lemma FrameLanguage(frame: Bytes)
    ensures DecodeFrame(frame).Some? <==> exists m :: IsMessage(m) && EncodeFrame(m) == frame
    ensures forall m | IsMessage(m) && EncodeFrame(m) == frame :: DecodeFrame(frame) == Some((m.messageType, m.value))
  {
    hide DecodeFrame, EncodeFrame;
    forall m | IsMessage(m) && EncodeFrame(m) == frame ensures DecodeFrame(frame) == Some((m.messageType, m.value)) {
      FrameRoundTrips(m);
    }
    if DecodeFrame(frame).Some? { var m := AcceptedFrameIsEncoding(frame); }
  }

  /** The response a frame carries, if it is one. */
  function ResponseIn(frame: Bytes): Option<ResponseParts> {
    var decoded := DecodeFrame(frame);
    if decoded.None? || decoded.value.0 != RPC_RESPONSE || DecodeResponse(decoded.value.1).None? then None
    else Some(PartsOf(DecodeResponse(decoded.value.1).value))
  }

  method ParseResponseFrame(frame: Bytes) returns (parsed: Option<ResponseParts>)
    requires |frame| <= U64_MAX
    ensures parsed == ResponseIn(frame)
  {
    var decoded := DecodeFrame(frame);
    if decoded.None? || decoded.value.0 != RPC_RESPONSE { return None; }
    parsed := ParseResponse(decoded.value.1);
  }
}
