/** The binary form of frames: encoder, decoder, and how far each undoes the other. */
module Codec {
  import opened Frames

  const PROTOCOL_VERSION_NUMBER := 7

  datatype Error =
    | FrameTooShort
    | FrameVersion(version: U8)
    | InvalidOpCode(code: U8)
    | InvalidBindType(kind: U8)

  datatype Result<+T> = Ok(value: T) | Err(error: Error)

  // ---- Big-endian integers ----

  function Be16(x: U16): Bytes { [x / 0x100, x % 0x100] }
  function Be32(x: U32): Bytes { Be16(x / 0x1_0000) + Be16(x % 0x1_0000) }

  function Get16(b: Bytes): U16
    requires |b| >= 2
  {
    (b[0] as int) * 0x100 + b[1] as int
  }

  function Get32(b: Bytes): U32
    requires |b| >= 4
  {
    (Get16(b) as int) * 0x1_0000 + Get16(b[2..]) as int
  }

  lemma Be16Inverse(x: U16, rest: Bytes)
    ensures Get16(Be16(x) + rest) == x
  {
  }

  lemma Be32Inverse(x: U32, rest: Bytes)
    ensures Get32(Be32(x) + rest) == x
  {
    var hi, lo := x / 0x1_0000, x % 0x1_0000;
    assert Be32(x) + rest == Be16(hi) + (Be16(lo) + rest);
    assert (Be32(x) + rest)[2..] == Be16(lo) + rest;
    Be16Inverse(hi, Be16(lo) + rest);
    Be16Inverse(lo, rest);
  }

  lemma Get16Inverse(b: Bytes)
    requires |b| >= 2
    ensures Be16(Get16(b)) == b[..2]
  {
  }

  lemma Get32Inverse(b: Bytes)
    requires |b| >= 4
    ensures Be32(Get32(b)) == b[..4]
  {
    var hi, lo := Get16(b), Get16(b[2..]);
    assert Get32(b) / 0x1_0000 == hi && Get32(b) % 0x1_0000 == lo;
    Get16Inverse(b);
    Get16Inverse(b[2..]);
    assert b[..4] == b[..2] + b[2..][..2];
  }

  /** Network byte order: the most significant octet first. */
  lemma NetworkOrder(x: U32, y: U16)
    ensures var b := Be32(x);
      |b| == 4 && (b[0] as int) * 0x100_0000 + (b[1] as int) * 0x1_0000 + (b[2] as int) * 0x100 + b[3] as int == x
    ensures var b := Be16(y); |b| == 2 && (b[0] as int) * 0x100 + b[1] as int == y
  {
    var hi, lo := x / 0x1_0000, x % 0x1_0000;
    assert Be32(x) == [hi / 0x100, hi % 0x100, lo / 0x100, lo % 0x100];
  }

  // ---- Encoding ----

  function OpCode(p: Payload): U8 {
    match p
    case Connect(_, _, _) => 0
    case Acknowledge(_) => 1
    case Reset => 2
    case Finish => 3
    case Push(_) => 4
    case Bind(_, _, _) => 5
    case Datagram(_, _, _) => 6
  }

  function BindCode(t: BindType): U8 { if t.BindStream? then 1 else 3 }

  /** `Payload::len`. */
  function PayloadLen(p: Payload): nat {
    match p
    case Connect(_, _, host) => 4 + 2 + |host|
    case Acknowledge(_) => 4
    case Reset => 0
    case Finish => 0
    case Push(data) => |data|
    case Bind(_, _, host) => 1 + 2 + |host|
    case Datagram(_, host, data) => 1 + 2 + |host| + |data|
  }

  /** The encoder panics on a datagram host that does not fit its length byte. */
  predicate Encodable(p: Payload) { p.Datagram? ==> |p.datagramHost| <= 255 }

  function EncodePayload(p: Payload): Bytes
    requires Encodable(p)
  {
    match p
    case Connect(rwnd, port, host) => Be32(rwnd) + (Be16(port) + host)
    case Acknowledge(count) => Be32(count)
    case Reset => []
    case Finish => []
    case Push(data) => data
    case Bind(kind, port, host) => [BindCode(kind)] + (Be16(port) + host)
    case Datagram(port, host, data) => [|host|] + (Be16(port) + (host + data))
  }

  function Encode(f: Frame): (b: Bytes)
    requires Encodable(f.payload)
    ensures |b| == 5 + PayloadLen(f.payload)
  {
    [PROTOCOL_VERSION_NUMBER * 16 + OpCode(f.payload)] + (Be32(f.id) + EncodePayload(f.payload))
  }

  /** The encoder as the source runs it: field by field onto a growing vector whose size
      it has estimated beforehand. */
  method EncodeInto(f: Frame) returns (encoded: Bytes)
    requires Encodable(f.payload)
    ensures encoded == Encode(f) && |encoded| == 5 + PayloadLen(f.payload)
  {
    encoded := [PROTOCOL_VERSION_NUMBER * 16 + OpCode(f.payload)];
    encoded := encoded + Be32(f.id);
    match f.payload {
      case Connect(rwnd, port, host) =>
        encoded := encoded + Be32(rwnd);
        encoded := encoded + Be16(port);
        encoded := encoded + host;
      case Acknowledge(count) =>
        encoded := encoded + Be32(count);
      case Reset =>
      case Finish =>
      case Push(data) =>
        encoded := encoded + data;
      case Bind(kind, port, host) =>
        encoded := encoded + [BindCode(kind)];
        encoded := encoded + Be16(port);
        encoded := encoded + host;
      case Datagram(port, host, data) =>
        encoded := encoded + [|host|];
        encoded := encoded + Be16(port);
        encoded := encoded + host;
        encoded := encoded + data;
    }
    assert encoded == Encode(f);
  }

  // ---- Decoding ----

  function DecodePayload(opcode: U8, d: Bytes): Result<Payload>
    requires opcode <= 6
  {
    match opcode
    case 0 => if |d| < 6 then Err(FrameTooShort) else Ok(Connect(Get32(d), Get16(d[4..]), d[6..]))
    case 1 => if |d| < 4 then Err(FrameTooShort) else Ok(Acknowledge(Get32(d)))
    case 2 => Ok(Reset)
    case 3 => Ok(Finish)
    case 4 => Ok(Push(d))
    case 5 =>
      if |d| < 3 then Err(FrameTooShort)
      else if d[0] == 1 then Ok(Bind(BindStream, Get16(d[1..]), d[3..]))
      else if d[0] == 3 then Ok(Bind(BindDatagram, Get16(d[1..]), d[3..]))
      else Err(InvalidBindType(d[0]))
    case _ =>
      if |d| < 1 + 6 then Err(FrameTooShort)
      else if |d| - 1 < (d[0] as int) + 6 then Err(FrameTooShort)
      else Ok(Datagram(Get16(d[1..]), d[3..3 + d[0]], d[3 + d[0]..]))
  }

  function Decode(b: Bytes): Result<Frame> {
    if |b| < 5 then Err(FrameTooShort)
    else if b[0] / 16 != PROTOCOL_VERSION_NUMBER then Err(FrameVersion(b[0] / 16))
    else if b[0] % 16 > 6 then Err(InvalidOpCode(b[0] % 16))
    else
      match DecodePayload(b[0] % 16, b[5..])
      case Ok(p) => Ok(Frame(Get32(b[1..]), p))
      case Err(e) => Err(e)
  }

  /** A buffer that is consumed from the front. */
  class Cursor {
    var data: Bytes

    constructor (b: Bytes)
      ensures data == b
    {
      data := b;
    }

    method GetU8() returns (x: U8)
      requires |data| >= 1
      modifies this
      ensures x == old(data)[0] && data == old(data)[1..]
    {
      x := data[0];
      data := data[1..];
    }

    method GetU16() returns (x: U16)
      requires |data| >= 2
      modifies this
      ensures x == Get16(old(data)) && data == old(data)[2..]
    {
      x := Get16(data);
      data := data[2..];
    }

    method GetU32() returns (x: U32)
      requires |data| >= 4
      modifies this
      ensures x == Get32(old(data)) && data == old(data)[4..]
    {
      x := Get32(data);
      data := data[4..];
    }

    method SplitTo(n: nat) returns (front: Bytes)
      requires n <= |data|
      modifies this
      ensures front == old(data)[..n] && data == old(data)[n..]
    {
      front := data[..n];
      data := data[n..];
    }
  }

  /** The payload part of the decoder as the source runs it on its cursor. */
  method DecodePayloadFrom(opcode: U8, cur: Cursor) returns (r: Result<Payload>)
    requires opcode <= 6
    modifies cur
    ensures r == DecodePayload(opcode, old(cur.data))
  {
    ghost var d := cur.data;
    match opcode {
      case 0 =>
        if |cur.data| < 6 { return Err(FrameTooShort); }
        var rwnd := cur.GetU32();
        var port := cur.GetU16();
        assert cur.data == d[6..];
        return Ok(Connect(rwnd, port, cur.data));
      case 1 =>
        if |cur.data| < 4 { return Err(FrameTooShort); }
        var count := cur.GetU32();
        return Ok(Acknowledge(count));
      case 2 => return Ok(Reset);
      case 3 => return Ok(Finish);
      case 4 => return Ok(Push(cur.data));
      case 5 =>
        if |cur.data| < 3 { return Err(FrameTooShort); }
        var code := cur.GetU8();
        if code != 1 && code != 3 { return Err(InvalidBindType(code)); }
        var kind := if code == 1 then BindStream else BindDatagram;
        var port := cur.GetU16();
        assert cur.data == d[3..];
        return Ok(Bind(kind, port, cur.data));
      case _ =>
        if |cur.data| < 1 + 6 { return Err(FrameTooShort); }
        var hostLen := cur.GetU8();
        if |cur.data| < (hostLen as int) + 6 { return Err(FrameTooShort); }
        var port := cur.GetU16();
        assert cur.data == d[3..];
        var host := cur.SplitTo(hostLen);
        assert cur.data == d[3 + hostLen..] && host == d[3..3 + hostLen];
        return Ok(Datagram(port, host, cur.data));
    }
  }

  method DecodeFrom(b: Bytes) returns (r: Result<Frame>)
    ensures r == Decode(b)
  {
    var cur := new Cursor(b);
    if |cur.data| < 5 { return Err(FrameTooShort); }
    var firstByte := cur.GetU8();
    var version := firstByte / 16;
    if version != PROTOCOL_VERSION_NUMBER { return Err(FrameVersion(version)); }
    if firstByte % 16 > 6 { return Err(InvalidOpCode(firstByte % 16)); }
    var id := cur.GetU32();
    assert cur.data == b[5..];
    var p := DecodePayloadFrom(firstByte % 16, cur);
    match p {
      case Ok(payload) => return Ok(Frame(id, payload));
      case Err(e) => return Err(e);
    }
  }

  // ---- Round trips ----

  /** The decoder asks six bytes after a datagram's host length where its port takes two. */
  predicate ShortDatagram(p: Payload) { p.Datagram? && |p.datagramData| < 4 }

  lemma ConnectRoundTrip(rwnd: U32, port: U16, host: Bytes)
    ensures DecodePayload(0, EncodePayload(Connect(rwnd, port, host))) == Ok(Connect(rwnd, port, host))
  {
    var d := EncodePayload(Connect(rwnd, port, host));
    Be32Inverse(rwnd, Be16(port) + host);
    assert d[4..] == Be16(port) + host && d[6..] == host;
    Be16Inverse(port, host);
  }

  lemma BindRoundTrip(kind: BindType, port: U16, host: Bytes)
    ensures DecodePayload(5, EncodePayload(Bind(kind, port, host))) == Ok(Bind(kind, port, host))
  {
    var d := EncodePayload(Bind(kind, port, host));
    assert d[1..] == Be16(port) + host && d[3..] == host;
    Be16Inverse(port, host);
  }

  lemma DatagramRoundTrip(port: U16, host: Bytes, data: Bytes)
    requires |host| <= 255
    ensures DecodePayload(6, EncodePayload(Datagram(port, host, data)))
         == if |data| < 4 then Err(FrameTooShort) else Ok(Datagram(port, host, data))
  {
    var d := EncodePayload(Datagram(port, host, data));
    assert d[0] == |host| && |d| == 3 + |host| + |data|;
    assert d[1..] == Be16(port) + (host + data) && d[3..] == host + data;
    Be16Inverse(port, host + data);
    if |data| >= 4 { assert d[3..3 + |host|] == host && d[3 + |host|..] == data; }
  }

  lemma PayloadRoundTrip(p: Payload)
    requires Encodable(p)
    ensures DecodePayload(OpCode(p), EncodePayload(p)) == if ShortDatagram(p) then Err(FrameTooShort) else Ok(p)
  {
    match p
    case Connect(rwnd, port, host) => ConnectRoundTrip(rwnd, port, host);
    case Acknowledge(count) =>
      Be32Inverse(count, []);
      assert Be32(count) + [] == Be32(count);
    case Bind(kind, port, host) => BindRoundTrip(kind, port, host);
    case Datagram(port, host, data) => DatagramRoundTrip(port, host, data);
    case _ =>
  }

  /** Decoding what was encoded gives the frame back, for every frame that can be encoded
      but a datagram with fewer than four bytes of data, which the decoder refuses. */
  lemma RoundTrip(f: Frame)
    requires Encodable(f.payload)
    ensures Decode(Encode(f)) == if ShortDatagram(f.payload) then Err(FrameTooShort) else Ok(f)
    ensures Decode(Encode(f)) == Ok(f) <==> !ShortDatagram(f.payload)
  {
    var b := Encode(f);
    assert b[1..] == Be32(f.id) + EncodePayload(f.payload);
    assert b[5..] == EncodePayload(f.payload);
    Be32Inverse(f.id, EncodePayload(f.payload));
    PayloadRoundTrip(f.payload);
  }

  lemma ConnectReencodes(d: Bytes)
    requires |d| >= 6
    ensures EncodePayload(Connect(Get32(d), Get16(d[4..]), d[6..])) == d
  {
    Get32Inverse(d);
    Get16Inverse(d[4..]);
    assert d == d[..4] + (d[4..][..2] + d[6..]);
  }

  lemma BindReencodes(d: Bytes, kind: BindType)
    requires |d| >= 3 && d[0] == BindCode(kind)
    ensures EncodePayload(Bind(kind, Get16(d[1..]), d[3..])) == d
  {
    Get16Inverse(d[1..]);
    assert d == [d[0]] + (d[1..][..2] + d[3..]);
  }

  lemma DatagramReencodes(d: Bytes)
    requires |d| >= 3 && |d| >= 3 + d[0] as int
    ensures EncodePayload(Datagram(Get16(d[1..]), d[3..3 + d[0]], d[3 + d[0]..])) == d
  {
    Get16Inverse(d[1..]);
    assert d == [d[0]] + (d[1..][..2] + (d[3..3 + d[0]] + d[3 + d[0]..]));
  }

  lemma PayloadReencodes(opcode: U8, d: Bytes)
    requires opcode <= 6 && DecodePayload(opcode, d).Ok?
    ensures var p := DecodePayload(opcode, d).value;
      && OpCode(p) == opcode && Encodable(p) && EncodePayload(p) <= d
      && (EncodePayload(p) == d || p.Acknowledge? || p.Reset? || p.Finish?)
  {
    match opcode
    case 0 => ConnectReencodes(d);
    case 1 => Get32Inverse(d);
    case 5 => BindReencodes(d, DecodePayload(opcode, d).value.bindType);
    case 6 => DatagramReencodes(d);
    case _ =>
  }

  /** The first byte of a frame of each kind: version 7 and the opcode. */
  predicate FirstByte(x: Payload, b: U8) {
    match x
    case Connect(_, _, _) => b == 0x70
    case Acknowledge(_) => b == 0x71
    case Reset => b == 0x72
    case Finish => b == 0x73
    case Push(_) => b == 0x74
    case Bind(_, _, _) => b == 0x75
    case Datagram(_, _, _) => b == 0x76
  }

  lemma HeaderFirst(f: Frame)
    requires Encodable(f.payload)
    ensures var b := Encode(f);
      FirstByte(f.payload, b[0]) && b[1..5] == Be32(f.id) && b[5..] == EncodePayload(f.payload)
  {
  }

  /** Three fields one after the other. */
  lemma ThreeParts(a: Bytes, b: Bytes, c: Bytes)
    ensures var d := a + (b + c); d[..|a|] == a && d[|a|..|a| + |b|] == b && d[|a| + |b|..] == c
  {
  }

  lemma DatagramLayout(port: U16, host: Bytes, data: Bytes)
    requires |host| <= 255
    ensures var d := EncodePayload(Datagram(port, host, data));
      d[0] == |host| && d[1..3] == Be16(port) && d[3..3 + |host|] == host && d[3 + |host|..] == data
  {
    var d := EncodePayload(Datagram(port, host, data));
    ThreeParts([|host|], Be16(port), host + data);
    assert d[3..] == host + data;
    assert d[3..][..|host|] == host && d[3..][|host|..] == data;
  }

  /** Where the protocol document puts each field, from the start of the payload. */
  lemma PayloadLayout(p: Payload)
    requires Encodable(p)
    ensures var d := EncodePayload(p);
      match p
      case Connect(rwnd, port, host) => d[..4] == Be32(rwnd) && d[4..6] == Be16(port) && d[6..] == host
      case Acknowledge(count) => d == Be32(count)
      case Reset => d == []
      case Finish => d == []
      case Push(data) => d == data
      case Bind(kind, port, host) =>
        d[0] == (if kind == BindStream then 1 else 3) && d[1..3] == Be16(port) && d[3..] == host
      case Datagram(port, host, data) =>
        d[0] == |host| && d[1..3] == Be16(port) && d[3..3 + |host|] == host && d[3 + |host|..] == data
  {
    match p
    case Connect(rwnd, port, host) => ThreeParts(Be32(rwnd), Be16(port), host);
    case Bind(kind, port, host) => ThreeParts([BindCode(kind)], Be16(port), host);
    case Datagram(port, host, data) => DatagramLayout(port, host, data);
    case _ =>
  }

  /** Where the protocol document puts each field of a frame, and with which value for its
      version, its opcode and its type of bind. */
  lemma Layout(f: Frame)
    requires Encodable(f.payload)
    ensures var b := Encode(f);
      && b[1..5] == Be32(f.id)
      && match f.payload
         case Connect(rwnd, port, host) =>
           b[0] == 0x70 && b[5..][..4] == Be32(rwnd) && b[5..][4..6] == Be16(port) && b[5..][6..] == host
         case Acknowledge(count) => b[0] == 0x71 && b[5..] == Be32(count)
         case Reset => b[0] == 0x72 && |b| == 5
         case Finish => b[0] == 0x73 && |b| == 5
         case Push(data) => b[0] == 0x74 && b[5..] == data
         case Bind(kind, port, host) =>
           && b[0] == 0x75 && b[5..][0] == (if kind == BindStream then 1 else 3)
           && b[5..][1..3] == Be16(port) && b[5..][3..] == host
         case Datagram(port, host, data) =>
           && b[0] == 0x76 && b[5..][0] == |host| && b[5..][1..3] == Be16(port)
           && b[5..][3..3 + |host|] == host && b[5..][3 + |host|..] == data
  {
    HeaderFirst(f);
    PayloadLayout(f.payload);
  }

  /** What the decoder accepts and refuses, byte by byte. */
  predicate WellFormed(b: Bytes) {
    && |b| >= 5 && 0x70 <= b[0] <= 0x76
    && (b[0] == 0x70 ==> |b| >= 5 + 6)
    && (b[0] == 0x71 ==> |b| >= 5 + 4)
    && (b[0] == 0x75 ==> |b| >= 5 + 3 && (b[5] == 1 || b[5] == 3))
    && (b[0] == 0x76 ==> |b| >= 5 + 7 && |b| >= 5 + 7 + b[5] as int)
  }

  /** What is wrong with bytes that are not. */
  function Refusal(b: Bytes): Error {
    if |b| < 5 then FrameTooShort
    else if !(0x70 <= b[0] <= 0x7F) then FrameVersion(b[0] / 0x10)
    else if b[0] > 0x76 then InvalidOpCode(b[0] - 0x70)
    else if b[0] == 0x75 && |b| >= 5 + 3 then InvalidBindType(b[5])
    else FrameTooShort
  }

  /** The decoder accepts exactly the well-formed, and the first byte says what they are. It
      refuses what is too short for its kind, another version, an opcode above 6, and a type
      of bind that is neither 1 nor 3, each with its own error. */
  lemma DecodesExactly(b: Bytes)
    ensures Decode(b).Ok? <==> WellFormed(b)
    ensures Decode(b).Ok? ==>
      && FirstByte(Decode(b).value.payload, b[0])
      && (b[0] == 0x75 ==> (Decode(b).value.payload.bindType == BindStream <==> b[5] == 1))
    ensures Decode(b).Err? ==> Decode(b).error == Refusal(b)
  {
  }

  lemma HeaderReencodes(b: Bytes, d: Bytes)
    requires |b| >= 5 && b[0] / 16 == PROTOCOL_VERSION_NUMBER
    ensures [PROTOCOL_VERSION_NUMBER * 16 + b[0] % 16] + (Be32(Get32(b[1..])) + d) == b[..5] + d
  {
    Get32Inverse(b[1..]);
    assert b[..5] == [b[0]] + b[1..][..4];
  }

  lemma Prefixed(head: Bytes, d: Bytes, rest: Bytes)
    requires d <= rest
    ensures head + d <= head + rest
  {
    assert rest == d + rest[|d|..];
    assert head + rest == (head + d) + rest[|d|..];
  }

  /** What the decoder accepts is an encoded frame, possibly followed by bytes it ignores;
      only after an `Acknowledge`, a `Reset` or a `Finish` can there be such bytes. */
  lemma AcceptedBytesReencode(b: Bytes)
    requires Decode(b).Ok?
    ensures var f := Decode(b).value;
      && Encodable(f.payload) && Encode(f) <= b
      && (f.payload.Connect? || f.payload.Push? || f.payload.Bind? || f.payload.Datagram? ==> Encode(f) == b)
  {
    PayloadReencodes(b[0] % 16, b[5..]);
    var f := Decode(b).value;
    var d := EncodePayload(f.payload);
    HeaderReencodes(b, d);
    Prefixed(b[..5], d, b[5..]);
    assert b == b[..5] + b[5..];
  }

  /** `Multiplexor::send_datagram`: a host that would not encode is turned away, a datagram
      the peer will refuse to decode is not. */
  datatype Sent = Queued(frame: Bytes) | DatagramHostTooLong

  function SendDatagram(id: U32, port: U16, host: Bytes, data: Bytes): (r: Sent)
    ensures r.Queued? <==> Encodable(Datagram(port, host, data))
    ensures r.Queued? ==>
      Decode(r.frame) == if |data| < 4 then Err(FrameTooShort) else Ok(Frame(id, Datagram(port, host, data)))
  {
    if |host| > 255 then DatagramHostTooLong
    else
      var f := Frame(id, Datagram(port, host, data));
      RoundTrip(f);
      Queued(Encode(f))
  }
}
