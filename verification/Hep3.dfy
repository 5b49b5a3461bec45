/**
 The HEP3 wire format: a packet is the text "HEP3", its total length, and a
 list of chunks, each with a vendor, a type, its own length and a payload.
 */
module Hep3 {
  import opened Common
  import opened Arith
  import opened Wire

  const IP_FAMILY: Word16 := 0x0001
  const IP_PROTO: Word16 := 0x0002
  const IPV4_SRC: Word16 := 0x0003
  const IPV4_DST: Word16 := 0x0004
  const IPV6_SRC: Word16 := 0x0005
  const IPV6_DST: Word16 := 0x0006
  const SRC_PORT: Word16 := 0x0007
  const DST_PORT: Word16 := 0x0008
  const TIME_SEC: Word16 := 0x0009
  const TIME_USEC: Word16 := 0x000a
  const PROTO_TYPE: Word16 := 0x000b
  const CAPTURE_ID: Word16 := 0x000c
  const AUTH_KEY: Word16 := 0x000e
  const PAYLOAD: Word16 := 0x000f
  const CORRELATION_ID: Word16 := 0x0011

  const FAMILY_IPV4: Byte := 0x02
  const FAMILY_IPV6: Byte := 0x0a

  const SECOND := 1_000_000_000
  const HEADER: Bytes := [72, 69, 80, 51]   // "HEP3"

  datatype Error = BadSourceIP | BadDestinationIP | BadSourcePort | BadDestinationPort | TooLarge
                 | TooShort | BadHeader | BadLength | TruncatedChunk | BadChunkLength

  datatype Result<+T> = Ok(value: T) | Err(error: Error)

  type Bytes4 = b: Bytes | |b| == 4 witness [0, 0, 0, 0]
  type Bytes16 = b: Bytes | |b| == 16 witness [0, 0, 0, 0, 0, 0, 0, 0, 0, 0, 0, 0, 0, 0, 0, 0]

  /** A parsed address. An IPv4 address in IPv6 form has been turned into its IPv4 form. */
  datatype IP = V4(b4: Bytes4) | V6(b16: Bytes16)

  /** A message to encode. The addresses are what parsing their text gave; the time is in nanoseconds
      since 1970, or none. */
  datatype Message = Message(time: Option<int>, srcIP: Option<IP>, dstIP: Option<IP>, srcPort: int, dstPort: int,
                             ipProtocol: Byte, protoType: Byte, captureID: Word32,
                             authKey: Bytes, correlationID: Bytes, payload: Bytes)

  datatype Decoded = Decoded(ipFamily: Byte, ipProtocol: Byte, srcIP: Bytes, dstIP: Bytes, srcPort: Word16, dstPort: Word16,
                             sec: Word32, usec: Word32, protoType: Byte, captureID: Word32,
                             authKey: Bytes, correlationID: Bytes, payload: Bytes)

  const BLANK := Decoded(0, 0, [], [], 0, 0, 0, 0, 0, 0, [], [], [])

  /** The instant of a decoded message, in nanoseconds since 1970. */
  function TimeOf(d: Decoded): int
  {
    d.sec * SECOND + d.usec * 1000
  }

  datatype Chunk = Chunk(vendor: Word16, kind: Word16, payload: Bytes)

  // ---------- writing ----------

  /** The IPv4 form; an IPv6 address has none. */
  function To4(ip: IP): Bytes
  {
    match ip
    case V4(b) => b
    case V6(_) => []
  }

  function To16(ip: IP): Bytes
  {
    match ip
    case V4(b) => [0, 0, 0, 0, 0, 0, 0, 0, 0, 0, 255, 255] + b
    case V6(b) => b
  }

  /** A chunk on the wire; its length field holds the low 16 bits of the length. */
  function Frame(c: Chunk): Bytes
  {
    U16(c.vendor) + U16(c.kind) + U16((|c.payload| + 6) % 0x1_0000) + c.payload
  }

  function Frames(cs: seq<Chunk>): Bytes
  {
    if cs == [] then [] else Frame(cs[0]) + Frames(cs[1..])
  }

  function Own(kind: Word16, payload: Bytes): Chunk
  {
    Chunk(0, kind, payload)
  }

  function Seconds(t: int): Word32
  {
    (t / SECOND) % 0x1_0000_0000
  }

  function Micros(t: int): Word32
  {
    t % SECOND / 1000
  }

  function AddressChunks(src: IP, dst: IP): seq<Chunk>
  {
    if src.V6? then [Own(IPV6_SRC, To16(src)), Own(IPV6_DST, To16(dst))]
    else [Own(IPV4_SRC, To4(src)), Own(IPV4_DST, To4(dst))]
  }

  function HeadChunks(m: Message, src: IP, dst: IP): seq<Chunk>
  {
    [Own(IP_FAMILY, [if src.V6? then FAMILY_IPV6 else FAMILY_IPV4]), Own(IP_PROTO, [m.ipProtocol])]
    + AddressChunks(src, dst)
  }

  function MiddleChunks(m: Message, t: int): seq<Chunk>
    requires 0 <= m.srcPort < 0x1_0000 && 0 <= m.dstPort < 0x1_0000
  {
    [Own(SRC_PORT, U16(m.srcPort)), Own(DST_PORT, U16(m.dstPort)),
     Own(TIME_SEC, U32(Seconds(t))), Own(TIME_USEC, U32(Micros(t))),
     Own(PROTO_TYPE, [m.protoType]), Own(CAPTURE_ID, U32(m.captureID))]
  }

  function TailChunks(m: Message): seq<Chunk>
  {
    (if m.authKey != [] then [Own(AUTH_KEY, m.authKey)] else [])
    + (if m.correlationID != [] then [Own(CORRELATION_ID, m.correlationID)] else [])
    + [Own(PAYLOAD, m.payload)]
  }

  /** The chunks of a message, in their order. */
  function Chunks(m: Message, src: IP, dst: IP, t: int): seq<Chunk>
    requires 0 <= m.srcPort < 0x1_0000 && 0 <= m.dstPort < 0x1_0000
  {
    HeadChunks(m, src, dst) + MiddleChunks(m, t) + TailChunks(m)
  }

  function Packet(body: Bytes): Bytes
    requires 6 + |body| < 0x1_0000
  {
    HEADER + U16(6 + |body|) + body
  }

  /** Encoding; `now` stands for the clock, used when the message has no time. */
  function Encode(m: Message, now: int): Result<Bytes>
  {
    if m.srcIP.None? then Err(BadSourceIP)
    else if m.dstIP.None? then Err(BadDestinationIP)
    else if m.srcPort < 0 || m.srcPort > 65535 then Err(BadSourcePort)
    else if m.dstPort < 0 || m.dstPort > 65535 then Err(BadDestinationPort)
    else
      var t := if m.time.Some? then m.time.value else now;
      var body := Frames(Chunks(m, m.srcIP.value, m.dstIP.value, t));
      if 6 + |body| > 65535 then Err(TooLarge) else Ok(Packet(body))
  }

  // ---------- reading ----------

  /** One chunk fills its field; a payload of the wrong length, or an unknown type, fills none. */
  function Apply(d: Decoded, kind: Word16, p: Bytes): Decoded
  {
    if kind == IP_FAMILY then (if |p| == 1 then d.(ipFamily := p[0]) else d)
    else if kind == IP_PROTO then (if |p| == 1 then d.(ipProtocol := p[0]) else d)
    else if kind == IPV4_SRC || kind == IPV6_SRC then d.(srcIP := p)
    else if kind == IPV4_DST || kind == IPV6_DST then d.(dstIP := p)
    else if kind == SRC_PORT then (if |p| == 2 then d.(srcPort := ReadU16(p)) else d)
    else if kind == DST_PORT then (if |p| == 2 then d.(dstPort := ReadU16(p)) else d)
    else if kind == TIME_SEC then (if |p| == 4 then d.(sec := ReadU32(p)) else d)
    else if kind == TIME_USEC then (if |p| == 4 then d.(usec := ReadU32(p)) else d)
    else if kind == PROTO_TYPE then (if |p| == 1 then d.(protoType := p[0]) else d)
    else if kind == CAPTURE_ID then (if |p| == 4 then d.(captureID := ReadU32(p)) else d)
    else if kind == AUTH_KEY then d.(authKey := p)
    else if kind == CORRELATION_ID then d.(correlationID := p)
    else if kind == PAYLOAD then d.(payload := p)
    else d
  }

  /** The chunks of b, applied one after the other. */
  function DecodeFrom(d: Decoded, b: Bytes): Result<Decoded>
    decreases |b|
  {
    if b == [] then Ok(d)
    else if |b| < 6 then Err(TruncatedChunk)
    else
      var n := ReadU16(b[4..6]);
      if n < 6 || n > |b| then Err(BadChunkLength)
      else DecodeFrom(Apply(d, ReadU16(b[2..4]), b[6..n]), b[n..])
  }

  function Decode(packet: Bytes): Result<Decoded>
  {
    if |packet| < 6 then Err(TooShort)
    else if packet[..4] != HEADER then Err(BadHeader)
    else if ReadU16(packet[4..6]) != |packet| then Err(BadLength)
    else DecodeFrom(BLANK, packet[6..])
  }

  // ---------- round trip ----------

  ghost predicate Fits(cs: seq<Chunk>)
  {
    forall i :: 0 <= i < |cs| ==> |cs[i].payload| + 6 < 0x1_0000
  }

  function Fold(d: Decoded, cs: seq<Chunk>): Decoded
    decreases |cs|
  {
    if cs == [] then d else Fold(Apply(d, cs[0].kind, cs[0].payload), cs[1..])
  }

  /** A chunk whose length fits its field reads back exactly. */
  lemma FrameReads(c: Chunk, rest: Bytes)
    requires |c.payload| + 6 < 0x1_0000
    ensures var b, n := Frame(c) + rest, |c.payload| + 6;
            && |b| >= 6 && ReadU16(b[4..6]) == n && |b| >= n
            && ReadU16(b[2..4]) == c.kind && b[6..n] == c.payload && b[n..] == rest
  {
    var n := |c.payload| + 6;
    var b := Frame(c) + rest;
    assert b[2..4] == U16(c.kind) && b[4..6] == U16(n);
    U16RoundTrip(c.kind);
    U16RoundTrip(n);
  }

  lemma {:induction false} FramesRead(d: Decoded, cs: seq<Chunk>)
    requires Fits(cs)
    ensures DecodeFrom(d, Frames(cs)) == Ok(Fold(d, cs))
    decreases |cs|
  {
    hide Apply;
    if cs != [] {
      FrameReads(cs[0], Frames(cs[1..]));
      FramesRead(Apply(d, cs[0].kind, cs[0].payload), cs[1..]);
    }
  }

  /** No chunk is longer than the whole, so in a packet that fits no length field is cut. */
  lemma {:induction false} FramesFit(cs: seq<Chunk>)
    requires |Frames(cs)| < 0x1_0000
    ensures Fits(cs)
    decreases |cs|
  {
    if cs != [] {
      FramesFit(cs[1..]);
    }
  }

  /** Any list of chunks that fits a packet, whatever its types and vendors, decodes to its fold. */
  lemma PacketDecodes(cs: seq<Chunk>)
    requires 6 + |Frames(cs)| < 0x1_0000
    ensures Decode(Packet(Frames(cs))) == Ok(Fold(BLANK, cs))
  {
    var body := Frames(cs);
    var p := Packet(body);
    assert p[..4] == HEADER && p[4..6] == U16(6 + |body|) && p[6..] == body;
    U16RoundTrip(6 + |body|);
    FramesFit(cs);
    FramesRead(BLANK, cs);
  }

  lemma {:induction false} FoldOf(d: Decoded, a: seq<Chunk>, b: seq<Chunk>)
    ensures Fold(d, a + b) == Fold(Fold(d, a), b)
    decreases |a|
  {
    hide Apply;
    if a == [] {
      assert a + b == b;
    } else {
      assert (a + b)[1..] == a[1..] + b;
      FoldOf(Apply(d, a[0].kind, a[0].payload), a[1..], b);
    }
  }

  lemma FoldOne(d: Decoded, c: Chunk)
    ensures Fold(d, [c]) == Apply(d, c.kind, c.payload)
  {
    assert [c][1..] == [];
  }

  lemma FoldTwo(d: Decoded, c: Chunk, c': Chunk)
    ensures Fold(d, [c, c']) == Apply(Apply(d, c.kind, c.payload), c'.kind, c'.payload)
  {
    assert [c, c'] == [c] + [c'];
    FoldOf(d, [c], [c']);
    FoldOne(d, c);
    FoldOne(Apply(d, c.kind, c.payload), c');
  }

  /** What decoding an encoded message should give. */
  function Expected(m: Message, src: IP, dst: IP, t: int): Decoded
    requires 0 <= m.srcPort < 0x1_0000 && 0 <= m.dstPort < 0x1_0000
  {
    Decoded(if src.V6? then FAMILY_IPV6 else FAMILY_IPV4, m.ipProtocol,
            if src.V6? then To16(src) else To4(src), if src.V6? then To16(dst) else To4(dst),
            m.srcPort, m.dstPort, Seconds(t), Micros(t), m.protoType, m.captureID,
            m.authKey, m.correlationID, m.payload)
  }

  lemma FoldHead(m: Message, src: IP, dst: IP)
    ensures Fold(BLANK, HeadChunks(m, src, dst))
            == BLANK.(ipFamily := if src.V6? then FAMILY_IPV6 else FAMILY_IPV4, ipProtocol := m.ipProtocol,
                      srcIP := if src.V6? then To16(src) else To4(src), dstIP := if src.V6? then To16(dst) else To4(dst))
  {
    hide Fold;
    var a := [Own(IP_FAMILY, [if src.V6? then FAMILY_IPV6 else FAMILY_IPV4]), Own(IP_PROTO, [m.ipProtocol])];
    var b := AddressChunks(src, dst);
    FoldOf(BLANK, a, b);
    FoldTwo(BLANK, a[0], a[1]);
    FoldTwo(Fold(BLANK, a), b[0], b[1]);
    assert a == [a[0], a[1]] && b == [b[0], b[1]];
  }

  lemma FoldMiddle(d: Decoded, m: Message, t: int)
    requires 0 <= m.srcPort < 0x1_0000 && 0 <= m.dstPort < 0x1_0000
    ensures Fold(d, MiddleChunks(m, t))
            == d.(srcPort := m.srcPort, dstPort := m.dstPort, sec := Seconds(t), usec := Micros(t),
                  protoType := m.protoType, captureID := m.captureID)
  {
    hide Fold, Seconds, Micros, U16, U32, ReadU16, ReadU32;
    var a := [Own(SRC_PORT, U16(m.srcPort)), Own(DST_PORT, U16(m.dstPort))];
    var b := [Own(TIME_SEC, U32(Seconds(t))), Own(TIME_USEC, U32(Micros(t)))];
    var c := [Own(PROTO_TYPE, [m.protoType]), Own(CAPTURE_ID, U32(m.captureID))];
    FoldOf(d, a + b, c);
    FoldOf(d, a, b);
    U16RoundTrip(m.srcPort);
    U16RoundTrip(m.dstPort);
    FoldTwo(d, a[0], a[1]);
    var d1 := d.(srcPort := m.srcPort, dstPort := m.dstPort);
    U32RoundTrip(Seconds(t));
    U32RoundTrip(Micros(t));
    FoldTwo(d1, b[0], b[1]);
    var d2 := d1.(sec := Seconds(t), usec := Micros(t));
    U32RoundTrip(m.captureID);
    FoldTwo(d2, c[0], c[1]);
    assert a + b + c == [a[0], a[1], b[0], b[1], c[0], c[1]];
  }

  lemma FoldTail(d: Decoded, m: Message)
    requires d.authKey == [] && d.correlationID == []
    ensures Fold(d, TailChunks(m))
            == d.(authKey := m.authKey, correlationID := m.correlationID, payload := m.payload)
  {
    hide Fold;
    var a := if m.authKey != [] then [Own(AUTH_KEY, m.authKey)] else [];
    var b := if m.correlationID != [] then [Own(CORRELATION_ID, m.correlationID)] else [];
    var c := [Own(PAYLOAD, m.payload)];
    FoldOf(d, a + b, c);
    FoldOf(d, a, b);
    FoldNone(d);
    FoldOne(d, Own(AUTH_KEY, m.authKey));
    var d1 := d.(authKey := m.authKey);
    FoldNone(d1);
    FoldOne(d1, Own(CORRELATION_ID, m.correlationID));
    FoldOne(d1.(correlationID := m.correlationID), Own(PAYLOAD, m.payload));
  }

  lemma FoldNone(d: Decoded)
    ensures Fold(d, []) == d
  {
  }

  lemma FoldChunks(m: Message, src: IP, dst: IP, t: int)
    requires 0 <= m.srcPort < 0x1_0000 && 0 <= m.dstPort < 0x1_0000
    ensures Fold(BLANK, Chunks(m, src, dst, t)) == Expected(m, src, dst, t)
  {
    hide Fold, HeadChunks, MiddleChunks, TailChunks;
    var a, b, c := HeadChunks(m, src, dst), MiddleChunks(m, t), TailChunks(m);
    FoldOf(BLANK, a + b, c);
    FoldOf(BLANK, a, b);
    FoldHead(m, src, dst);
    FoldMiddle(Fold(BLANK, a), m, t);
    FoldTail(Fold(BLANK, a + b), m);
  }

  /** Whatever encodes decodes to the fields of the message. */
  lemma EncodeDecodes(m: Message, now: int)
    requires Encode(m, now).Ok?
    ensures var t := if m.time.Some? then m.time.value else now;
            Decode(Encode(m, now).value) == Ok(Expected(m, m.srcIP.value, m.dstIP.value, t))
  {
    hide Fold, Chunks, Expected, Decode;
    var t := if m.time.Some? then m.time.value else now;
    var cs := Chunks(m, m.srcIP.value, m.dstIP.value, t);
    PacketDecodes(cs);
    FoldChunks(m, m.srcIP.value, m.dstIP.value, t);
  }

  /** The instant survives, cut to microseconds, when its seconds fit 32 bits. */
  lemma TimeSurvives(d: Decoded, t: int)
    requires d.sec == Seconds(t) && d.usec == Micros(t)
    ensures TimeOf(d) == t - t % 1000 <==> 0 <= t < 0x1_0000_0000 * SECOND
  {
    var q, r := t / SECOND, t % SECOND;
    assert t == SECOND * q + r;
    assert r == 1000 * (r / 1000) + r % 1000;
    assert t % 1000 == r % 1000 by {
      assert t == r + 1000 * (1_000_000 * q);
      ModPlusMultiple(r, 1000, 1_000_000 * q);
    }
    if 0 <= t < 0x1_0000_0000 * SECOND {
      assert 0 <= q < 0x1_0000_0000;
      DivSmall(q, 0x1_0000_0000);
    } else {
      assert q < 0 || q >= 0x1_0000_0000;
      assert q % 0x1_0000_0000 != q;
    }
  }

  /** The round trip: with addresses of one family, every field comes back, and the time cut to
      microseconds if and only if its seconds fit 32 bits. */
  lemma RoundTrip(m: Message, now: int)
    requires Encode(m, now).Ok? && m.srcIP.value.V4? == m.dstIP.value.V4?
    ensures var r := Decode(Encode(m, now).value);
            var t := if m.time.Some? then m.time.value else now;
            && r.Ok?
            && r.value.srcIP == AddressBytes(m.srcIP.value) && r.value.dstIP == AddressBytes(m.dstIP.value)
            && r.value.ipFamily == (if m.srcIP.value.V4? then FAMILY_IPV4 else FAMILY_IPV6)
            && r.value.srcPort == m.srcPort && r.value.dstPort == m.dstPort
            && r.value.ipProtocol == m.ipProtocol && r.value.protoType == m.protoType && r.value.captureID == m.captureID
            && r.value.authKey == m.authKey && r.value.correlationID == m.correlationID && r.value.payload == m.payload
            && (TimeOf(r.value) == t - t % 1000 <==> 0 <= t < 0x1_0000_0000 * SECOND)
  {
    hide Decode, Frames, Chunks, Seconds, Micros, TimeOf;
    var t := if m.time.Some? then m.time.value else now;
    EncodeDecodes(m, now);
    TimeSurvives(Decode(Encode(m, now).value).value, t);
  }

  function AddressBytes(ip: IP): Bytes
  {
    match ip
    case V4(b) => b
    case V6(b) => b
  }

  /** The source always comes back. The destination comes back, in its own form or mapped into an IPv6 one,
      if and only if it is not an IPv6 address next to an IPv4 source: that one comes back empty. */
  lemma DestinationSurvives(m: Message, now: int)
    requires Encode(m, now).Ok?
    ensures var r := Decode(Encode(m, now).value);
            var src, dst := m.srcIP.value, m.dstIP.value;
            && r.Ok? && r.value.srcIP == AddressBytes(src)
            && (r.value.dstIP == AddressBytes(dst) || r.value.dstIP == To16(dst) <==> !(src.V4? && dst.V6?))
            && (src.V4? == dst.V4? ==> r.value.dstIP == AddressBytes(dst))
            && (src.V6? ==> r.value.dstIP == To16(dst))
            && (src.V4? && dst.V6? ==> r.value.dstIP == [])
  {
    hide Decode, Frames, Chunks, Seconds, Micros;
    EncodeDecodes(m, now);
    var dst := m.dstIP.value;
    assert dst.V6? ==> |dst.b16| == 16;
  }

  // ---------- unknown chunks ----------

  predicate KnownKind(k: Word16)
  {
    1 <= k <= 0x000c || k == AUTH_KEY || k == PAYLOAD || k == CORRELATION_ID
  }

  function Known(cs: seq<Chunk>): seq<Chunk>
  {
    if cs == [] then [] else (if KnownKind(cs[0].kind) then [cs[0]] else []) + Known(cs[1..])
  }

  lemma {:induction false} FoldKnown(d: Decoded, cs: seq<Chunk>)
    ensures Fold(d, Known(cs)) == Fold(d, cs)
    decreases |cs|
  {
    if cs != [] {
      var d' := Apply(d, cs[0].kind, cs[0].payload);
      FoldKnown(d', cs[1..]);
      if KnownKind(cs[0].kind) {
        FoldOf(d, [cs[0]], Known(cs[1..]));
        FoldOne(d, cs[0]);
      } else {
        assert [] + Known(cs[1..]) == Known(cs[1..]);
      }
    }
  }

  /** Two packets whose chunks of known type are the same, in the same order, decode to the same message:
      chunks of other types may stand anywhere. */
  lemma UnknownChunksIgnored(cs: seq<Chunk>, cs': seq<Chunk>)
    requires Known(cs) == Known(cs') && 6 + |Frames(cs)| < 0x1_0000 && 6 + |Frames(cs')| < 0x1_0000
    ensures Decode(Packet(Frames(cs))) == Decode(Packet(Frames(cs')))
  {
    hide Fold, Decode, Frames, Known;
    PacketDecodes(cs);
    PacketDecodes(cs');
    FoldKnown(BLANK, cs);
    FoldKnown(BLANK, cs');
  }

  // ---------- the program's loops ----------

  method WriteChunk(buf: Bytes, kind: Word16, payload: Bytes) returns (r: Bytes)
    ensures r == buf + Frame(Own(kind, payload))
  {
    r := buf + U16(0);
    r := r + U16(kind);
    r := r + U16((|payload| + 6) % 0x1_0000);
    r := r + payload;
  }

  lemma {:induction false} FramesOf(a: seq<Chunk>, b: seq<Chunk>)
    ensures Frames(a + b) == Frames(a) + Frames(b)
  {
    if a == [] {
      assert a + b == b;
    } else {
      assert (a + b)[1..] == a[1..] + b;
      FramesOf(a[1..], b);
    }
  }

  lemma FramesOne(c: Chunk)
    ensures Frames([c]) == Frame(c)
  {
    assert [c][1..] == [];
  }

  /** Appends one chunk to a buffer that holds the frames of `done`. */
  method Append(buf: Bytes, ghost done: seq<Chunk>, kind: Word16, payload: Bytes) returns (r: Bytes, ghost done': seq<Chunk>)
    requires buf == Frames(done)
    ensures done' == done + [Own(kind, payload)] && r == Frames(done')
  {
    hide Frames, Frame;
    r := WriteChunk(buf, kind, payload);
    done' := done + [Own(kind, payload)];
    FramesOf(done, [Own(kind, payload)]);
    FramesOne(Own(kind, payload));
  }

  method WriteHead(m: Message, src: IP, dst: IP) returns (buf: Bytes)
    ensures buf == Frames(HeadChunks(m, src, dst))
  {
    hide Frames, Frame;
    ghost var done: seq<Chunk> := [];
    buf := [];
    assert buf == Frames(done) by { FramesEmpty(); }
    buf, done := Append(buf, done, IP_FAMILY, [if src.V6? then FAMILY_IPV6 else FAMILY_IPV4]);
    buf, done := Append(buf, done, IP_PROTO, [m.ipProtocol]);
    if src.V6? {
      buf, done := Append(buf, done, IPV6_SRC, To16(src));
      buf, done := Append(buf, done, IPV6_DST, To16(dst));
    } else {
      buf, done := Append(buf, done, IPV4_SRC, To4(src));
      buf, done := Append(buf, done, IPV4_DST, To4(dst));
    }
    assert done == HeadChunks(m, src, dst);
  }

  lemma FramesEmpty()
    ensures Frames([]) == []
  {
  }

  method WriteMiddle(buf0: Bytes, ghost done0: seq<Chunk>, m: Message, t: int) returns (buf: Bytes)
    requires 0 <= m.srcPort < 0x1_0000 && 0 <= m.dstPort < 0x1_0000 && buf0 == Frames(done0)
    ensures buf == Frames(done0 + MiddleChunks(m, t))
  {
    hide Frames, Frame, Seconds, Micros, U16, U32;
    ghost var done := done0;
    buf, done := Append(buf0, done, SRC_PORT, U16(m.srcPort));
    buf, done := Append(buf, done, DST_PORT, U16(m.dstPort));
    buf, done := Append(buf, done, TIME_SEC, U32(Seconds(t)));
    buf, done := Append(buf, done, TIME_USEC, U32(Micros(t)));
    buf, done := Append(buf, done, PROTO_TYPE, [m.protoType]);
    buf, done := Append(buf, done, CAPTURE_ID, U32(m.captureID));
    assert done == done0 + MiddleChunks(m, t);
  }

  method WriteTail(buf0: Bytes, ghost done0: seq<Chunk>, m: Message) returns (buf: Bytes)
    requires buf0 == Frames(done0)
    ensures buf == Frames(done0 + TailChunks(m))
  {
    hide Frames, Frame;
    ghost var done := done0;
    buf := buf0;
    if m.authKey != [] {
      buf, done := Append(buf, done, AUTH_KEY, m.authKey);
    }
    if m.correlationID != [] {
      buf, done := Append(buf, done, CORRELATION_ID, m.correlationID);
    }
    buf, done := Append(buf, done, PAYLOAD, m.payload);
    assert done == done0 + TailChunks(m);
  }

  method EncodePacket(m: Message, now: int) returns (r: Result<Bytes>)
    ensures r == Encode(m, now)
  {
    hide Frames, HeadChunks, MiddleChunks, TailChunks;
    if m.srcIP.None? {
      return Err(BadSourceIP);
    }
    if m.dstIP.None? {
      return Err(BadDestinationIP);
    }
    if m.srcPort < 0 || m.srcPort > 65535 {
      return Err(BadSourcePort);
    }
    if m.dstPort < 0 || m.dstPort > 65535 {
      return Err(BadDestinationPort);
    }
    var t := if m.time.Some? then m.time.value else now;
    var src, dst := m.srcIP.value, m.dstIP.value;
    var buf := WriteHead(m, src, dst);
    buf := WriteMiddle(buf, HeadChunks(m, src, dst), m, t);
    buf := WriteTail(buf, HeadChunks(m, src, dst) + MiddleChunks(m, t), m);
    var total := 6 + |buf|;
    if total > 65535 {
      return Err(TooLarge);
    }
    return Ok(HEADER + U16(total) + buf);
  }

  method DecodePacket(packet: Bytes) returns (r: Result<Decoded>)
    ensures r == Decode(packet)
  {
    hide Apply, ReadU16;
    if |packet| < 6 {
      return Err(TooShort);
    }
    if packet[..4] != HEADER {
      return Err(BadHeader);
    }
    if ReadU16(packet[4..6]) != |packet| {
      return Err(BadLength);
    }
    var out := BLANK;
    var offset := 6;
    while offset < |packet|
      invariant 6 <= offset <= |packet|
      invariant DecodeFrom(out, packet[offset..]) == DecodeFrom(BLANK, packet[6..])
    {
      ghost var b := packet[offset..];
      if |packet| - offset < 6 {
        return Err(TruncatedChunk);
      }
      var kind := ReadU16(packet[offset + 2..offset + 4]);
      var n := ReadU16(packet[offset + 4..offset + 6]);
      assert b[2..4] == packet[offset + 2..offset + 4] && b[4..6] == packet[offset + 4..offset + 6];
      if n < 6 || offset + n > |packet| {
        return Err(BadChunkLength);
      }
      assert b[6..n] == packet[offset + 6..offset + n] && b[n..] == packet[offset + n..];
      out := Apply(out, kind, packet[offset + 6..offset + n]);
      offset := offset + n;
    }
    return Ok(out);
  }
}
