/**
 HEP3 packets byte by byte: what the encoder writes, when it refuses, and which
 packets the decoder takes. Chunk types and sizes are written out as numbers.
 */
module Hep3Wire {
  import opened Common
  import opened Wire
  import opened Hep3

  function Two(v: Word16): Bytes
  {
    [v / 0x100, v % 0x100]
  }

  function Four(v: Word32): Bytes
  {
    [v / 0x100_0000, v / 0x1_0000 % 0x100, v / 0x100 % 0x100, v % 0x100]
  }

  /** A chunk: no vendor, its type, the length with its six bytes of header, its payload. */
  function ChunkBytes(kind: Word16, payload: Bytes): Bytes
    requires |payload| + 6 < 0x1_0000
  {
    [0, 0] + Two(kind) + Two(|payload| + 6) + payload
  }

  lemma TwoIs(v: Word16)
    ensures U16(v) == Two(v)
  {
  }

  lemma FourIs(v: Word32)
    ensures U32(v) == Four(v)
  {
    var hi, lo := v / 0x1_0000, v % 0x1_0000;
    assert v / 0x100_0000 == hi / 0x100 && v / 0x1_0000 % 0x100 == hi % 0x100;
    assert v == 0x100 * (0x100 * hi) + lo && v / 0x100 == 0x100 * hi + lo / 0x100;
    assert v / 0x100 % 0x100 == lo / 0x100 && v % 0x100 == lo % 0x100;
  }

  lemma FrameIs(kind: Word16, payload: Bytes)
    requires |payload| + 6 < 0x1_0000
    ensures Frame(Own(kind, payload)) == ChunkBytes(kind, payload)
  {
    TwoIs(0);
    TwoIs(kind);
    TwoIs(|payload| + 6);
  }

  // ---------- the layout ----------

  /** An IPv4 address next to an IPv6 source is mapped (section 2.5.5.2 of RFC 4291); an IPv6 one next to an IPv4
      source is lost. */
  function Addresses(src: IP, dst: IP): Bytes
  {
    match src
    case V6(s) =>
      ChunkBytes(5, s) + ChunkBytes(6, if dst.V6? then dst.b16 else [0, 0, 0, 0, 0, 0, 0, 0, 0, 0, 255, 255] + dst.b4)
    case V4(s) => ChunkBytes(3, s) + ChunkBytes(4, if dst.V6? then [] else dst.b4)
  }

  function Times(t: int): Bytes
  {
    ChunkBytes(9, Four(t / 1_000_000_000 % 0x1_0000_0000)) + ChunkBytes(10, Four(t % 1_000_000_000 / 1000))
  }

  function Optional(kind: Word16, payload: Bytes): Bytes
    requires |payload| + 6 < 0x1_0000
  {
    if payload == [] then [] else ChunkBytes(kind, payload)
  }

  predicate Sendable(m: Message)
  {
    && m.srcIP.Some? && m.dstIP.Some? && 0 <= m.srcPort <= 65535 && 0 <= m.dstPort <= 65535
    && |m.authKey| + 6 < 0x1_0000 && |m.correlationID| + 6 < 0x1_0000 && |m.payload| + 6 < 0x1_0000
  }

  /** Everything after the six bytes of header. */
  function Body(m: Message, t: int): Bytes
    requires Sendable(m)
  {
    ChunkBytes(1, [if m.srcIP.value.V6? then 10 else 2]) + ChunkBytes(2, [m.ipProtocol])
    + Addresses(m.srcIP.value, m.dstIP.value)
    + (ChunkBytes(7, Two(m.srcPort)) + ChunkBytes(8, Two(m.dstPort)) + Times(t)
       + ChunkBytes(11, [m.protoType]) + ChunkBytes(12, Four(m.captureID)))
    + (Optional(14, m.authKey) + Optional(17, m.correlationID) + ChunkBytes(15, m.payload))
  }

  lemma FramesTwo(c: Chunk, c': Chunk)
    ensures Frames([c, c']) == Frame(c) + Frame(c')
  {
    assert [c, c'] == [c] + [c'];
    FramesOf([c], [c']);
    FramesOne(c);
    FramesOne(c');
  }

  lemma HeadBytes(m: Message, src: IP, dst: IP)
    ensures Frames(HeadChunks(m, src, dst))
            == ChunkBytes(1, [if src.V6? then 10 else 2]) + ChunkBytes(2, [m.ipProtocol]) + Addresses(src, dst)
  {
    hide Frame, Frames, ChunkBytes;
    var a := [Own(IP_FAMILY, [if src.V6? then FAMILY_IPV6 else FAMILY_IPV4]), Own(IP_PROTO, [m.ipProtocol])];
    var b := AddressChunks(src, dst);
    FramesOf(a, b);
    FramesTwo(a[0], a[1]);
    FramesTwo(b[0], b[1]);
    FrameIs(a[0].kind, a[0].payload);
    FrameIs(a[1].kind, a[1].payload);
    FrameIs(b[0].kind, b[0].payload);
    FrameIs(b[1].kind, b[1].payload);
  }

  lemma MiddleBytes(m: Message, t: int)
    requires 0 <= m.srcPort <= 65535 && 0 <= m.dstPort <= 65535
    ensures Frames(MiddleChunks(m, t))
            == ChunkBytes(7, Two(m.srcPort)) + ChunkBytes(8, Two(m.dstPort)) + Times(t)
               + ChunkBytes(11, [m.protoType]) + ChunkBytes(12, Four(m.captureID))
  {
    hide Frame, Frames, ChunkBytes, U16, U32, Two, Four;
    var a := [Own(SRC_PORT, U16(m.srcPort)), Own(DST_PORT, U16(m.dstPort))];
    var b := [Own(TIME_SEC, U32(Seconds(t))), Own(TIME_USEC, U32(Micros(t)))];
    var c := [Own(PROTO_TYPE, [m.protoType]), Own(CAPTURE_ID, U32(m.captureID))];
    assert MiddleChunks(m, t) == a + b + c;
    FramesOf(a + b, c);
    FramesOf(a, b);
    FramesTwo(a[0], a[1]);
    FramesTwo(b[0], b[1]);
    FramesTwo(c[0], c[1]);
    TwoIs(m.srcPort);
    TwoIs(m.dstPort);
    FourIs(Seconds(t));
    FourIs(Micros(t));
    FourIs(m.captureID);
    FrameIs(7, U16(m.srcPort));
    FrameIs(8, U16(m.dstPort));
    FrameIs(9, U32(Seconds(t)));
    FrameIs(10, U32(Micros(t)));
    FrameIs(11, [m.protoType]);
    FrameIs(12, U32(m.captureID));
  }

  lemma TailBytes(m: Message)
    requires |m.authKey| + 6 < 0x1_0000 && |m.correlationID| + 6 < 0x1_0000 && |m.payload| + 6 < 0x1_0000
    ensures Frames(TailChunks(m)) == Optional(14, m.authKey) + Optional(17, m.correlationID) + ChunkBytes(15, m.payload)
  {
    hide Frame, ChunkBytes;
    var a := if m.authKey != [] then [Own(AUTH_KEY, m.authKey)] else [];
    var b := if m.correlationID != [] then [Own(CORRELATION_ID, m.correlationID)] else [];
    var c := [Own(PAYLOAD, m.payload)];
    FramesOf(a + b, c);
    FramesOf(a, b);
    FramesOne(Own(AUTH_KEY, m.authKey));
    FramesOne(Own(CORRELATION_ID, m.correlationID));
    FramesOne(c[0]);
    FrameIs(14, m.authKey);
    FrameIs(17, m.correlationID);
    FrameIs(15, m.payload);
  }

  lemma BodyBytes(m: Message, t: int)
    requires Sendable(m)
    ensures Frames(Chunks(m, m.srcIP.value, m.dstIP.value, t)) == Body(m, t)
  {
    hide Frames, ChunkBytes, HeadChunks, MiddleChunks, TailChunks, Addresses, Times, Optional, Two, Four;
    var src, dst := m.srcIP.value, m.dstIP.value;
    FramesOf(HeadChunks(m, src, dst) + MiddleChunks(m, t), TailChunks(m));
    FramesOf(HeadChunks(m, src, dst), MiddleChunks(m, t));
    HeadBytes(m, src, dst);
    MiddleBytes(m, t);
    TailBytes(m);
  }

  // ---------- sizes ----------

  /** The size of the whole packet. */
  function Size(m: Message): nat
    requires m.srcIP.Some? && m.dstIP.Some?
  {
    79 + (match m.srcIP.value
          case V6(_) => 44
          case V4(_) => if m.dstIP.value.V4? then 20 else 16)
    + (if m.authKey == [] then 0 else 6 + |m.authKey|)
    + (if m.correlationID == [] then 0 else 6 + |m.correlationID|) + |m.payload|
  }

  lemma FrameSize(c: Chunk)
    ensures |Frame(c)| == 6 + |c.payload|
  {
  }

  function Total(cs: seq<Chunk>): nat
  {
    if cs == [] then 0 else 6 + |cs[0].payload| + Total(cs[1..])
  }

  lemma {:induction false} TotalOf(a: seq<Chunk>, b: seq<Chunk>)
    ensures Total(a + b) == Total(a) + Total(b)
  {
    if a == [] {
      assert a + b == b;
    } else {
      assert (a + b)[1..] == a[1..] + b;
      TotalOf(a[1..], b);
    }
  }

  lemma {:induction false} FramesSize(cs: seq<Chunk>)
    ensures |Frames(cs)| == Total(cs)
  {
    if cs != [] {
      FramesSize(cs[1..]);
    }
  }

  lemma TotalTwo(c: Chunk, c': Chunk)
    ensures Total([c, c']) == 12 + |c.payload| + |c'.payload| && Total([c]) == 6 + |c.payload| && Total([]) == 0
  {
    assert [c, c'][1..] == [c'] && [c][1..] == [] && [c'][1..] == [];
    assert Total([c']) == 6 + |c'.payload|;
  }

  lemma HeadSize(m: Message, src: IP, dst: IP)
    ensures Total(HeadChunks(m, src, dst)) == 26 + |AddressChunks(src, dst)[0].payload| + |AddressChunks(src, dst)[1].payload|
  {
    hide Total;
    var a := [Own(IP_FAMILY, [if src.V6? then FAMILY_IPV6 else FAMILY_IPV4]), Own(IP_PROTO, [m.ipProtocol])];
    var b := AddressChunks(src, dst);
    TotalOf(a, b);
    TotalTwo(a[0], a[1]);
    TotalTwo(b[0], b[1]);
    assert b == [b[0], b[1]];
  }

  lemma MiddleSize(m: Message, t: int)
    requires 0 <= m.srcPort <= 65535 && 0 <= m.dstPort <= 65535
    ensures Total(MiddleChunks(m, t)) == 53
  {
    hide Total;
    var a := [Own(SRC_PORT, U16(m.srcPort)), Own(DST_PORT, U16(m.dstPort))];
    var b := [Own(TIME_SEC, U32(Seconds(t))), Own(TIME_USEC, U32(Micros(t)))];
    var c := [Own(PROTO_TYPE, [m.protoType]), Own(CAPTURE_ID, U32(m.captureID))];
    assert MiddleChunks(m, t) == a + b + c;
    TotalOf(a + b, c);
    TotalOf(a, b);
    TotalTwo(a[0], a[1]);
    TotalTwo(b[0], b[1]);
    TotalTwo(c[0], c[1]);
  }

  lemma TailSize(m: Message)
    ensures Total(TailChunks(m)) == (if m.authKey == [] then 0 else 6 + |m.authKey|)
                                    + (if m.correlationID == [] then 0 else 6 + |m.correlationID|) + 6 + |m.payload|
  {
    hide Total;
    var a := if m.authKey != [] then [Own(AUTH_KEY, m.authKey)] else [];
    var b := if m.correlationID != [] then [Own(CORRELATION_ID, m.correlationID)] else [];
    var c := Own(PAYLOAD, m.payload);
    TotalOf(a + b, [c]);
    TotalOf(a, b);
    TotalTwo(Own(AUTH_KEY, m.authKey), c);
    TotalTwo(Own(CORRELATION_ID, m.correlationID), c);
    TotalTwo(c, c);
  }

  lemma BodySize(m: Message, t: int)
    requires m.srcIP.Some? && m.dstIP.Some? && 0 <= m.srcPort <= 65535 && 0 <= m.dstPort <= 65535
    ensures 6 + |Frames(Chunks(m, m.srcIP.value, m.dstIP.value, t))| == Size(m)
  {
    hide Frames, HeadChunks, MiddleChunks, TailChunks, Total;
    var src, dst := m.srcIP.value, m.dstIP.value;
    FramesSize(Chunks(m, src, dst, t));
    TotalOf(HeadChunks(m, src, dst) + MiddleChunks(m, t), TailChunks(m));
    TotalOf(HeadChunks(m, src, dst), MiddleChunks(m, t));
    HeadSize(m, src, dst);
    MiddleSize(m, t);
    TailSize(m);
  }

  /** A message is encoded if and only if its addresses resolve, its ports fit 16 bits and the packet 65535 bytes; the
      first of these that fails is the error. */
  lemma EncodesIff(m: Message, now: int)
    ensures Encode(m, now).Ok? <==>
              m.srcIP.Some? && m.dstIP.Some? && 0 <= m.srcPort <= 65535 && 0 <= m.dstPort <= 65535 && Size(m) <= 65535
    ensures Encode(m, now).Err? ==>
              Encode(m, now).error ==
              if m.srcIP.None? then BadSourceIP else if m.dstIP.None? then BadDestinationIP
              else if !(0 <= m.srcPort <= 65535) then BadSourcePort
              else if !(0 <= m.dstPort <= 65535) then BadDestinationPort else TooLarge
  {
    hide Frames, Chunks, Size;
    var t := if m.time.Some? then m.time.value else now;
    if m.srcIP.Some? && m.dstIP.Some? && 0 <= m.srcPort <= 65535 && 0 <= m.dstPort <= 65535 {
      BodySize(m, t);
    }
  }

  /** What is encoded, byte by byte: the four letters, the size of the packet, and the chunks in their order. */
  lemma Layout(m: Message, now: int)
    requires Encode(m, now).Ok?
    ensures Sendable(m) && Size(m) <= 65535
    ensures Encode(m, now).value == [72, 69, 80, 51] + Two(Size(m)) + Body(m, if m.time.Some? then m.time.value else now)
  {
    hide Frames, Chunks, Body, Two, U16;
    var t := if m.time.Some? then m.time.value else now;
    EncodesIff(m, now);
    BodySize(m, t);
    BodyBytes(m, t);
    TwoIs(Size(m));
  }

  // ---------- which packets decode ----------

  lemma FrameOf(b: Bytes, n: nat) returns (c: Chunk)
    requires 6 <= n <= |b| && n < 0x1_0000 && ReadU16(b[4..6]) == n
    ensures b == Frame(c) + b[n..] && c.kind == ReadU16(b[2..4]) && c.payload == b[6..n]
  {
    hide U16, ReadU16;
    c := Chunk(ReadU16(b[..2]), ReadU16(b[2..4]), b[6..n]);
    assert |c.payload| + 6 == n;
    ReadBack(b[..2]);
    ReadBack(b[2..4]);
    ReadBack(b[4..6]);
    assert b == b[..2] + b[2..4] + b[4..6] + b[6..n] + b[n..];
  }

  lemma ReadBack(b: Bytes)
    requires |b| == 2
    ensures U16(ReadU16(b)) == b
  {
  }

  lemma {:induction false} TakenIsFrames(d: Decoded, b: Bytes) returns (cs: seq<Chunk>)
    requires DecodeFrom(d, b).Ok? && |b| < 0x1_0000
    ensures b == Frames(cs)
    decreases |b|
  {
    hide Apply, Frame, ReadU16;
    if b == [] {
      return [];
    }
    var n := ReadU16(b[4..6]);
    var c := FrameOf(b, n);
    var rest := TakenIsFrames(Apply(d, ReadU16(b[2..4]), b[6..n]), b[n..]);
    cs := [c] + rest;
    assert cs[1..] == rest;
  }

  /** The bytes of a packet with these chunks. */
  ghost predicate Carries(packet: Bytes, cs: seq<Chunk>)
  {
    6 + |Frames(cs)| < 0x1_0000 && packet == [72, 69, 80, 51] + Two(6 + |Frames(cs)|) + Frames(cs)
  }

  lemma CarriesIs(cs: seq<Chunk>)
    requires 6 + |Frames(cs)| < 0x1_0000
    ensures Carries(Packet(Frames(cs)), cs)
  {
    hide Frames;
    TwoIs(6 + |Frames(cs)|);
  }

  /** A packet decodes if and only if it is the four letters, its own size and whole chunks; then the message is what
      the chunks set one after the other. */
  lemma DecodesIff(packet: Bytes)
    ensures Decode(packet).Ok? <==> exists cs :: Carries(packet, cs)
    ensures forall cs :: Carries(packet, cs) ==> Decode(packet) == Ok(Fold(BLANK, cs))
  {
    hide Frames, Fold, DecodeFrom;
    forall cs | Carries(packet, cs)
      ensures Decode(packet) == Ok(Fold(BLANK, cs))
    {
      TwoIs(6 + |Frames(cs)|);
      PacketDecodes(cs);
    }
    if Decode(packet).Ok? {
      ReadBack(packet[4..6]);
      assert packet == packet[..4] + packet[4..6] + packet[6..];
      var cs := TakenIsFrames(BLANK, packet[6..]);
      assert packet == Packet(Frames(cs));
      CarriesIs(cs);
    }
  }

  /** The size that the payload of a chunk must have, for those that have one. */
  function FixedSize(kind: Word16): Option<nat>
  {
    if kind in {1, 2, 11} then Some(1) else if kind in {7, 8} then Some(2) else if kind in {9, 10, 12} then Some(4) else None
  }

  /** A chunk of the wrong size is passed over. */
  lemma WrongSizeIgnored(d: Decoded, kind: Word16, payload: Bytes)
    requires FixedSize(kind).Some? && |payload| != FixedSize(kind).value
    ensures Apply(d, kind, payload) == d
  {
  }
}
