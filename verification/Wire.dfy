/** Big-endian fields of packets. */
module Wire {
  import opened Common

  type Word16 = x: int | 0 <= x < 0x1_0000
  type Word32 = x: int | 0 <= x < 0x1_0000_0000

  function U16(v: Word16): (r: Bytes)
    ensures |r| == 2
  {
    [v / 256, v % 256]
  }

  function U32(v: Word32): (r: Bytes)
    ensures |r| == 4
  {
    U16(v / 0x1_0000) + U16(v % 0x1_0000)
  }

  function ReadU16(b: Bytes): Word16
    requires |b| == 2
  {
    var hi: int, lo: int := b[0], b[1];
    256 * hi + lo
  }

  function ReadU32(b: Bytes): Word32
    requires |b| == 4
  {
    var hi: int, lo: int := ReadU16(b[..2]), ReadU16(b[2..]);
    0x1_0000 * hi + lo
  }

  lemma U16RoundTrip(v: Word16)
    ensures ReadU16(U16(v)) == v
  {
  }

  lemma U32RoundTrip(v: Word32)
    ensures ReadU32(U32(v)) == v
  {
    assert U32(v)[..2] == U16(v / 0x1_0000) && U32(v)[2..] == U16(v % 0x1_0000);
  }
}
