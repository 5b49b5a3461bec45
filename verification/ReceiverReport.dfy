/**
 What a receiver keeps about incoming RTP for its RTCP reports: the extended
 highest sequence number and the cumulative loss, in the machine words of the
 program. Follows section 6.4.1 and appendixes A.1 and A.3 of RFC 3550.
 */
module ReceiverReport {
  import opened Common
  import opened Arith
  import opened Wire

  const M16 := 0x1_0000
  const M32 := 0x1_0000_0000

  /** Two's complement readings of machine words. */
  function AsInt16(x: Word16): int
  {
    if x < 0x8000 then x else x - M16
  }

  function AsInt32(x: Word32): int
  {
    if x < 0x8000_0000 then x else x - M32
  }

  datatype Stats = Stats(hasFirst: bool, ssrc: Word32, firstSeq: Word16, extHigh: Word32, received: Word32, lost: int)

  const RESET := Stats(false, 0, 0, 0, 0, 0)

  function Expected(s: Stats): Word32
  {
    (s.extHigh - s.firstSeq + 1) % M32
  }

  /** The loss is a difference of 32-bit words read as signed, and never negative. */
  function Lost(expected: Word32, received: Word32): int
  {
    var d := AsInt32((AsInt32(expected) - AsInt32(received)) % M32);
    if d < 0 then 0 else d
  }

  function Observe(s: Stats, ssrc: Word32, number: Word16): Stats
  {
    if !s.hasFirst then Stats(true, ssrc, number, number, 1, s.lost)
    else if ssrc != s.ssrc then s
    else
      var diff := AsInt16((number - s.extHigh % M16) % M16);
      var s' := s.(extHigh := if diff > 0 then (s.extHigh + diff) % M32 else s.extHigh,
                   received := (s.received + 1) % M32);
      s'.(lost := Lost(Expected(s'), s'.received))
  }

  /** The fraction lost, in 256ths. The clamp is the program's. */
  function FractionLost(s: Stats): int
  {
    var expected := Expected(s);
    if expected > 0 && s.lost > 0 then
      var f := s.lost as real / expected as real;
      ((if f > 1.0 then 1.0 else f) * 256.0).Floor
    else 0
  }

  // ---------- a stream of packets with true indexes ----------

  /** The number of the packet i places after the first one (before it, if i is negative). */
  function Num(first: Word16, i: int): Word16
  {
    (first + i) % M16
  }

  function Run(ssrc: Word32, first: Word16, idx: seq<int>): Stats
  {
    if idx == [] then RESET
    else Observe(Run(ssrc, first, idx[..|idx| - 1]), ssrc, Num(first, idx[|idx| - 1]))
  }

  /** The highest index. */
  function High(idx: seq<int>): int
    requires idx != []
  {
    var n := |idx| - 1;
    if n == 0 then idx[0]
    else
      var h := High(idx[..n]);
      if idx[n] > h then idx[n] else h
  }

  /** Every packet is within 32767 places of the highest one so far. */
  ghost predicate Near(idx: seq<int>)
  {
    && (idx != [] ==> idx[0] == 0)
    && forall j :: 0 < j < |idx| ==> -32768 <= idx[j] - High(idx[..j]) <= 32767
  }

  lemma Mod16Of32(x: int)
    ensures (x % M32) % M16 == x % M16
  {
    assert x == x % M32 + M16 * (M16 * (x / M32));
    ModPlusMultiple(x % M32, M16, M16 * (x / M32));
  }

  /** The signed 16-bit distance of two numbers is the true distance when that is small. */
  lemma TrueDistance(first: Word16, high: int, i: int)
    requires -32768 <= i - high <= 32767
    ensures AsInt16((Num(first, i) - ((first + high) % M32) % M16) % M16) == i - high
  {
    Mod16Of32(first + high);
    var a, b := Num(first, i), (first + high) % M16;
    var d := i - high;
    // a - b is d up to a multiple of 2^16
    var k := (first + high) / M16 - (first + i) / M16;
    assert a - b == d + M16 * k;
    ModPlusMultiple(d, M16, k);
    if d >= 0 {
      DivSmall(d, M16);
    } else {
      DivStep(d + M16, M16);
      DivSmall(d + M16, M16);
    }
  }

  ghost predicate Tracks(s: Stats, ssrc: Word32, first: Word16, high: int, n: nat)
  {
    && s.hasFirst && s.ssrc == ssrc && s.firstSeq == first
    && s.extHigh == (first + high) % M32
    && s.received == n % M32
  }

  lemma ObserveTracks(s: Stats, ssrc: Word32, first: Word16, high: int, n: nat, i: int)
    requires Tracks(s, ssrc, first, high, n) && -32768 <= i - high <= 32767
    ensures Tracks(Observe(s, ssrc, Num(first, i)), ssrc, first, if i > high then i else high, n + 1)
  {
    TrueDistance(first, high, i);
    ModAdd(first + high, i - high, M32);
    ModAdd(n, 1, M32);
  }

  /** The extended highest number is the first number plus the true highest index, through any number of
      wraps of the 16-bit number (and of the 32-bit word). */
  lemma {:induction false} HighestIsTrue(ssrc: Word32, first: Word16, idx: seq<int>)
    requires Near(idx) && idx != []
    ensures Tracks(Run(ssrc, first, idx), ssrc, first, High(idx), |idx|)
    decreases |idx|
  {
    var n := |idx| - 1;
    if n == 0 {
      DivSmall(first, M16);
      DivSmall(first, M32);
      assert Run(ssrc, first, []) == RESET;
    } else {
      var p := idx[..n];
      assert forall j :: 0 < j < n ==> p[..j] == idx[..j];
      HighestIsTrue(ssrc, first, p);
      ObserveTracks(Run(ssrc, first, p), ssrc, first, High(p), n, idx[n]);
    }
  }

  // ---------- loss ----------

  /** A 32-bit word and its signed reading differ by a multiple of 2^32. */
  lemma SignedDifference(a: Word32, b: Word32)
    ensures (AsInt32(a) - AsInt32(b)) % M32 == (a - b) % M32
  {
    var k := (if a < 0x8000_0000 then 0 else -1) - (if b < 0x8000_0000 then 0 else -1);
    assert AsInt32(a) - AsInt32(b) == (a - b) + M32 * k;
    ModPlusMultiple(a - b, M32, k);
  }

  /** The loss that the words give is the true difference, cut at zero, when that fits 31 bits. */
  lemma LostIsDifference(first: Word16, high: int, n: nat)
    requires -0x8000_0000 < high + 1 - n < 0x8000_0000
    ensures Lost((high + 1) % M32, n % M32) == if high + 1 < n then 0 else high + 1 - n
  {
    var a, b, d := (high + 1) % M32, n % M32, high + 1 - n;
    SignedDifference(a, b);
    var k := n / M32 - (high + 1) / M32;
    assert a - b == d + M32 * k;
    ModPlusMultiple(d, M32, k);
    if d >= 0 {
      DivSmall(d, M32);
    } else {
      DivStep(d + M32, M32);
      DivSmall(d + M32, M32);
    }
  }

  lemma ExpectedIsHigh(s: Stats, ssrc: Word32, first: Word16, high: int, n: nat)
    requires Tracks(s, ssrc, first, high, n)
    ensures Expected(s) == (high + 1) % M32
  {
    ModAdd(first + high, 1 - first, M32);
  }

  /** With any packets, repeated or early ones too, the loss is the span from the first packet to the
      highest one, less the packets received, and zero if that is negative. */
  lemma LossFormula(ssrc: Word32, first: Word16, idx: seq<int>)
    requires Near(idx) && idx != [] && -0x8000_0000 < High(idx) + 1 - |idx| < 0x8000_0000
    ensures Run(ssrc, first, idx).lost == if High(idx) + 1 < |idx| then 0 else High(idx) + 1 - |idx|
  {
    hide High, AsInt16, Num;
    HighestIsTrue(ssrc, first, idx);
    var s := Run(ssrc, first, idx);
    ExpectedIsHigh(s, ssrc, first, High(idx), |idx|);
    LostIsDifference(first, High(idx), |idx|);
    var n := |idx| - 1;
    if n == 0 {
      assert Run(ssrc, first, []) == RESET;
      assert High(idx) == 0 by { OneHigh(idx); }
    } else {
      var p := idx[..n];
      assert forall j :: 0 < j < n ==> p[..j] == idx[..j];
      HighestIsTrue(ssrc, first, p);
    }
  }

  lemma OneHigh(idx: seq<int>)
    requires |idx| == 1
    ensures High(idx) == idx[0]
  {
  }

  ghost function Missing(idx: seq<int>): set<int>
    requires idx != []
  {
    set x | 0 <= x <= High(idx) && x !in idx
  }

  ghost function UpTo(n: nat): (r: set<int>)
    ensures |r| == n
    ensures forall x :: x in r <==> 0 <= x < n
  {
    if n == 0 then {} else UpTo(n - 1) + {n - 1}
  }

  lemma {:induction false} DistinctCount(idx: seq<int>)
    requires forall i, j :: 0 <= i < j < |idx| ==> idx[i] != idx[j]
    ensures |set x | x in idx| == |idx|
  {
    if idx != [] {
      var n := |idx| - 1;
      DistinctCount(idx[..n]);
      assert (set x | x in idx) == (set x | x in idx[..n]) + {idx[n]};
    }
  }

  lemma {:induction false} HighBounds(idx: seq<int>)
    requires idx != []
    ensures forall i :: 0 <= i < |idx| ==> idx[i] <= High(idx)
  {
    if |idx| > 1 {
      HighBounds(idx[..|idx| - 1]);
    }
  }

  lemma MissingCount(idx: seq<int>)
    requires idx != [] && forall i :: 0 <= i < |idx| ==> idx[i] >= 0
    requires forall i, j :: 0 <= i < j < |idx| ==> idx[i] != idx[j]
    ensures |Missing(idx)| == High(idx) + 1 - |idx|
  {
    HighBounds(idx);
    var all, some := UpTo(High(idx) + 1), set x | x in idx;
    DistinctCount(idx);
    assert Missing(idx) == all - some && some <= all;
  }

  /** With no packet repeated and none before the first, the loss is the number of missing packets. */
  lemma LossIsMissing(ssrc: Word32, first: Word16, idx: seq<int>)
    requires Near(idx) && idx != [] && forall i :: 0 <= i < |idx| ==> idx[i] >= 0
    requires forall i, j :: 0 <= i < j < |idx| ==> idx[i] != idx[j]
    requires |Missing(idx)| < 0x8000_0000
    ensures Run(ssrc, first, idx).lost == |Missing(idx)|
  {
    MissingCount(idx);
    LossFormula(ssrc, first, idx);
  }

  /** The fraction fits its byte without the clamp: at least one packet was received. */
  lemma FractionFits(ssrc: Word32, first: Word16, idx: seq<int>)
    requires Near(idx) && idx != []
    requires -0x8000_0000 < High(idx) + 1 - |idx| < 0x8000_0000 && High(idx) + 1 < M32
    ensures var s := Run(ssrc, first, idx);
            && 0 <= s.lost < Expected(s)
            && 0 <= FractionLost(s) <= 255
            && FractionLost(s) * Expected(s) <= 256 * s.lost < (FractionLost(s) + 1) * Expected(s)
  {
    hide Run, Near, High, Tracks, Expected;
    var s := Run(ssrc, first, idx);
    var high := High(idx);
    HighestIsTrue(ssrc, first, idx);
    LossFormula(ssrc, first, idx);
    ExpectedIsHigh(s, ssrc, first, high, |idx|);
    assert high >= 0 by { NearHigh(idx); }
    DivSmall(high + 1, M32);
    FractionOf(s.lost, high + 1);
  }

  /** The number for the byte is in its range if and only if less was lost than expected, or nothing. */
  lemma FractionInRange(s: Stats)
    requires s.lost >= 0
    ensures FractionLost(s) <= 255 <==> s.lost == 0 || Expected(s) == 0 || s.lost < Expected(s)
  {
    hide Expected;
    var expected := Expected(s);
    if 0 < s.lost < expected {
      FractionOf(s.lost, expected);
    } else if expected > 0 && s.lost >= expected {
      AtLeastOne(s.lost, expected);
    }
  }

  lemma AtLeastOne(a: int, b: int)
    requires a >= b > 0
    ensures a as real / b as real >= 1.0
  {
  }

  lemma {:induction false} HighOfCount(idx: seq<int>)
    requires idx != [] && forall i :: 0 <= i < |idx| ==> idx[i] == i
    ensures High(idx) == |idx| - 1
    decreases |idx|
  {
    if |idx| > 1 {
      HighOfCount(idx[..|idx| - 1]);
    }
  }

  /** Past 2^32 packets the range is left: after 2^32 - gap packets in a row and a gap of any length below
      32767, the expected count has wrapped to one. */
  lemma LongStreamLeavesRange(ssrc: Word32, first: Word16, gap: nat)
    requires 1 <= gap < 32767
    ensures var idx := seq(M32 - gap, i => i) + [M32];
            && Near(idx)
            && var s := Run(ssrc, first, idx); s.lost == gap && Expected(s) == 1 && FractionLost(s) == 256
  {
    hide Run, Near, High, Expected, FractionLost;
    var count := seq(M32 - gap, i => i);
    LongStreamNear(count, gap);
    LeavesRange(ssrc, first, count + [M32], gap);
  }

  lemma LeavesRange(ssrc: Word32, first: Word16, idx: seq<int>, gap: nat)
    requires 1 <= gap < 32767 && |idx| == M32 - gap + 1 && Near(idx) && High(idx) == M32
    ensures var s := Run(ssrc, first, idx); s.lost == gap && Expected(s) == 1 && FractionLost(s) == 256
  {
    hide Run, Tracks, Expected, Near, High;
    HighestIsTrue(ssrc, first, idx);
    LossFormula(ssrc, first, idx);
    ExpectedIsHigh(Run(ssrc, first, idx), ssrc, first, M32, |idx|);
    AtLeastOne(gap, 1);
  }

  lemma LongStreamNear(count: seq<int>, gap: nat)
    requires 1 <= gap < 32767 && |count| == M32 - gap && forall i :: 0 <= i < |count| ==> count[i] == i
    ensures Near(count + [M32]) && High(count + [M32]) == M32
  {
    var idx := count + [M32];
    assert idx[..|count|] == count;
    HighOfCount(count);
    forall j | 0 < j < |idx|
      ensures -32768 <= idx[j] - High(idx[..j]) <= 32767
    {
      HighOfCount(idx[..j]);
    }
  }

  lemma NearHigh(idx: seq<int>)
    requires Near(idx) && idx != []
    ensures High(idx) >= 0
  {
    HighBounds(idx);
  }

  lemma Scale(a: real, b: real, e: real)
    requires e > 0.0
    ensures a <= b ==> a * e <= b * e
    ensures a < b ==> a * e < b * e
  {
  }

  lemma ProductAsReal(a: int, b: int)
    ensures (a * b) as real == a as real * b as real
  {
  }

  lemma AsRealOrder(a: int, b: int)
    ensures a as real <= b as real <==> a <= b
    ensures a as real < b as real <==> a < b
  {
  }

  lemma Below(q: int, expected: int, x: real, y: int)
    requires expected > 0 && x * expected as real == y as real && q as real <= x
    ensures q * expected <= y
  {
    Scale(q as real, x, expected as real);
    ProductAsReal(q, expected);
    AsRealOrder(q * expected, y);
  }

  lemma Above(q: int, expected: int, x: real, y: int)
    requires expected > 0 && x * expected as real == y as real && x < q as real
    ensures y < q * expected
  {
    Scale(x, q as real, expected as real);
    ProductAsReal(q, expected);
    AsRealOrder(y, q * expected);
  }

  /** x is a / b of 256, up to its floor. */
  lemma FloorOf(lost: int, expected: int, x: real)
    requires expected > 0 && x * expected as real == (256 * lost) as real
    ensures x.Floor * expected <= 256 * lost < (x.Floor + 1) * expected
  {
    var q := x.Floor;
    assert q as real <= x < (q + 1) as real;
    Below(q, expected, x, 256 * lost);
    Above(q + 1, expected, x, 256 * lost);
  }

  lemma Quotient(a: real, e: real, f: real)
    requires 0.0 <= a < e && f == a / e
    ensures f * e == a && f < 1.0
  {
    if f >= 1.0 {
      Scale(1.0, f, e);
    }
  }

  lemma FractionOf(lost: int, expected: int)
    requires 0 <= lost < expected
    ensures var f := lost as real / expected as real;
            f < 1.0 && (f * 256.0).Floor <= 255
            && (f * 256.0).Floor * expected <= 256 * lost < ((f * 256.0).Floor + 1) * expected
  {
    var e := expected as real;
    var f := lost as real / e;
    Quotient(lost as real, e, f);
    Scaled(f, e, lost);
    FloorOf(lost, expected, f * 256.0);
  }

  lemma Scaled(f: real, e: real, lost: int)
    requires f * e == lost as real
    ensures (f * 256.0) * e == (256 * lost) as real
  {
    ProductAsReal(256, lost);
    assert (f * 256.0) * e == 256.0 * (f * e);
  }

  // ---------- the session's fields ----------

  // ---------- packets of other sources ----------

  /** The statistics after packets of any sources, by source and number. */
  function Hear(packets: seq<(Word32, Word16)>): Stats
  {
    if packets == [] then RESET
    else
      var n := |packets| - 1;
      Observe(Hear(packets[..n]), packets[n].0, packets[n].1)
  }

  function FromSource(packets: seq<(Word32, Word16)>, ssrc: Word32): seq<(Word32, Word16)>
  {
    if packets == [] then []
    else
      var n := |packets| - 1;
      FromSource(packets[..n], ssrc) + if packets[n].0 == ssrc then [packets[n]] else []
  }

  /** The first packet decides whose stream is counted: packets of other sources change nothing. */
  lemma {:induction false} OthersIgnored(packets: seq<(Word32, Word16)>)
    requires packets != []
    ensures Hear(packets).hasFirst && Hear(packets).ssrc == packets[0].0
    ensures Hear(packets) == Hear(FromSource(packets, packets[0].0))
  {
    var n, ssrc := |packets| - 1, packets[0].0;
    var rest := packets[..n];
    if n == 0 {
      assert FromSource(rest, ssrc) == [] && FromSource(packets, ssrc) == packets;
    } else {
      OthersIgnored(rest);
      var mine := FromSource(rest, ssrc);
      if packets[n].0 == ssrc {
        assert (mine + [packets[n]])[..|mine|] == mine;
      } else {
        assert mine + [] == mine;
      }
    }
  }

  class Receiver {
    var hasFirst: bool
    var ssrc: Word32
    var firstSeq: Word16
    var extHigh: Word32
    var received: Word32
    var lost: int

    ghost function View(): Stats
      reads this
    {
      Stats(hasFirst, ssrc, firstSeq, extHigh, received, lost)
    }

    constructor ()
      ensures View() == RESET
    {
      hasFirst, ssrc, firstSeq, extHigh, received, lost := false, 0, 0, 0, 0, 0;
    }

    method ResetAll()
      modifies this
      ensures View() == RESET
    {
      hasFirst, ssrc, firstSeq, extHigh, received, lost := false, 0, 0, 0, 0, 0;
    }

    method ObservePacket(from: Word32, number: Word16)
      modifies this
      ensures View() == Observe(old(View()), from, number)
      ensures old(hasFirst) && from != old(ssrc) ==> View() == old(View())
    {
      if !hasFirst {
        ssrc, firstSeq, extHigh, hasFirst, received := from, number, number, true, 1;
        return;
      }
      if from != ssrc {
        return;
      }
      var diff := AsInt16((number - extHigh % M16) % M16);
      if diff > 0 {
        extHigh := (extHigh + diff) % M32;
      }
      received := (received + 1) % M32;
      var expected := (extHigh - firstSeq + 1) % M32;
      var d := AsInt32((AsInt32(expected) - AsInt32(received)) % M32);
      if d < 0 {
        d := 0;
      }
      lost := d;
    }

    /** The fraction, loss and highest number of a report block; none before the first packet. */
    method BuildReport() returns (block: Option<(int, int, Word32)>)
      ensures block == if hasFirst then Some((FractionLost(View()), lost, extHigh)) else None
    {
      if !hasFirst {
        return None;
      }
      var expected := (extHigh - firstSeq + 1) % M32;
      var fraction := 0;
      if expected > 0 && lost > 0 {
        var f := lost as real / expected as real;
        if f > 1.0 {
          f := 1.0;
        }
        fraction := (f * 256.0).Floor;
      }
      return Some((fraction, lost, extHigh));
    }
  }
}
