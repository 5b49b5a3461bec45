/**
 The second half of a tick in queued mode: each collected stream patches its
 own buffer in place, and a copy in a pooled buffer goes to the send queue.
 */
module ScaleSend {
  import opened Common
  import opened Arith
  import opened Wire
  import opened ScaleSlots
  import opened ScaleEngine
  import H = MinHeap

  /** A packet with its sequence number and timestamp replaced. */
  function Patched(pkt: Bytes, number: Word16, ts: Word32): (r: Bytes)
    ensures |r| == |pkt|
  {
    if |pkt| < 8 then pkt else pkt[..2] + U16(number) + U32(ts) + pkt[8..]
  }

  /** The patch sets the two fields and no other byte. */
  lemma PatchedFields(pkt: Bytes, number: Word16, ts: Word32)
    requires |pkt| >= 8
    ensures var r := Patched(pkt, number, ts);
            && ReadU16(r[2..4]) == number && ReadU32(r[4..8]) == ts
            && r[..2] == pkt[..2] && r[8..] == pkt[8..]
  {
    var r := Patched(pkt, number, ts);
    assert r[2..4] == U16(number) && r[4..8] == U32(ts);
    U16RoundTrip(number);
    U32RoundTrip(ts);
  }

  /** Patching again forgets the first patch. */
  lemma PatchedTwice(pkt: Bytes, number: Word16, ts: Word32, number': Word16, ts': Word32)
    ensures Patched(Patched(pkt, number, ts), number', ts') == Patched(pkt, number', ts')
  {
    if |pkt| >= 8 {
      var r := Patched(pkt, number, ts);
      assert r[..2] == pkt[..2] && r[8..] == pkt[8..];
    }
  }

  /** The number of the k-th packet, through any number of wraps. */
  function SeqAt(cfg: Config, k: nat): Word16
  {
    (cfg.startSeq + k) % 0x1_0000
  }

  /** Its time. */
  function TsAt(cfg: Config, k: nat): Word32
  {
    (cfg.startTs + k * cfg.samples) % 0x1_0000_0000
  }

  /** The k-th packet of a stream. */
  function PacketAt(cfg: Config, k: nat): Bytes
  {
    Patched(cfg.template, SeqAt(cfg, k), TsAt(cfg, k))
  }

  lemma FirstNumber(cfg: Config)
    ensures SeqAt(cfg, 0) == cfg.startSeq && TsAt(cfg, 0) == cfg.startTs
  {
    DivSmall(cfg.startSeq, 0x1_0000);
    DivSmall(cfg.startTs, 0x1_0000_0000);
    assert 0 * cfg.samples == 0;
  }

  /** One more packet moves the counters on by one and by the samples of a packet. */
  lemma NextNumber(cfg: Config, k: nat)
    ensures (SeqAt(cfg, k) + 1) % 0x1_0000 == SeqAt(cfg, k + 1)
    ensures (TsAt(cfg, k) + cfg.samples) % 0x1_0000_0000 == TsAt(cfg, k + 1)
  {
    ModAdd(cfg.startSeq + k, 1, 0x1_0000);
    ModAdd(cfg.startTs + k * cfg.samples, cfg.samples, 0x1_0000_0000);
    assert (k + 1) * cfg.samples == k * cfg.samples + cfg.samples;
  }

  lemma ModDifference(x: int, d: int)
    requires d > 0
    ensures (x % d - x) % d == 0
  {
    var q := x / d;
    assert x == d * q + x % d;
    assert 0 + d * (-q) == x % d - x;
    ModPlusMultiple(0, d, -q);
    DivSmall(0, d);
  }

  /** The k-th packet of a stream carries its number and time, counted on from the start values through any
      number of wraps, and is the template everywhere else. */
  lemma PacketCarries(cfg: Config, k: nat)
    requires |cfg.template| >= 8
    ensures
      var r := PacketAt(cfg, k);
      && |r| == |cfg.template|
      && (ReadU16(r[2..4]) - cfg.startSeq - k) % 0x1_0000 == 0
      && (ReadU32(r[4..8]) - cfg.startTs - k * cfg.samples) % 0x1_0000_0000 == 0
      && forall i :: 0 <= i < |r| && !(2 <= i < 8) ==> r[i] == cfg.template[i]
  {
    hide Patched, ReadU16, ReadU32;
    var n, ts := cfg.startSeq + k, cfg.startTs + k * cfg.samples;
    PatchedFields(cfg.template, SeqAt(cfg, k), TsAt(cfg, k));
    ModDifference(n, 0x1_0000);
    ModDifference(ts, 0x1_0000_0000);
    SameElsewhere(cfg.template, PacketAt(cfg, k));
  }

  lemma SameElsewhere(a: Bytes, r: Bytes)
    requires 8 <= |a| == |r| && r[..2] == a[..2] && r[8..] == a[8..]
    ensures forall i :: 0 <= i < |r| && !(2 <= i < 8) ==> r[i] == a[i]
  {
    forall i | 0 <= i < |r| && !(2 <= i < 8)
      ensures r[i] == a[i]
    {
      if i < 2 {
        assert r[i] == r[..2][i] && a[i] == a[..2][i];
      } else {
        assert r[i] == r[8..][i - 8] && a[i] == a[8..][i - 8];
      }
    }
  }

  method PatchPacket(pkt: array<Byte>, number: Word16, ts: Word32)
    modifies pkt
    ensures pkt[..] == Patched(old(pkt[..]), number, ts)
  {
    if pkt.Length < 8 {
      return;
    }
    pkt[2], pkt[3] := number / 256, number % 256;
    var hi, lo := ts / 0x1_0000, ts % 0x1_0000;
    pkt[4], pkt[5], pkt[6], pkt[7] := hi / 256, hi % 256, lo / 256, lo % 256;
  }

  /** A message in the send queue: the nth packet of its stream, in the first `len` bytes of a pool buffer. */
  datatype Packet = Packet(stream: Stream, nth: nat, buf: array<Byte>, len: nat)

  class SendQueue {
    var queue: seq<Packet>
    var pool: seq<array<Byte>>
    ghost var known: set<Stream>
    ghost var buffers: set<array<Byte>>   // every buffer of a stream, the pool or the queue

    /** The counters of a stream follow from the number of packets it handed out. */
    ghost predicate Counted(s: Stream)
      reads s
    {
      && s.sequence == SeqAt(s.cfg, s.packetsSent)
      && s.timestamp == TsAt(s.cfg, s.packetsSent)
    }

    /** Each stream has a buffer of its own that differs from its template in the two fields at most. */
    ghost predicate StreamsOk()
      reads this, known, buffers
    {
      && (forall s :: s in known ==> s.sendBuf in buffers && Counted(s))
      && (forall s, t :: s in known && t in known && s != t ==> s.sendBuf != t.sendBuf)
      && (forall s :: s in known ==> |s.cfg.template| >= 8
                                     && Patched(s.sendBuf[..], 0, 0) == Patched(s.cfg.template, 0, 0))
    }

    /** Pool buffers are full size, and no two of pool and queue are the same buffer. */
    ghost predicate PoolOk()
      reads this
    {
      && (forall i :: 0 <= i < |pool| ==> pool[i] in buffers && pool[i].Length == POOL_BUFFER_SIZE)
      && (forall i, j :: 0 <= i < j < |pool| ==> pool[i] != pool[j])
      && (forall i, s :: 0 <= i < |pool| && s in known ==> pool[i] != s.sendBuf)
      && (forall i, j :: 0 <= i < |pool| && 0 <= j < |queue| ==> pool[i] != queue[j].buf)
    }

    /** Every queued message is the numbered packet of its stream. */
    ghost predicate QueueOk()
      reads this, known, buffers
    {
      && (forall i :: 0 <= i < |queue| ==>
            var p := queue[i];
            && p.stream in known && p.nth < p.stream.packetsSent && p.buf in buffers
            && p.len == |p.stream.cfg.template| <= p.buf.Length == POOL_BUFFER_SIZE
            && p.buf[..p.len] == PacketAt(p.stream.cfg, p.nth))
      && (forall i, j :: 0 <= i < j < |queue| ==> queue[i].buf != queue[j].buf)
      && (forall i, s :: 0 <= i < |queue| && s in known ==> queue[i].buf != s.sendBuf)
    }

    ghost predicate Valid()
      reads this, known, buffers
    {
      StreamsOk() && PoolOk() && QueueOk()
    }

    constructor ()
      ensures Valid() && queue == [] && known == {} && buffers == {}
    {
      queue, pool, known, buffers := [], [], {}, {};
    }

    /** A stream that was just registered. */
    ghost method Adopt(st: Stream)
      requires Valid() && st !in known && st.sendBuf !in buffers && Untouched(st) && |st.cfg.template| >= 8
      modifies this`known, this`buffers
      ensures Valid() && known == old(known) + {st} && buffers == old(buffers) + {st.sendBuf}
    {
      hide SeqAt, TsAt, Patched, PacketAt;
      FirstNumber(st.cfg);
      known, buffers := known + {st}, buffers + {st.sendBuf};
    }

    /** A buffer from the pool, or a new one. */
    method Alloc() returns (buf: array<Byte>)
      requires Valid()
      modifies this`pool, this`buffers
      ensures Valid() && buf in buffers && buf.Length == POOL_BUFFER_SIZE
      ensures Loose(buf)
      ensures buf in old(buffers) || fresh(buf)
      ensures buffers == old(buffers) + {buf}
    {
      if |pool| > 0 {
        buf := pool[|pool| - 1];
        pool := pool[..|pool| - 1];
      } else {
        buf := new Byte[POOL_BUFFER_SIZE];
        buffers := buffers + {buf};
      }
    }

    /** A buffer that nothing else uses. */
    ghost predicate Loose(buf: array<Byte>)
      reads this
    {
      && (forall i :: 0 <= i < |pool| ==> pool[i] != buf)
      && (forall i :: 0 <= i < |queue| ==> queue[i].buf != buf)
      && (forall s :: s in known ==> s.sendBuf != buf)
    }

    /** The stream writes the next number into its own buffer. */
    method PatchOwn(st: Stream)
      requires Valid() && st in known
      modifies st.sendBuf
      ensures Valid() && st.sendBuf[..] == PacketAt(st.cfg, st.packetsSent)
    {
      hide Patched;
      ghost var before := st.sendBuf[..];
      PatchPacket(st.sendBuf, st.sequence, st.timestamp);
      PatchedTwice(before, 0, 0, st.sequence, st.timestamp);
      PatchedTwice(st.cfg.template, 0, 0, st.sequence, st.timestamp);
      PatchedTwice(st.cfg.template, st.sequence, st.timestamp, 0, 0);
    }

    /** Copies a stream's buffer into a loose one. */
    method Copy(buf: array<Byte>, st: Stream)
      requires Valid() && Loose(buf) && st in known && st.sendBuf.Length <= buf.Length
      modifies buf
      ensures Valid() && buf[..st.sendBuf.Length] == st.sendBuf[..]
    {
      var i := 0;
      while i < st.sendBuf.Length
        invariant 0 <= i <= st.sendBuf.Length
        invariant buf[..i] == st.sendBuf[..i]
      {
        buf[i] := st.sendBuf[i];
        i := i + 1;
      }
    }

    /** The counters of a stream move on by one packet. */
    method Bump(st: Stream)
      requires Valid() && st in known
      modifies st`sequence, st`timestamp, st`packetsSent
      ensures Valid() && st.packetsSent == old(st.packetsSent) + 1
    {
      hide Patched, PacketAt, SeqAt, TsAt;
      NextNumber(st.cfg, st.packetsSent);
      st.sequence := (st.sequence + 1) % 0x1_0000;
      st.timestamp := (st.timestamp + st.cfg.samples) % 0x1_0000_0000;
      st.packetsSent := st.packetsSent + 1;
    }

    /** The message joins the queue and the counters move on. */
    method Enqueue(st: Stream, buf: array<Byte>)
      requires Valid() && Loose(buf) && st in known && buf in buffers
      requires |st.cfg.template| <= buf.Length == POOL_BUFFER_SIZE
      requires buf[..|st.cfg.template|] == PacketAt(st.cfg, st.packetsSent)
      modifies this`queue, st`sequence, st`timestamp, st`packetsSent
      ensures Valid() && st.packetsSent == old(st.packetsSent) + 1
      ensures queue == old(queue) + [Packet(st, old(st.packetsSent), buf, |st.cfg.template|)]
    {
      hide Patched, PacketAt;
      Bump(st);
      queue := queue + [Packet(st, st.packetsSent - 1, buf, |st.cfg.template|)];
    }

    /** Hands out the next packet of a stream. The copy panics on a packet larger than a pool buffer. */
    method HandOut(st: Stream) returns (ok: bool, ghost p: Packet)
      requires Valid() && st in known
      modifies this`queue, this`pool, this`buffers, buffers, st`sequence, st`timestamp, st`packetsSent
      ensures Valid() && ok == (|st.cfg.template| <= 2048)
      ensures buffers >= old(buffers) && fresh(buffers - old(buffers))
      ensures !ok ==> queue == old(queue) && st.packetsSent == old(st.packetsSent)
      ensures ok ==> queue == old(queue) + [p] && p.stream == st && p.nth == old(st.packetsSent)
                     && st.packetsSent == old(st.packetsSent) + 1
    {
      hide StreamsOk, PoolOk, QueueOk, PacketAt, Patched;
      StreamFacts(st);
      PatchOwn(st);
      p := Packet(st, st.packetsSent, st.sendBuf, st.sendBuf.Length);
      if st.sendBuf.Length > POOL_BUFFER_SIZE {
        return false, p;
      }
      var buf := Alloc();
      Copy(buf, st);
      Enqueue(st, buf);
      return true, p.(buf := buf);
    }

    lemma StreamFacts(st: Stream)
      requires Valid() && st in known
      ensures st.sendBuf in buffers && st.sendBuf.Length == |st.cfg.template|
    {
      assert |st.sendBuf[..]| == |Patched(st.sendBuf[..], 0, 0)|;
    }

    ghost function Sent(): map<Stream, nat>
      reads this, known
    {
      map s | s in known :: s.packetsSent
    }

    /** The loop over the collected streams: the messages queued are, in order, the next packets of the
        streams of `due`. */
    method HandOutAll(due: seq<Stream>) returns (ok: bool, ghost ps: seq<Packet>)
      requires Valid() && forall s :: s in due ==> s in known
      modifies this`queue, this`pool, this`buffers, buffers, known`sequence, known`timestamp, known`packetsSent
      ensures Valid() && ok == (forall s :: s in due ==> |s.cfg.template| <= 2048)
      ensures buffers >= old(buffers) && fresh(buffers - old(buffers))
      ensures queue == old(queue) + ps
      ensures ok ==> Numbered(ps, due, old(Sent())) && Sent() == Grown(old(Sent()), due)
    {
      hide StreamsOk, PoolOk, QueueOk, Numbered, Grown;
      var i := 0;
      ps := [];
      NumberedNone(Sent());
      while i < |due|
        invariant 0 <= i <= |due| && Valid()
        invariant buffers >= old(buffers) && fresh(buffers - old(buffers))
        invariant queue == old(queue) + ps && Numbered(ps, due[..i], old(Sent()))
        invariant forall s :: s in due[..i] ==> |s.cfg.template| <= POOL_BUFFER_SIZE
        invariant Sent() == Grown(old(Sent()), due[..i])
      {
        ghost var sent := Sent();
        GrownAt(old(Sent()), due[..i], due[i]);
        var done, p := HandOut(due[i]);
        if !done {
          assert due[i] in due;
          return false, ps;
        }
        assert Sent() == sent[due[i] := sent[due[i]] + 1];
        GrownAdd(old(Sent()), due[..i], due[i]);
        NumberedAdd(ps, due[..i], old(Sent()), p, due[i]);
        assert due[..i + 1] == due[..i] + [due[i]];
        ps := ps + [p];
        i := i + 1;
      }
      assert due[..i] == due;
      return true, ps;
    }

    /** A sent message leaves the queue; its buffer is nobody's. */
    method Unqueue(i: nat)
      requires Valid() && i < |queue|
      modifies this`queue
      ensures Valid() && queue == old(queue)[..i] + old(queue)[i + 1..]
      ensures Loose(old(queue)[i].buf) && old(queue)[i].buf in buffers && old(queue)[i].buf.Length == POOL_BUFFER_SIZE
    {
      hide PacketAt, Patched, SeqAt, TsAt;
      ghost var all := queue;
      queue := queue[..i] + queue[i + 1..];
      assert forall k :: 0 <= k < |queue| ==> queue[k] == all[if k < i then k else k + 1];
    }

    /** A sender returns the buffer of a sent message to the pool. */
    method Release(i: nat)
      requires Valid() && i < |queue|
      modifies this`queue, this`pool
      ensures Valid() && queue == old(queue)[..i] + old(queue)[i + 1..]
    {
      hide PacketAt, Patched, SeqAt, TsAt;
      var buf := queue[i].buf;
      Unqueue(i);
      pool := pool + [buf];
    }
  }

  /** The i-th message is for the i-th stream of the list, with the number that follows from how often
      the stream came before. */
  ghost predicate Numbered(ps: seq<Packet>, due: seq<Stream>, sent: map<Stream, nat>)
  {
    && |ps| == |due|
    && (due != [] ==>
          var n := |due| - 1;
          && Numbered(ps[..n], due[..n], sent)
          && ps[n].stream == due[n] && due[n] in sent
          && ps[n].nth == sent[due[n]] + multiset(due[..n])[due[n]])
  }

  ghost function Grown(sent: map<Stream, nat>, due: seq<Stream>): map<Stream, nat>
  {
    map s | s in sent :: sent[s] + multiset(due)[s]
  }

  lemma NumberedNone(sent: map<Stream, nat>)
    ensures Numbered([], [], sent) && Grown(sent, []) == sent
  {
  }

  lemma NumberedAdd(ps: seq<Packet>, due: seq<Stream>, sent: map<Stream, nat>, p: Packet, s: Stream)
    requires Numbered(ps, due, sent) && s in sent && p.stream == s && p.nth == sent[s] + multiset(due)[s]
    ensures Numbered(ps + [p], due + [s], sent)
  {
    assert (due + [s])[..|due|] == due && (ps + [p])[..|ps|] == ps;
  }

  lemma GrownAt(sent: map<Stream, nat>, due: seq<Stream>, s: Stream)
    requires s in sent
    ensures s in Grown(sent, due) && Grown(sent, due)[s] == sent[s] + multiset(due)[s]
  {
  }

  lemma GrownAdd(sent: map<Stream, nat>, due: seq<Stream>, s: Stream)
    requires s in sent
    ensures Grown(sent, due + [s]) == Grown(sent, due)[s := Grown(sent, due)[s] + 1]
  {
    forall x | x in sent
      ensures multiset(due + [s])[x] == multiset(due)[x] + (if x == s then 1 else 0)
    {
    }
  }

  /** The streams of a numbered list of messages. */
  lemma {:induction false} NumberedStreams(ps: seq<Packet>, due: seq<Stream>, sent: map<Stream, nat>)
    requires Numbered(ps, due, sent)
    ensures Streams(ps) == due
  {
    if due != [] {
      var n := |due| - 1;
      NumberedStreams(ps[..n], due[..n], sent);
      forall i | 0 <= i < |due|
        ensures ps[i].stream == due[i]
      {
        assert i < n ==> ps[i] == ps[..n][i] && due[i] == due[..n][i] && Streams(ps[..n])[i] == ps[..n][i].stream;
      }
    }
  }

  /** A whole tick: unless a packet does not fit a pool buffer, the queue grows by exactly one message per
      due slot of each stream that is not paused, in order of due time, numbered without a gap. */
  method Tick(e: Engine, q: SendQueue, now: int) returns (ok: bool, ghost ps: seq<Packet>, ghost times: seq<int>)
    requires e.Valid() && q.Valid() && e.known == q.known
    modifies e`heap, e.known`heapIdx, e.known`nextSend
    modifies q`queue, q`pool, q`buffers, q.buffers, q.known`sequence, q.known`timestamp, q.known`packetsSent
    ensures e.Valid() && q.Valid() && multiset(e.heap) == multiset(old(e.heap))
    ensures q.queue == old(q.queue) + ps && Sorted(times)
    ensures ok ==> |ps| == |times| && Numbered(ps, Streams(ps), old(q.Sent()))
    ensures ok ==> q.Sent() == Grown(old(q.Sent()), Streams(ps))
    ensures ok ==> forall s :: s in e.heap ==>
              CaughtUp(s, s.paused, old(s.nextSend), s.nextSend, TimesOf(Streams(ps), times, s), now)
  {
    hide *;
    var due;
    due, times := Collect(e, q, now);
    ok, ps := Hand(e, q, due);
    if ok {
      NumberedStreams(ps, due, old(q.Sent()));
    }
  }

  /** The locked half leaves the buffers and counters alone. */
  method Collect(e: Engine, q: SendQueue, now: int) returns (due: seq<Stream>, ghost times: seq<int>)
    requires e.Valid() && q.Valid() && e.known == q.known
    modifies e`heap, e.known`heapIdx, e.known`nextSend
    ensures e.Valid() && q.Valid() && multiset(e.heap) == multiset(old(e.heap)) && q.Sent() == old(q.Sent())
    ensures |due| == |times| && Sorted(times) && forall s :: s in due ==> s in q.known
    ensures forall s :: s in e.heap ==>
              s in e.known && CaughtUp(s, s.paused, old(s.nextSend), s.nextSend, TimesOf(due, times, s), now)
  {
    hide H.IsHeap, Linked, Listed, CaughtUp, TimesOf, Sorted, PacketAt, Patched;
    due, times := e.CollectDue(now);
  }

  /** The half that sends leaves the schedule alone. */
  method Hand(e: Engine, q: SendQueue, due: seq<Stream>) returns (ok: bool, ghost ps: seq<Packet>)
    requires e.Valid() && q.Valid() && e.known == q.known && forall s :: s in due ==> s in q.known
    modifies q`queue, q`pool, q`buffers, q.buffers, q.known`sequence, q.known`timestamp, q.known`packetsSent
    ensures e.Valid() && q.Valid()
    ensures q.queue == old(q.queue) + ps
    ensures ok == (forall s :: s in due ==> |s.cfg.template| <= 2048)
    ensures ok ==> Numbered(ps, due, old(q.Sent())) && q.Sent() == Grown(old(q.Sent()), due)
  {
    hide H.IsHeap, Linked, Listed, Numbered, Grown, SendQueue.StreamsOk, SendQueue.PoolOk, SendQueue.QueueOk;
    ghost var key := e.Keys();
    ok, ps := q.HandOutAll(due);
    assert e.Keys() == key;
  }

  ghost function Streams(ps: seq<Packet>): (r: seq<Stream>)
    ensures |r| == |ps| && forall i :: 0 <= i < |ps| ==> r[i] == ps[i].stream
  {
    seq(|ps|, i requires 0 <= i < |ps| => ps[i].stream)
  }
}