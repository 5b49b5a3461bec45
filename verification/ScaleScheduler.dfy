/**
 The scale engine and its send queue together. Calls register, pause, resume
 and unregister streams between ticks, and senders return buffers; through any
 such operations each stream's packets are numbered on without a gap.
 */
module ScaleScheduler {
  import opened Common
  import opened Wire
  import opened ScaleSlots
  import opened ScaleEngine
  import opened ScaleSend
  import H = MinHeap

  /** The numbers of the packets of one stream, in the order they were handed out. */
  ghost function Nths(ps: seq<Packet>, s: Stream): seq<nat>
  {
    if ps == [] then []
    else
      var n := |ps| - 1;
      Nths(ps[..n], s) + (if ps[n].stream == s then [ps[n].nth] else [])
  }

  ghost function UpTo(k: nat): seq<nat>
  {
    seq(k, i => i)
  }

  /** The packets handed out for each stream are its first ones, each once and in order. */
  ghost predicate InSequence(ps: seq<Packet>, sent: map<Stream, nat>)
  {
    && (forall s :: s in sent ==> Nths(ps, s) == UpTo(sent[s]))
    && (forall i :: 0 <= i < |ps| ==> ps[i].stream in sent)
  }

  lemma NthsAdd(ps: seq<Packet>, p: Packet, s: Stream)
    ensures Nths(ps + [p], s) == Nths(ps, s) + (if p.stream == s then [p.nth] else [])
  {
    assert (ps + [p])[..|ps|] == ps;
  }

  lemma SequenceAdd(ps: seq<Packet>, sent: map<Stream, nat>, p: Packet)
    requires InSequence(ps, sent) && p.stream in sent && p.nth == sent[p.stream]
    ensures InSequence(ps + [p], sent[p.stream := p.nth + 1])
  {
    hide Nths;
    forall s | s in sent
      ensures Nths(ps + [p], s) == UpTo(if s == p.stream then p.nth + 1 else sent[s])
    {
      NthsAdd(ps, p, s);
      assert UpTo(p.nth + 1) == UpTo(p.nth) + [p.nth];
    }
  }

  lemma {:induction false} SequenceGrows(history: seq<Packet>, ps: seq<Packet>, due: seq<Stream>, sent: map<Stream, nat>)
    requires InSequence(history, sent) && Numbered(ps, due, sent)
    ensures InSequence(history + ps, Grown(sent, due))
    decreases |ps|
  {
    hide InSequence, Grown;
    if ps == [] {
      NumberedNone(sent);
      assert history + ps == history && due == [];
    } else {
      var n := |ps| - 1;
      var p, s := ps[n], due[n];
      SequenceGrows(history, ps[..n], due[..n], sent);
      GrownAt(sent, due[..n], s);
      GrownAdd(sent, due[..n], s);
      SequenceAdd(history + ps[..n], Grown(sent, due[..n]), p);
      assert history + ps[..n] + [p] == history + ps && due[..n] + [s] == due;
    }
  }

  /** A stream that was just registered has sent nothing. */
  lemma {:induction false} NothingYet(ps: seq<Packet>, s: Stream)
    requires forall i :: 0 <= i < |ps| ==> ps[i].stream != s
    ensures Nths(ps, s) == []
  {
    if ps != [] {
      NothingYet(ps[..|ps| - 1], s);
    }
  }

  lemma SequenceJoins(ps: seq<Packet>, sent: map<Stream, nat>, st: Stream)
    requires InSequence(ps, sent) && st !in sent
    ensures InSequence(ps, sent[st := 0])
  {
    hide Nths;
    assert Nths(ps, st) == [] by { NothingYet(ps, st); }
  }

  class Scheduler {
    const engine: Engine
    const queue: SendQueue
    ghost var history: seq<Packet>   // every packet handed out, in order

    ghost predicate Valid()
      reads this, engine, queue, engine.known, queue.known, queue.buffers
    {
      && engine.Valid() && queue.Valid() && engine.known == queue.known
      && InSequence(history, queue.Sent())
    }

    constructor ()
      ensures Valid() && history == [] && fresh(engine) && fresh(queue) && engine.known == {} && queue.buffers == {}
    {
      var e := new Engine();
      var q := new SendQueue();
      engine, queue, history := e, q, [];
      new;
      assert queue.Sent() == map[];
    }

    method Run()
      requires Valid()
      modifies engine`running
      ensures Valid() && engine.running && history == old(history)
    {
      engine.Run();
    }

    /** The queue does not depend on the schedule. */
    method Enroll(callID: string, duration: int, cfg: Config, now: int) returns (ok: bool)
      requires Valid()
      modifies engine, engine.known`heapIdx
      ensures engine.Valid() && queue.Valid() && queue.Sent() == old(queue.Sent())
      ensures ok == (old(engine.running) && |cfg.template| >= 12)
      ensures !ok ==> engine.known == queue.known
      ensures ok ==> engine.nextID in engine.streams
                     && var st := engine.streams[engine.nextID];
                        fresh(st) && fresh(st.sendBuf) && engine.known == queue.known + {st} && Untouched(st) && |st.cfg.template| >= 12
    {
      hide Linked, Listed, H.IsHeap, InSequence, Patched, PacketAt, SeqAt, TsAt;
      ok := engine.RegisterStream(callID, duration, cfg, now);
    }

    /** A registered stream joins both, untouched. */
    method RegisterStream(callID: string, duration: int, cfg: Config, now: int) returns (ok: bool)
      requires Valid()
      modifies engine, engine.known`heapIdx, queue`known, queue`buffers
      ensures Valid() && ok == (old(engine.running) && |cfg.template| >= 12)
    {
      hide Linked, Listed, H.IsHeap, InSequence, Patched, PacketAt, SeqAt, TsAt,
           SendQueue.StreamsOk, SendQueue.PoolOk, SendQueue.QueueOk;
      ok := Enroll(callID, duration, cfg, now);
      ghost var sent := queue.Sent();
      if ok {
        ghost var st := engine.streams[engine.nextID];
        ghost var key := engine.Keys();
        queue.Adopt(st);
        SequenceJoins(history, sent, st);
        assert queue.Sent() == sent[st := 0];
        assert engine.Keys() == key;
      }
    }

    method UnregisterCall(callID: string)
      requires Valid()
      modifies engine`streams, engine`byCall, engine`heap, engine.known`heapIdx
      ensures Valid()
    {
      hide Linked, Listed, H.IsHeap, InSequence, Patched, PacketAt, SeqAt, TsAt;
      ghost var sent := queue.Sent();
      engine.UnregisterCall(callID);
      assert queue.Sent() == sent;
    }

    method PauseCall(callID: string)
      requires Valid()
      modifies engine.known`paused
      ensures Valid()
    {
      hide Linked, Listed, H.IsHeap, InSequence, Patched, PacketAt, SeqAt, TsAt;
      ghost var sent := queue.Sent();
      engine.PauseCall(callID);
      assert queue.Sent() == sent;
    }

    method ResumeCall(callID: string, now: int)
      requires Valid()
      modifies engine`heap, engine.known`paused, engine.known`nextSend, engine.known`heapIdx
      ensures Valid()
    {
      hide Linked, Listed, H.IsHeap, InSequence, Patched, PacketAt, SeqAt, TsAt;
      ghost var sent := queue.Sent();
      engine.ResumeCall(callID, now);
      assert queue.Sent() == sent;
    }

    /** A tick hands out the packets of all due slots; it fails only on a packet larger than a pool buffer. */
    method Tick(now: int) returns (ok: bool)
      requires Valid()
      modifies this`history, engine`heap, engine.known`heapIdx, engine.known`nextSend
      modifies queue`queue, queue`pool, queue`buffers, queue.buffers, queue.known`sequence, queue.known`timestamp, queue.known`packetsSent
      ensures ok ==> Valid() && old(history) <= history
      ensures ok ==> queue.queue == old(queue.queue) + history[|old(history)|..]
    {
      hide Linked, Listed, H.IsHeap, InSequence, Numbered, Grown, Streams, CaughtUp, Sorted, TimesOf,
           Engine.Valid, SendQueue.Valid, SendQueue.Sent;
      ghost var sent, ps, times := queue.Sent(), [], [];
      ok, ps, times := ScaleSend.Tick(engine, queue, now);
      if ok {
        SequenceGrows(history, ps, Streams(ps), sent);
        history := history + ps;
        assert history[|old(history)|..] == ps;
      }
    }

    /** A sender returns a buffer. */
    method Release(i: nat)
      requires Valid() && i < |queue.queue|
      modifies queue`queue, queue`pool
      ensures Valid()
    {
      hide Linked, Listed, H.IsHeap, InSequence, Patched, PacketAt, SeqAt, TsAt,
           SendQueue.StreamsOk, SendQueue.PoolOk, SendQueue.QueueOk;
      ghost var sent := queue.Sent();
      queue.Release(i);
      assert queue.Sent() == sent;
    }

    /** After any operations: the packets handed out for a stream are numbered 0, 1, 2 and so on, and what waits
        in the queue under such a number is that packet of the stream. */
    lemma NumberedOn(s: Stream, i: nat)
      requires Valid() && s in queue.known && i < |queue.queue|
      ensures Nths(history, s) == UpTo(s.packetsSent)
      ensures var p := queue.queue[i]; p.buf.Length >= p.len && p.buf[..p.len] == PacketAt(p.stream.cfg, p.nth)
    {
      hide Linked, Listed, H.IsHeap, Nths, UpTo;
      assert s in queue.Sent();
    }
  }
}
