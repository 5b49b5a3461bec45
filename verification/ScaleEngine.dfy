/**
 The scale scheduler of RTP streams: a binary heap of stream objects ordered by
 due time, with each stream's position kept in the stream, an index by number
 and an index by call. The engine's methods keep the three in step, and a tick
 takes every due slot of every running stream.
 */
module ScaleEngine {
  import opened Common
  import opened Arith
  import opened ScaleSlots
  import opened Wire
  import H = MinHeap

  const DEFAULT_PACKET_DURATION := 20_000_000   // nanoseconds

  const POOL_BUFFER_SIZE := 2048

  /** What a stream is configured with: its packet template and where its numbering starts. */
  datatype Config = Config(template: Bytes, startSeq: Word16, startTs: Word32, samples: Word32)

  class Stream {
    const id: nat
    const callID: string
    const interval: int
    const cfg: Config
    const sendBuf: array<Byte>
    var sequence: Word16
    var timestamp: Word32
    var packetsSent: nat
    var nextSend: int
    var paused: bool
    var heapIdx: int

    constructor (id: nat, callID: string, interval: int, cfg: Config, now: int)
      ensures this.id == id && this.callID == callID && this.interval == interval && this.cfg == cfg
      ensures nextSend == now && !paused && heapIdx == -1
      ensures fresh(sendBuf) && sendBuf[..] == cfg.template
      ensures sequence == cfg.startSeq && timestamp == cfg.startTs && packetsSent == 0
    {
      this.id, this.callID, this.interval, this.cfg := id, callID, interval, cfg;
      nextSend, paused, heapIdx := now, false, -1;
      sequence, timestamp, packetsSent := cfg.startSeq, cfg.startTs, 0;
      var b := new Byte[|cfg.template|](i requires 0 <= i < |cfg.template| => cfg.template[i]);
      sendBuf := b;
    }
  }

  /** A stream as it is registered. */
  ghost predicate Untouched(st: Stream)
    reads st, st.sendBuf
  {
    && st.sendBuf[..] == st.cfg.template
    && st.sequence == st.cfg.startSeq && st.timestamp == st.cfg.startTs && st.packetsSent == 0
  }

  class Engine {
    var streams: map<nat, Stream>
    var byCall: map<string, seq<nat>>
    var heap: seq<Stream>
    var nextID: nat
    var running: bool
    ghost var known: set<Stream>   // every stream ever registered

    /** Every slot holds a known stream whose stored position is that slot. */
    ghost predicate Indexed()
      reads this, known
    {
      forall i :: 0 <= i < |heap| ==> heap[i] in known && heap[i].heapIdx == i
    }

    /** `key` is a snapshot of the due times. */
    ghost predicate Snapshot(key: map<Stream, int>)
      reads this, known
    {
      forall s :: s in known ==> s in key && key[s] == s.nextSend
    }

    method SwapSlots(i: nat, j: nat)
      requires i < |heap| && j < |heap| && Indexed()
      modifies this`heap, known`heapIdx
      ensures heap == H.Swap(old(heap), i, j) && Indexed()
    {
      heap := heap[i := heap[j]][j := heap[i]];
      heap[i].heapIdx := i;
      heap[j].heapIdx := j;
    }

    method Up(j0: nat, ghost key: map<Stream, int>)
      requires j0 < |heap| && Indexed() && Snapshot(key)
      modifies this`heap, known`heapIdx
      ensures heap == H.Up(old(heap), key, j0) && Indexed()
    {
      hide H.Up, H.Swap;
      var j := j0;
      while j > 0 && heap[j].nextSend < heap[H.Parent(j)].nextSend
        invariant 0 <= j < |heap| && Indexed()
        invariant H.Up(heap, key, j) == H.Up(old(heap), key, j0)
      {
        H.UpMoves(heap, key, j);
        SwapSlots(H.Parent(j), j);
        j := H.Parent(j);
      }
      H.UpStays(heap, key, j);
    }

    /** Returns whether the element moved. */
    method Down(i0: nat, n: nat, ghost key: map<Stream, int>) returns (moved: bool)
      requires i0 < n <= |heap| && Indexed() && Snapshot(key)
      modifies this`heap, known`heapIdx
      ensures heap == H.Down(old(heap), key, i0, n) && Indexed()
      ensures moved <==> !H.Stays(old(heap), key, i0, n)
      ensures !moved ==> heap == old(heap)
    {
      hide H.Down, H.Swap;
      var i := i0;
      while true
        invariant i0 <= i < n <= |heap| && Indexed()
        invariant H.Down(heap, key, i, n) == H.Down(old(heap), key, i0, n)
        invariant if i == i0 then heap == old(heap) else !H.Stays(old(heap), key, i0, n)
        decreases n - i
      {
        var c := 2 * i + 1;
        if c >= n {
          H.DownStays(heap, key, i, n);
          break;
        }
        if c + 1 < n && heap[c + 1].nextSend < heap[c].nextSend {
          c := c + 1;
        }
        assert c == H.Child(heap, key, i, n);
        if !(heap[c].nextSend < heap[i].nextSend) {
          H.DownStays(heap, key, i, n);
          break;
        }
        H.DownMoves(heap, key, i, n, c);
        SwapSlots(i, c);
        i := c;
      }
      return i > i0;
    }

    /** heap.Push */
    method HeapPush(st: Stream, ghost key: map<Stream, int>)
      requires Indexed() && Snapshot(key) && st in known && st !in heap
      modifies this`heap, known`heapIdx
      ensures heap == H.Push(old(heap), key, st) && Indexed()
    {
      st.heapIdx := |heap|;
      heap := heap + [st];
      Up(|heap| - 1, key);
    }

    /** The Pop of the heap's own interface: drops the last slot. */
    method DropLast() returns (st: Stream)
      requires heap != [] && Indexed()
      modifies this`heap, known`heapIdx
      ensures heap == old(heap)[..|old(heap)| - 1] && st == old(heap)[|old(heap)| - 1]
      ensures Indexed() && st.heapIdx == -1
    {
      var n := |heap| - 1;
      st := heap[n];
      st.heapIdx := -1;
      heap := heap[..n];
    }

    /** Puts a slot with a new key right, within the first n slots: down, and if it did not move, up. */
    method SettleAt(i: nat, n: nat, ghost key: map<Stream, int>)
      requires i < n <= |heap| && Indexed() && Snapshot(key)
      modifies this`heap, known`heapIdx
      ensures heap == H.Settle(old(heap), key, i, n) && Indexed()
    {
      hide H.Up, H.Down, H.Stays;
      var moved := Down(i, n, key);
      if !moved {
        Up(i, key);
      }
    }

    /** heap.Remove */
    method HeapRemove(i: nat, ghost key: map<Stream, int>) returns (st: Stream)
      requires i < |heap| && Indexed() && Snapshot(key)
      modifies this`heap, known`heapIdx
      ensures heap == H.Remove(old(heap), key, i) && st == old(heap)[i]
      ensures Indexed() && st.heapIdx == -1
    {
      hide H.Settle, H.Remove, H.Swap;
      var n := |heap| - 1;
      H.RemoveSettles(heap, key, i);
      if n != i {
        SwapSlots(i, n);
        SettleAt(i, n, key);
      }
      st := DropLast();
    }

    /** heap.Pop */
    method HeapPop(ghost key: map<Stream, int>) returns (st: Stream)
      requires heap != [] && Indexed() && Snapshot(key)
      modifies this`heap, known`heapIdx
      ensures heap == H.Remove(old(heap), key, 0) && st == old(heap)[0]
      ensures Indexed() && st.heapIdx == -1
    {
      hide H.Settle, H.Remove, H.Down;
      var n := |heap| - 1;
      H.RemoveSettles(heap, key, 0);
      SwapSlots(0, n);
      if n > 0 {
        H.SettleRoot(heap, key, n);
        var moved := Down(0, n, key);
      }
      st := DropLast();
    }

    /** heap.Fix */
    method HeapFix(i: nat, ghost key: map<Stream, int>)
      requires i < |heap| && Indexed() && Snapshot(key)
      modifies this`heap, known`heapIdx
      ensures heap == H.Settle(old(heap), key, i, |old(heap)|) && Indexed()
    {
      SettleAt(i, |heap|, key);
    }

    // ---------- the representation ----------

    ghost function Keys(): map<Stream, int>
      reads this, known
    {
      map s | s in known :: s.nextSend
    }

    /** The array is a min-heap on the due times, with true stored positions. */
    ghost predicate Heaped()
      reads this, known
    {
      && Indexed()
      && H.IsHeap(heap, Keys(), |heap|)
      && (forall s :: s in known ==> s.interval > 0)
    }

    ghost predicate Valid()
      reads this, known
    {
      Heaped() && Linked(streams, heap, nextID) && Listed(streams, byCall)
    }

    // ---------- heap operations that keep the order ----------

    method TakeOut(i: nat) returns (st: Stream)
      requires Heaped() && i < |heap|
      modifies this`heap, known`heapIdx
      ensures st == old(heap)[i] && st !in heap && st.heapIdx == -1
      ensures multiset(heap) + multiset{st} == multiset(old(heap))
      ensures Heaped() && Keys() == old(Keys())
    {
      hide H.IsHeap, H.Remove;
      ghost var key := Keys();
      H.RemoveRestores(heap, key, i);
      st := HeapRemove(i, key);
      assert Keys() == key;
    }

    method PopRoot() returns (st: Stream)
      requires Heaped() && heap != []
      modifies this`heap, known`heapIdx
      ensures st == old(heap)[0] && st !in heap
      ensures multiset(heap) + multiset{st} == multiset(old(heap))
      ensures Heaped() && Keys() == old(Keys())
    {
      hide H.IsHeap, H.Remove;
      ghost var key := Keys();
      H.RemoveRestores(heap, key, 0);
      st := HeapPop(key);
      assert Keys() == key;
    }

    method PutIn(st: Stream)
      requires Heaped() && st in known && st !in heap
      modifies this`heap, known`heapIdx
      ensures multiset(heap) == multiset(old(heap)) + multiset{st}
      ensures Heaped() && Keys() == old(Keys())
    {
      hide H.IsHeap, H.Push;
      ghost var key := Keys();
      H.PushRestores(heap, key, st);
      HeapPush(st, key);
      assert Keys() == key;
    }

    /** Gives a stream of the heap a new due time. */
    method Reschedule(st: Stream, t: int)
      requires Heaped() && st in heap
      modifies this`heap, known`heapIdx, known`nextSend
      ensures multiset(heap) == multiset(old(heap))
      ensures Heaped() && Keys() == old(Keys())[st := t]
    {
      hide H.IsHeap, H.Settle, H.Touched;
      ghost var key := Keys();
      st.nextSend := t;
      H.KeyChange(heap, key, Keys(), st.heapIdx);
      H.SettleRestores(heap, Keys(), st.heapIdx, |heap|);
      ghost var key' := Keys();
      HeapFix(st.heapIdx, key');
      assert Keys() == key';
    }

    // ---------- calls ----------

    constructor ()
      ensures Valid() && streams == map[] && byCall == map[] && heap == [] && !running && nextID == 0 && known == {}
    {
      streams, byCall, heap, nextID, running, known := map[], map[], [], 0, false, {};
    }

    /** The scheduler starts; until then no stream is taken. */
    method Run()
      requires Valid()
      modifies this`running
      ensures Valid() && running
    {
      hide H.IsHeap, Linked, Listed;
      ghost var key := Keys();
      running := true;
      assert Keys() == key;
    }

    method Adopt(st: Stream)
      requires Heaped() && st !in known && st.interval > 0
      modifies this`heap, this`known, known`heapIdx, {st}`heapIdx
      ensures Heaped() && known == old(known) + {st}
      ensures multiset(heap) == multiset(old(heap)) + multiset{st}
      ensures Keys() == old(Keys())[st := st.nextSend]
    {
      ghost var key := Keys();
      assert H.IsHeap(heap, key, |heap|);
      known := known + {st};
      H.SameKeys(heap, key, Keys());
      PutIn(st);
    }

    /** Adds a stream that is due at once; refused while the engine does not run, or for a packet
        shorter than an RTP header. */
    method RegisterStream(callID: string, duration: int, cfg: Config, now: int) returns (ok: bool)
      requires Valid()
      modifies this, known`heapIdx
      ensures Valid() && ok == (old(running) && |cfg.template| >= 12) && running == old(running)
      ensures !ok ==> streams == old(streams) && byCall == old(byCall) && heap == old(heap) && known == old(known)
      ensures ok ==>
                && nextID == old(nextID) + 1 && nextID in streams
                && streams == old(streams)[nextID := streams[nextID]]
                && byCall == AddId(old(byCall), callID, nextID)
                && multiset(heap) == multiset(old(heap)) + multiset{streams[nextID]}
                && fresh(streams[nextID]) && fresh(streams[nextID].sendBuf) && known == old(known) + {streams[nextID]}
                && var st := streams[nextID];
                   st.callID == callID && st.nextSend == now && !st.paused && Untouched(st)
                   && st.cfg == cfg.(samples := if cfg.samples == 0 then 160 else cfg.samples)
                   && st.interval == (if duration <= 0 then 20_000_000 else duration)
    {
      hide H.IsHeap, Linked, Listed;
      if |cfg.template| < 12 || !running {
        return false;
      }
      var samples := if cfg.samples == 0 then 160 else cfg.samples;
      var interval := if duration <= 0 then DEFAULT_PACKET_DURATION else duration;
      var st := new Stream(nextID + 1, callID, interval, cfg.(samples := samples), now);
      Adopt(st);
      ghost var key := Keys();
      LinkedAdd(streams, old(heap), heap, nextID, st);
      ListedAdd(streams, byCall, old(heap), nextID, st);
      nextID := nextID + 1;
      streams := streams[nextID := st];
      byCall := AddId(byCall, callID, nextID);
      assert Keys() == key;
      return true;
    }

    method DropStream(id: nat)
      requires Heaped() && Linked(streams, heap, nextID) && id in streams
      modifies this`streams, this`heap, known`heapIdx
      ensures Heaped() && Linked(streams, heap, nextID) && streams == old(streams) - {id}
    {
      hide H.IsHeap;
      var st := streams[id];
      if st.heapIdx >= 0 {
        ghost var before := heap;
        st := TakeOut(st.heapIdx);
        LinkedRemove(streams, before, heap, nextID, st);
      }
      ghost var key := Keys();
      streams := streams - {id};
      assert Keys() == key;
    }

    /** Stops and removes all streams of a call. */
    method UnregisterCall(callID: string)
      requires Valid()
      modifies this`streams, this`byCall, this`heap, known`heapIdx
      ensures Valid()
      ensures byCall == old(byCall) - {callID}
      ensures streams == map id | id in old(streams) && old(streams)[id].callID != callID :: old(streams)[id]
    {
      hide H.IsHeap, Listed, Linked;
      var ids := if callID in byCall then byCall[callID] else [];
      ghost var key, gone := Keys(), {};
      byCall := byCall - {callID};
      assert Keys() == key;
      var i := 0;
      while i < |ids|
        invariant 0 <= i <= |ids|
        invariant Heaped() && Linked(streams, heap, nextID) && byCall == old(byCall) - {callID}
        invariant gone == (set k | 0 <= k < i :: ids[k])
        invariant streams == old(streams) - gone
      {
        if ids[i] in streams {
          DropStream(ids[i]);
        }
        gone := gone + {ids[i]};
        i := i + 1;
      }
      ListedRemove(old(streams), old(byCall), callID, ids);
    }

    method PauseCall(callID: string)
      requires Valid()
      modifies known`paused
      ensures Valid()
      ensures forall s :: s in known ==> s.paused == (old(s.paused) || (s in heap && s.callID == callID))
    {
      hide H.IsHeap, Listed;
      var ids := if callID in byCall then byCall[callID] else [];
      ListedCall(streams, byCall, callID);
      ghost var key, done := Keys(), {};
      var i := 0;
      while i < |ids|
        invariant 0 <= i <= |ids|
        invariant done == set k | 0 <= k < i :: streams[ids[k]]
        invariant forall s :: s in known ==> s.paused == (old(s.paused) || s in done)
      {
        if ids[i] in streams {
          streams[ids[i]].paused := true;
          done := done + {streams[ids[i]]};
        }
        i := i + 1;
      }
      CallStreams(streams, heap, nextID, callID, ids);
      assert Keys() == key;
    }

    method ResumeCall(callID: string, now: int)
      requires Valid()
      modifies this`heap, known`paused, known`nextSend, known`heapIdx
      ensures Valid() && multiset(heap) == multiset(old(heap))
      ensures forall s :: s in known ==>
                if s in heap && s.callID == callID then !s.paused && s.nextSend == now
                else s.paused == old(s.paused) && s.nextSend == old(s.nextSend)
    {
      hide H.IsHeap, H.Keyed, Listed, Linked, Override;
      var ids := if callID in byCall then byCall[callID] else [];
      ListedCall(streams, byCall, callID);
      ghost var done := RestartAll(ids, now);
      CallStreams(streams, heap, nextID, callID, ids);
      OverrideAt(old(Keys()), done, now);
      assert forall s :: s in known ==> s.nextSend == Keys()[s] && old(s.nextSend) == old(Keys())[s];
    }

    method RestartAll(ids: seq<nat>, now: int) returns (ghost done: set<Stream>)
      requires Heaped() && Linked(streams, heap, nextID) && forall k :: 0 <= k < |ids| ==> ids[k] in streams
      modifies this`heap, known`paused, known`nextSend, known`heapIdx
      ensures Heaped() && multiset(heap) == multiset(old(heap)) && Linked(streams, heap, nextID)
      ensures done == set k | 0 <= k < |ids| :: streams[ids[k]]
      ensures Keys() == Override(old(Keys()), done, now)
      ensures forall s :: s in known ==> s.paused == (old(s.paused) && s !in done)
    {
      hide H.IsHeap, Override, Linked;
      done := {};
      OverrideNone(Keys(), now);
      var i := 0;
      while i < |ids|
        invariant 0 <= i <= |ids|
        invariant Heaped() && multiset(heap) == multiset(old(heap)) && Linked(streams, heap, nextID)
        invariant done == set k | 0 <= k < i :: streams[ids[k]]
        invariant Keys() == Override(old(Keys()), done, now)
        invariant forall s :: s in known ==> s.paused == (old(s.paused) && s !in done)
      {
        if ids[i] in streams {
          ghost var st := Restart(ids[i], now);
          OverrideAdd(old(Keys()), done, st, now);
          done := done + {st};
        }
        i := i + 1;
      }
    }

    method Restart(id: nat, now: int) returns (ghost st: Stream)
      requires Heaped() && Linked(streams, heap, nextID) && id in streams
      modifies this`heap, known`paused, known`nextSend, known`heapIdx
      ensures Heaped() && multiset(heap) == multiset(old(heap)) && Linked(streams, heap, nextID)
      ensures st in known && st == streams[id] && Keys() == old(Keys())[st := now]
      ensures !st.paused && forall s :: s in known && s != st ==> s.paused == old(s.paused)
    {
      hide H.IsHeap;
      var stream := streams[id];
      st := stream;
      ghost var key := Keys();
      stream.paused := false;
      assert Keys() == key;
      if stream.heapIdx >= 0 {
        Reschedule(stream, now);
        SameMembers(heap, old(heap));
      }
    }

    // ---------- the tick ----------

    /** Pops the earliest stream, moves its due time one interval on, and pushes it back. */
    method Advance() returns (st: Stream)
      requires Heaped() && heap != []
      modifies this`heap, known`heapIdx, known`nextSend
      ensures st == old(heap)[0]
      ensures multiset(heap) == multiset(old(heap))
      ensures Heaped()
      ensures Keys() == old(Keys())[st := old(st.nextSend) + st.interval]
    {
      ghost var key := Keys();
      st := PopRoot();
      st.nextSend := st.nextSend + st.interval;
      H.SameKeys(heap, key, Keys());
      PutIn(st);
    }

    /** The first half of a tick, under the lock: every stream that is due fires once per due slot. */
    method CollectDue(now: int) returns (due: seq<Stream>, ghost times: seq<int>)
      requires Valid()
      modifies this`heap, known`heapIdx, known`nextSend
      ensures Valid() && multiset(heap) == multiset(old(heap))
      ensures |due| == |times| && Sorted(times)
      ensures forall s :: s in due ==> s in heap
      ensures forall s :: s in heap ==>
                CaughtUp(s, s.paused, old(s.nextSend), s.nextSend, TimesOf(due, times, s), now)
    {
      ghost var order, key0, off := heap, Keys(), set s | s in known && s.paused;
      ghost var p;
      due, p := FireLoop(now, off);
      times := p.times;
      SameMembers(heap, order);
      TickEnd(order, off, key0, p, now);
    }

    /** One pass of the loop: the earliest stream uses one slot. */
    method Fire(now: int, ghost off: set<Stream>, ghost order: seq<Stream>, ghost key0: map<Stream, int>, ghost p: Progress)
      returns (st: Stream, ghost p': Progress)
      requires Heaped() && heap != [] && heap[0].nextSend <= now && multiset(heap) == multiset(order)
      requires p.key == Keys() && TickInv(order, off, key0, p, now)
      modifies this`heap, known`heapIdx, known`nextSend
      ensures Heaped() && multiset(heap) == multiset(order)
      ensures st in known && p'.due == if st in off then p.due else p.due + [st]
      ensures p'.key == Keys() && TickInv(order, off, key0, p', now)
      ensures Remaining(order, off, key0, p', now) < Remaining(order, off, key0, p, now)
    {
      hide TickInv, H.IsHeap, SumLeft, Step, Remaining;
      RootFirst(heap, order, p.key);
      TickStep(order, off, key0, p, heap[0], now);
      StepShape(p, off, heap[0]);
      p' := Step(p, off, heap[0]);
      st := Advance();
    }

    /** The loop of the tick. */
    method FireLoop(now: int, ghost off: set<Stream>) returns (due: seq<Stream>, ghost p: Progress)
      requires Heaped() && forall s :: s in known ==> (s in off <==> s.paused)
      modifies this`heap, known`heapIdx, known`nextSend
      ensures Heaped() && multiset(heap) == multiset(old(heap))
      ensures p.key == Keys() && p.due == due
      ensures TickInv(old(heap), off, old(Keys()), p, now)
      ensures forall s :: s in old(heap) ==> s in p.key && p.key[s] > now
    {
      hide TickInv, H.IsHeap, Remaining, SumLeft, CaughtUp;
      due := [];
      ghost var order, key0 := heap, Keys();
      p := Progress(key0, map s | s in known :: 0, [], []);
      TickStart(order, off, p, now);
      while |heap| > 0 && heap[0].nextSend <= now
        invariant Heaped() && multiset(heap) == multiset(order)
        invariant p.key == Keys() && p.due == due
        invariant TickInv(order, off, key0, p, now)
        decreases Remaining(order, off, key0, p, now)
      {
        var st;
        st, p := Fire(now, off, order, key0, p);
        if !st.paused {
          due := due + [st];
        }
      }
      AllLater(heap, order, p.key, now);
    }
  }

  /** The heap and the stream table hold the same streams. */
  ghost predicate Linked(streams: map<nat, Stream>, heap: seq<Stream>, n: nat)
  {
    && (forall id :: id in streams ==> id <= n && streams[id].id == id && streams[id] in heap)
    && (forall s :: s in heap ==> s.id in streams && streams[s.id] == s)
  }

  /** Each stream is listed once, under its own call. */
  ghost predicate Listed(streams: map<nat, Stream>, byCall: map<string, seq<nat>>)
  {
    && (forall c :: c in byCall ==> NoDuplicates(byCall[c]))
    && (forall c, id :: c in byCall && id in byCall[c] ==> id in streams && streams[id].callID == c)
    && (forall id :: id in streams ==> streams[id].callID in byCall && id in byCall[streams[id].callID])
  }

  function AddId(byCall: map<string, seq<nat>>, callID: string, id: nat): map<string, seq<nat>>
  {
    byCall[callID := (if callID in byCall then byCall[callID] else []) + [id]]
  }

  ghost function Override(key: map<Stream, int>, some: set<Stream>, t: int): map<Stream, int>
  {
    map s | s in key :: if s in some then t else key[s]
  }

  lemma OverrideNone(key: map<Stream, int>, t: int)
    ensures Override(key, {}, t) == key
  {
  }

  lemma OverrideAdd(key: map<Stream, int>, some: set<Stream>, st: Stream, t: int)
    requires st in key
    ensures Override(key, some + {st}, t) == Override(key, some, t)[st := t]
  {
  }

  lemma OverrideAt(key: map<Stream, int>, some: set<Stream>, t: int)
    ensures Override(key, some, t).Keys == key.Keys
    ensures forall s :: s in key ==> Override(key, some, t)[s] == if s in some then t else key[s]
  {
  }

  /** The streams of a call are those its list names. */
  lemma ListedCall(streams: map<nat, Stream>, byCall: map<string, seq<nat>>, callID: string)
    requires Listed(streams, byCall)
    ensures var ids := if callID in byCall then byCall[callID] else [];
            && NoDuplicates(ids)
            && (forall k :: 0 <= k < |ids| ==> ids[k] in streams)
            && (forall id :: id in streams ==> (streams[id].callID == callID <==> id in ids))
  {
  }

  lemma CallStreams(streams: map<nat, Stream>, heap: seq<Stream>, n: nat, callID: string, ids: seq<nat>)
    requires Linked(streams, heap, n)
    requires forall k :: 0 <= k < |ids| ==> ids[k] in streams
    requires forall id :: id in streams ==> (streams[id].callID == callID <==> id in ids)
    ensures var done := set k | 0 <= k < |ids| :: streams[ids[k]];
            forall s :: s in done <==> s in heap && s.callID == callID
  {
    var done := set k | 0 <= k < |ids| :: streams[ids[k]];
    forall s | s in heap && s.callID == callID
      ensures s in done
    {
      var k :| 0 <= k < |ids| && ids[k] == s.id;
    }
  }

  lemma LinkedRemove(streams: map<nat, Stream>, heap: seq<Stream>, heap': seq<Stream>, n: nat, st: Stream)
    requires Linked(streams, heap, n) && st !in heap' && multiset(heap') + multiset{st} == multiset(heap)
    ensures Linked(streams - {st.id}, heap', n)
  {
    SameMembers(heap, heap' + [st]);
  }

  lemma ListedRemove(streams: map<nat, Stream>, byCall: map<string, seq<nat>>, callID: string, ids: seq<nat>)
    requires Listed(streams, byCall) && ids == if callID in byCall then byCall[callID] else []
    ensures var rest := streams - (set k | 0 <= k < |ids| :: ids[k]);
            && Listed(rest, byCall - {callID})
            && rest == map id | id in streams && streams[id].callID != callID :: streams[id]
  {
    var gone := set k | 0 <= k < |ids| :: ids[k];
    ListedCall(streams, byCall, callID);
    assert forall id :: id in gone <==> id in ids;
  }

  lemma LinkedAdd(streams: map<nat, Stream>, heap: seq<Stream>, heap': seq<Stream>, n: nat, st: Stream)
    requires Linked(streams, heap, n) && st.id == n + 1
    requires multiset(heap') == multiset(heap) + multiset{st}
    ensures Linked(streams[n + 1 := st], heap', n + 1)
  {
    SameMembers(heap', heap + [st]);
  }

  lemma ListedAdd(streams: map<nat, Stream>, byCall: map<string, seq<nat>>, heap: seq<Stream>, n: nat, st: Stream)
    requires Linked(streams, heap, n) && Listed(streams, byCall) && st.id == n + 1
    ensures Listed(streams[n + 1 := st], AddId(byCall, st.callID, n + 1))
  {
    var c := st.callID;
    var ids, streams', byCall' := if c in byCall then byCall[c] else [], streams[n + 1 := st], AddId(byCall, c, n + 1);
    assert forall id :: id in ids ==> id in streams;
    assert byCall'[c] == ids + [n + 1] && n + 1 !in ids;
    forall c', id | c' in byCall' && id in byCall'[c']
      ensures id in streams' && streams'[id].callID == c'
    {
      if c' != c {
        assert c' in byCall && id in byCall[c'] && streams[id].callID == c';
      } else if id != n + 1 {
        assert id in ids;
        assert c in byCall && id in byCall[c] && streams[id].callID == c;
      }
    }
    forall id | id in streams'
      ensures streams'[id].callID in byCall' && id in byCall'[streams'[id].callID]
    {
      if id == n + 1 {
        assert byCall'[c][|ids|] == id;
      } else {
        var o := streams[id].callID;
        assert o in byCall && id in byCall[o];
        assert o == c ==> id in ids + [n + 1];
        assert o != c ==> byCall'[o] == byCall[o];
      }
    }
  }

  /** How far a tick has come: due times, slots used per stream, packets collected and their instants. */
  datatype Progress = Progress(key: map<Stream, int>, cnt: map<Stream, nat>, due: seq<Stream>, times: seq<int>)

  /** One slot of the stream st. */
  ghost function Step(p: Progress, off: set<Stream>, st: Stream): Progress
  {
    if st !in p.key || st !in p.cnt then p
    else
      Progress(p.key[st := p.key[st] + st.interval], p.cnt[st := p.cnt[st] + 1],
               if st in off then p.due else p.due + [st],
               if st in off then p.times else p.times + [p.key[st]])
  }

  lemma StepShape(p: Progress, off: set<Stream>, st: Stream)
    requires st in p.key && st in p.cnt
    ensures Step(p, off, st).key == p.key[st := p.key[st] + st.interval]
    ensures Step(p, off, st).cnt == p.cnt[st := p.cnt[st] + 1]
    ensures Step(p, off, st).due == if st in off then p.due else p.due + [st]
    ensures Step(p, off, st).times == if st in off then p.times else p.times + [p.key[st]]
  {
  }

  ghost function Remaining(order: seq<Stream>, off: set<Stream>, key0: map<Stream, int>, p: Progress, now: int): nat
  {
    if TickInv(order, off, key0, p, now) then SumLeft(order, p.key, now) else 0
  }

  /** Slots left over all streams of a list. */
  ghost function SumLeft(order: seq<Stream>, key: map<Stream, int>, now: int): nat
    requires forall s :: s in order ==> s in key && s.interval > 0
  {
    if order == [] then 0
    else Left(key[order[0]], order[0].interval, now) + SumLeft(order[1..], key, now)
  }

  lemma RootFirst(heap: seq<Stream>, order: seq<Stream>, key: map<Stream, int>)
    requires heap != [] && H.Keyed(heap, key) && H.IsHeap(heap, key, |heap|) && multiset(heap) == multiset(order)
    ensures heap[0] in order
    ensures forall s :: s in order ==> s in key && key[heap[0]] <= key[s]
  {
    assert heap[0] in multiset(order);
    forall s | s in order
      ensures s in key && key[heap[0]] <= key[s]
    {
      assert s in multiset(heap);
      var k :| 0 <= k < |heap| && heap[k] == s;
      H.RootIsLeast(heap, key, k);
    }
  }

  lemma AllLater(heap: seq<Stream>, order: seq<Stream>, key: map<Stream, int>, now: int)
    requires H.Keyed(heap, key) && H.IsHeap(heap, key, |heap|) && multiset(heap) == multiset(order)
    requires heap != [] ==> key[heap[0]] > now
    ensures forall s :: s in order ==> s in key && key[s] > now
  {
    if heap != [] {
      RootFirst(heap, order, key);
    } else {
      assert forall s :: s in order ==> s in multiset(order);
    }
  }

  lemma {:induction false} SumLeftSame(order: seq<Stream>, key: map<Stream, int>, key': map<Stream, int>, now: int)
    requires forall s :: s in order ==> s in key && s in key' && key'[s] == key[s] && s.interval > 0
    ensures SumLeft(order, key', now) == SumLeft(order, key, now)
  {
    if order != [] {
      SumLeftSame(order[1..], key, key', now);
    }
  }

  /** Every step of a tick uses up one slot, so the tick ends. */
  lemma {:induction false} SumLeftStep(order: seq<Stream>, key: map<Stream, int>, st: Stream, now: int)
    requires forall s :: s in order ==> s in key && s.interval > 0
    requires forall i, j :: 0 <= i < j < |order| ==> order[i] != order[j]
    requires st in order && key[st] <= now
    ensures SumLeft(order, key[st := key[st] + st.interval], now) == SumLeft(order, key, now) - 1
  {
    var key' := key[st := key[st] + st.interval];
    if order[0] == st {
      LeftStep(key[st], st.interval, now);
      SumLeftSame(order[1..], key, key', now);
    } else {
      SumLeftStep(order[1..], key, st, now);
    }
  }

  /** After cnt[s] slots of each stream s: the due times have moved on by that many intervals, and the
      packets collected are those slots, for the streams that are not in `off`, in order of time. */
  ghost predicate TickInv(order: seq<Stream>, off: set<Stream>, key0: map<Stream, int>, p: Progress, now: int)
  {
    && (forall i, j :: 0 <= i < j < |order| ==> order[i] != order[j])
    && |p.due| == |p.times| && Sorted(p.times)
    && (forall s :: s in p.due ==> s in order)
    && (forall s :: s in order ==> s in key0 && s in p.key && s in p.cnt && s.interval > 0)
    && (forall i, s :: 0 <= i < |p.times| && s in order ==> p.times[i] <= p.key[s])
    && (forall s :: s in order ==> StreamInv(s, off, key0[s], p.key[s], p.cnt[s], TimesOf(p.due, p.times, s), now))
  }

  /** A stream after a tick: its due time moved by whole intervals just past now, and the packets it gave
      are exactly its due slots, or none if it is paused. */
  ghost predicate CaughtUp(s: Stream, paused: bool, t0: int, t: int, fired: seq<int>, now: int)
  {
    && s.interval > 0
    && t == t0 + Left(t0, s.interval, now) * s.interval
    && t > now
    && fired == (if paused then [] else Slots(t0, s.interval, Left(t0, s.interval, now)))
  }

  ghost predicate StreamInv(s: Stream, off: set<Stream>, t0: int, t: int, n: nat, fired: seq<int>, now: int)
    requires s.interval > 0
  {
    && t == t0 + n * s.interval
    && Left(t0, s.interval, now) == n + Left(t, s.interval, now)
    && fired == (if s in off then [] else Slots(t0, s.interval, n))
  }

  lemma TickStart(order: seq<Stream>, off: set<Stream>, p: Progress, now: int)
    requires forall i, j :: 0 <= i < j < |order| ==> order[i] != order[j]
    requires p.due == [] && p.times == []
    requires forall s :: s in order ==> s in p.key && s in p.cnt && p.cnt[s] == 0 && s.interval > 0
    ensures TickInv(order, off, p.key, p, now)
  {
  }

  lemma StreamStep(s: Stream, off: set<Stream>, t0: int, t: int, n: nat, fired: seq<int>, now: int)
    requires s.interval > 0 && t <= now && StreamInv(s, off, t0, t, n, fired, now)
    ensures StreamInv(s, off, t0, t + s.interval, n + 1, if s in off then fired else fired + [t], now)
  {
    LeftStep(t, s.interval, now);
    assert (n + 1) * s.interval == n * s.interval + s.interval;
  }

  /** The instants stay sorted and below every due time when the earliest stream fires. */
  lemma StepTimes(order: seq<Stream>, off: set<Stream>, p: Progress, st: Stream)
    requires Sorted(p.times) && st in order && st in p.key && st in p.cnt
    requires forall s :: s in order ==> s in p.key && p.key[st] <= p.key[s] && s.interval > 0
    requires forall i, s :: 0 <= i < |p.times| && s in order ==> p.times[i] <= p.key[s]
    ensures var p' := Step(p, off, st);
            && Sorted(p'.times)
            && (forall i, s :: 0 <= i < |p'.times| && s in order ==> s in p'.key && p'.times[i] <= p'.key[s])
  {
  }

  lemma StepStreams(order: seq<Stream>, off: set<Stream>, key0: map<Stream, int>, p: Progress, st: Stream, now: int)
    requires |p.due| == |p.times| && st in order
    requires forall s :: s in order ==> s in key0 && s in p.key && s in p.cnt && s.interval > 0
    requires forall s :: s in order ==> StreamInv(s, off, key0[s], p.key[s], p.cnt[s], TimesOf(p.due, p.times, s), now)
    requires p.key[st] <= now
    ensures var p' := Step(p, off, st);
            && |p'.due| == |p'.times|
            && (forall s :: s in order ==> s in p'.key && s in p'.cnt)
            && (forall s :: s in order ==>
                  StreamInv(s, off, key0[s], p'.key[s], p'.cnt[s], TimesOf(p'.due, p'.times, s), now))
  {
    hide StreamInv, Step, TimesOf;
    var p' := Step(p, off, st);
    StepShape(p, off, st);
    forall s | s in order
      ensures StreamInv(s, off, key0[s], p'.key[s], p'.cnt[s], TimesOf(p'.due, p'.times, s), now)
    {
      TimesOfAdd(p.due, p.times, st, p.key[st], s);
      if s == st {
        StreamStep(s, off, key0[s], p.key[s], p.cnt[s], TimesOf(p.due, p.times, s), now);
      } else {
        assert TimesOf(p.due, p.times, s) + [] == TimesOf(p.due, p.times, s);
      }
    }
  }

  /** One step of a tick, for the earliest stream. */
  lemma TickStep(order: seq<Stream>, off: set<Stream>, key0: map<Stream, int>, p: Progress, st: Stream, now: int)
    requires TickInv(order, off, key0, p, now)
    requires st in order && st in p.key && p.key[st] <= now
    requires forall s :: s in order ==> s in p.key && p.key[st] <= p.key[s]
    ensures st in p.cnt && TickInv(order, off, key0, Step(p, off, st), now)
    ensures Remaining(order, off, key0, Step(p, off, st), now) < Remaining(order, off, key0, p, now)
  {
    hide StreamInv, Sorted, Step, TimesOf, SumLeft;
    StepStreams(order, off, key0, p, st, now);
    StepTimes(order, off, p, st);
    SumLeftStep(order, p.key, st, now);
    StepShape(p, off, st);
  }

  /** When no stream is due any more, every due slot has been used. */
  lemma TickEnd(order: seq<Stream>, off: set<Stream>, key0: map<Stream, int>, p: Progress, now: int)
    requires TickInv(order, off, key0, p, now)
    requires forall s :: s in order ==> p.key[s] > now
    ensures |p.due| == |p.times| && Sorted(p.times) && forall s :: s in p.due ==> s in order
    ensures forall s :: s in order ==> CaughtUp(s, s in off, key0[s], p.key[s], TimesOf(p.due, p.times, s), now)
  {
    hide StreamInv, CaughtUp;
    forall s | s in order
      ensures CaughtUp(s, s in off, key0[s], p.key[s], TimesOf(p.due, p.times, s), now)
    {
      StreamEnd(s, off, key0[s], p.key[s], p.cnt[s], TimesOf(p.due, p.times, s), now);
    }
  }

  lemma StreamEnd(s: Stream, off: set<Stream>, t0: int, t: int, n: nat, fired: seq<int>, now: int)
    requires s.interval > 0 && t > now && StreamInv(s, off, t0, t, n, fired, now)
    ensures CaughtUp(s, s in off, t0, t, fired, now)
  {
  }

  lemma SameMembers(a: seq<Stream>, b: seq<Stream>)
    requires multiset(a) == multiset(b)
    ensures forall s :: s in a <==> s in b
  {
    assert forall s :: s in a <==> s in multiset(a);
    assert forall s :: s in b <==> s in multiset(b);
  }

  ghost predicate NoDuplicates(s: seq<nat>)
  {
    forall i, j :: 0 <= i < j < |s| ==> s[i] != s[j]
  }
}