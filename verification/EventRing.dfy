/**
 The event log's ring buffer, which overwrites its oldest event when full, and
 the logger whose consumer drains it into sinks. Each method is one critical
 section of the ring's lock, or one step of the consumer or of a closing call.
 */
module EventRing {
  import opened Common
  import opened Arith

  /** Position i of a ring of n slots, counted from head. */
  function At(head: nat, i: nat, n: nat): (r: nat)
    requires head < n && i <= n
    ensures r < n
  {
    if head + i < n then head + i else head + i - n
  }

  lemma AtIsMod(head: nat, i: nat, n: nat)
    requires head < n && i <= n
    ensures At(head, i, n) == (head + i) % n
  {
    if head + i < n {
      DivSmall(head + i, n);
    } else {
      DivStep(head + i, n);
      DivSmall(head + i - n, n);
    }
  }

  /** The events whose mark is set. */
  function Picked<E>(s: seq<E>, marks: seq<bool>): seq<E>
    requires |s| == |marks|
  {
    if s == [] then []
    else
      var n := |s| - 1;
      Picked(s[..n], marks[..n]) + (if marks[n] then [s[n]] else [])
  }

  function Unmarked(marks: seq<bool>): nat
  {
    if marks == [] then 0 else Unmarked(marks[..|marks| - 1]) + (if marks[|marks| - 1] then 0 else 1)
  }

  lemma PickedOne<E>(s: seq<E>, marks: seq<bool>, k: nat, mark: bool)
    requires |marks| == k < |s|
    ensures Picked(s[..k + 1], marks + [mark]) == Picked(s[..k], marks) + (if mark then [s[k]] else [])
    ensures Unmarked(marks + [mark]) == Unmarked(marks) + (if mark then 0 else 1)
  {
    assert s[..k + 1][..k] == s[..k] && (marks + [mark])[..k] == marks;
  }

  /** Picked and dropped events make up the whole. */
  lemma {:induction false} PickedCount<E>(s: seq<E>, marks: seq<bool>)
    requires |s| == |marks|
    ensures |Picked(s, marks)| + Unmarked(marks) == |s|
  {
    if s != [] {
      PickedCount(s[..|s| - 1], marks[..|s| - 1]);
    }
  }

  /** A tail of events that are all marked. */
  lemma {:induction false} PickedTail<E>(s: seq<E>, marks: seq<bool>, k: nat)
    requires |marks| + k == |s|
    ensures Picked(s, marks + seq(k, _ => true)) == Picked(s[..|marks|], marks) + s[|marks|..]
    decreases k
  {
    var m := |s| - 1;
    if k == 0 {
      assert marks + seq(k, _ => true) == marks && s[..|marks|] == s;
    } else {
      assert (marks + seq(k, _ => true))[..m] == marks + seq(k - 1, _ => true);
      PickedTail(s[..m], marks, k - 1);
      assert s[..m][..|marks|] == s[..|marks|] && s[..m][|marks|..] + [s[m]] == s[|marks|..];
    }
  }

  class Ring<E(0)> {
    const buf: array<E>
    var head: nat
    var tail: nat
    var size: nat
    var dropped: nat
    var closed: bool

    ghost var accepted: seq<E>    // every event pushed while open, in order
    ghost var fate: seq<bool>     // for those that left the ring: delivered, or overwritten
    ghost var delivered: seq<E>

    ghost predicate Shape()
      reads this
    {
      head < buf.Length && size <= buf.Length && tail == At(head, size, buf.Length)
    }

    ghost function Buffered(): (s: seq<E>)
      requires Shape()
      reads this, buf
      ensures |s| == size
      ensures forall i :: 0 <= i < size ==> s[i] == buf[At(head, i, buf.Length)]
    {
      seq(size, i requires 0 <= i < size && Shape() reads this, buf => buf[At(head, i, buf.Length)])
    }

    /** Events leave in the order they came: the ring holds the latest ones, those delivered are the earlier
        ones that were not overwritten, and the counter says how many were. */
    ghost predicate Valid()
      reads this, buf
    {
      && Shape()
      && |fate| + size == |accepted|
      && Buffered() == accepted[|fate|..]
      && delivered == Picked(accepted[..|fate|], fate)
      && dropped == Unmarked(fate)
    }

    /** Every accepted event was delivered, is buffered, or was overwritten and counted. */
    lemma Conservation()
      requires Valid()
      ensures |accepted| == |delivered| + size + dropped
    {
      PickedCount(accepted[..|fate|], fate);
    }

    /** The accepted events that were not overwritten. */
    ghost function Survivors(): seq<E>
      requires Valid()
      reads this, buf
    {
      Picked(accepted, fate + seq(size, _ => true))
    }

    lemma SurvivorsAre()
      requires Valid()
      ensures Survivors() == delivered + Buffered()
    {
      PickedTail(accepted, fate, size);
    }

    constructor (capacity: int, zero: E)
      ensures Valid() && fresh(buf) && buf.Length == (if capacity <= 0 then 1 else capacity)
      ensures accepted == [] && delivered == [] && fate == [] && !closed
    {
      var n := if capacity <= 0 then 1 else capacity;
      buf := new E[n](_ => zero);
      head, tail, size, dropped, closed := 0, 0, 0, 0, false;
      accepted, fate, delivered := [], [], [];
    }

    /** Adds an event; a full ring first gives up its oldest one. A closed ring takes nothing. */
    method Push(ev: E)
      requires Valid()
      modifies this`head, this`tail, this`size, this`dropped, this`accepted, this`fate, buf
      ensures Valid()
      ensures closed ==> accepted == old(accepted) && fate == old(fate) && Buffered() == old(Buffered())
      ensures !closed ==>
                && accepted == old(accepted) + [ev]
                && fate == (if old(size) == buf.Length then old(fate) + [false] else old(fate))
                && Buffered() == (if old(size) == buf.Length then old(Buffered())[1..] else old(Buffered())) + [ev]
    {
      if closed {
        return;
      }
      if size == buf.Length {
        DropOldest();
      }
      Append(ev);
    }

    method DropOldest()
      requires Valid() && size > 0
      modifies this`head, this`size, this`dropped, this`fate
      ensures Valid() && size == old(size) - 1 && fate == old(fate) + [false]
      ensures Buffered() == old(Buffered())[1..]
    {
      ghost var b := Buffered();
      PickedOne(accepted, fate, |fate|, false);
      AtIsMod(head, 1, buf.Length);
      head := (head + 1) % buf.Length;
      size := size - 1;
      dropped := dropped + 1;
      fate := fate + [false];
      assert Buffered() == b[1..];
    }

    method Append(ev: E)
      requires Valid() && size < buf.Length
      modifies this`tail, this`size, this`accepted, buf
      ensures Valid() && size == old(size) + 1 && accepted == old(accepted) + [ev]
      ensures Buffered() == old(Buffered()) + [ev]
    {
      ghost var b := Buffered();
      buf[tail] := ev;
      AtIsMod(tail, 1, buf.Length);
      tail := (tail + 1) % buf.Length;
      size := size + 1;
      accepted := accepted + [ev];
      assert Buffered() == b + [ev];
      assert accepted[..|fate|] == old(accepted)[..|fate|];
    }

    /** Hands the oldest event to the consumer and clears its slot. */
    method TakeOldest(zero: E) returns (ev: E)
      requires Valid() && size > 0
      modifies this`head, this`size, this`fate, this`delivered, buf
      ensures Valid() && size == old(size) - 1 && fate == old(fate) + [true]
      ensures ev == old(Buffered())[0] && Buffered() == old(Buffered())[1..]
      ensures delivered == old(delivered) + [ev]
    {
      ghost var b := Buffered();
      PickedOne(accepted, fate, |fate|, true);
      ev := buf[head];
      buf[head] := zero;
      AtIsMod(head, 1, buf.Length);
      head := (head + 1) % buf.Length;
      size := size - 1;
      fate := fate + [true];
      delivered := delivered + [ev];
      assert Buffered() == b[1..];
    }

    /** What the consumer gets: up to `max` of the oldest events, nothing yet, or the end. */
    method Drain(max: nat, zero: E) returns (out: seq<E>, status: Status)
      requires Valid()
      modifies this`head, this`size, this`fate, this`delivered, buf
      ensures Valid()
      ensures status == (if size + |out| > 0 then Batch else if closed then Ended else Blocked)
      ensures |out| == (if 0 < max < old(size) then max else old(size))
      ensures size == old(size) - |out|
      ensures out == old(Buffered())[..|out|] && Buffered() == old(Buffered())[|out|..]
      ensures delivered == old(delivered) + out
      ensures |fate| == |old(fate)| + |out|
    {
      hide Picked, Unmarked, At, Ring.Buffered;
      out := [];
      if size == 0 {
        return [], if closed then Ended else Blocked;
      }
      var n := if 0 < max < size then max else size;
      ghost var b := Buffered();
      while |out| < n
        invariant |out| <= n <= |b| && Valid() && size == |b| - |out|
        invariant out == b[..|out|] && Buffered() == b[|out|..]
        invariant delivered == old(delivered) + out && |fate| == |old(fate)| + |out|
      {
        var ev := TakeOldest(zero);
        assert b[..|out| + 1] == b[..|out|] + [ev];
        out := out + [ev];
      }
      return out, Batch;
    }

    method Close()
      requires Valid()
      modifies this`closed
      ensures Valid() && closed && Buffered() == old(Buffered())
    {
      closed := true;
    }
  }

  datatype Status = Batch | Blocked | Ended

  datatype Event = Event(level: int, time: Option<int>, text: string)

  const DEFAULT_BUFFER_SIZE := 16 * 1024
  const DEFAULT_BATCH_SIZE := 256
  const ZERO_EVENT := Event(0, None, "")

  function Lengths(written: seq<seq<Event>>): (r: seq<nat>)
    ensures |r| == |written| && forall k :: 0 <= k < |r| ==> r[k] == |written[k]|
  {
    seq(|written|, k requires 0 <= k < |written| => |written[k]|)
  }

  /** How far the call of Close that won the flag has come. */
  datatype Closing = Open | Won | RingClosed | Returned

  /** The consumer: at the top of its loop, with a batch in its hands that the sinks before `at` were given, or
      at its end. */
  datatype Consumer = Top | Writing(events: seq<Event>, at: nat, last: bool) | Gone

  /** What sink k was given, and what is on its way to it, is what left the ring, in order. */
  predicate SinkOk(delivered: seq<Event>, consumer: Consumer, k: nat, given: seq<Event>, flushed: nat)
  {
    && flushed <= |given|
    && delivered == given + (if consumer.Writing? && consumer.at <= k then consumer.events else [])
  }

  /** A batch taken out of the ring is one that every sink has yet to get. */
  lemma SinkWaits(delivered: seq<Event>, out: seq<Event>, last: bool, k: nat, given: seq<Event>, flushed: nat)
    requires SinkOk(delivered, Top, k, given, flushed)
    ensures SinkOk(delivered + out, Writing(out, 0, last), k, given, flushed)
  {
    assert given + [] == given;
  }

  /**
   The logger: producers emit, one consumer drains the ring into every sink, and
   any number of calls of Close may come. Each method is one step; steps of
   producers, the consumer and closers interleave in any way.
   */
  class Logger {
    const ring: Ring<Event>
    const minLevel: int
    const batch: nat
    var closed: bool
    var consumer: Consumer
    var written: seq<seq<Event>>      // what each sink was given
    var flushed: seq<nat>             // how much of it was flushed
    ghost var closing: Closing

    /** The consumer ends with the ring closed and empty and the sinks flushed. */
    ghost predicate Valid()
      reads this, ring, ring.buf
    {
      && ring.Valid() && batch > 0
      && |written| == |flushed|
      && (forall k :: 0 <= k < |written| ==> SinkOk(ring.delivered, consumer, k, written[k], flushed[k]))
      && (consumer.Writing? ==> consumer.at <= |written| && (consumer.last ==> consumer.events == []))
      && (closed <==> !closing.Open?)
      && (ring.closed <==> closing.RingClosed? || closing.Returned?)
      && (consumer.Gone? || (consumer.Writing? && consumer.last) ==> ring.closed && ring.size == 0)
      && (consumer.Gone? ==> forall k :: 0 <= k < |flushed| ==> flushed[k] == |written[k]|)
      && (closing.Returned? ==> consumer.Gone?)
    }

    /** Every sink was given all accepted events that were not overwritten. */
    ghost predicate AllGiven()
      requires ring.Valid()
      reads this, ring, ring.buf
    {
      forall k :: 0 <= k < |written| ==> written[k] == ring.Survivors()
    }

    ghost predicate AllFlushed()
      reads this
    {
      |flushed| == |written| && forall k :: 0 <= k < |flushed| ==> flushed[k] == |written[k]|
    }

    /** No batch is on its way to a sink. */
    predicate HandsEmpty()
      reads this
    {
      consumer.Writing? ==> consumer.events == [] || consumer.at == |written|
    }

    /** Sizes that are not positive take their defaults, and a batch is never larger than the buffer. */
    constructor (bufferSize: int, minLevel: int, batchSize: int, sinks: nat)
      ensures Valid() && fresh(ring) && fresh(ring.buf) && !closed && consumer == Top && this.minLevel == minLevel
      ensures written == seq(sinks, _ => []) && ring.accepted == [] && ring.fate == []
      ensures ring.buf.Length == (if bufferSize <= 0 then 16384 else bufferSize)
      ensures batch == (var wanted := if batchSize <= 0 then 256 else batchSize;
                        if wanted > ring.buf.Length then ring.buf.Length else wanted)
    {
      var size := if bufferSize <= 0 then DEFAULT_BUFFER_SIZE else bufferSize;
      var wanted := if batchSize <= 0 then DEFAULT_BATCH_SIZE else batchSize;
      var r := new Ring<Event>(size, ZERO_EVENT);
      ring := r;
      this.minLevel, batch, closed, consumer := minLevel, if wanted > size then size else wanted, false, Top;
      written := seq(sinks, _ => []);
      flushed := seq(sinks, _ => 0);
      closing := Open;
    }

    /** The first half of Emit: an event below the level, or after the flag, goes no further. */
    method Admit(ev: Event) returns (ok: bool)
      ensures ok == (!closed && ev.level >= minLevel)
    {
      if closed {
        return false;
      }
      return ev.level >= minLevel;
    }

    /** The second half of Emit, which may come after the flag was set: the event is stamped and pushed, and
        accepted unless the ring was closed meanwhile. */
    method PushAdmitted(ev: Event, now: int)
      requires Valid()
      modifies ring, ring.buf
      ensures Valid()
      ensures ring.delivered == old(ring.delivered) && ring.closed == old(ring.closed)
      ensures ring.accepted == old(ring.accepted)
                + (if ring.closed then [] else [if ev.time.None? then ev.(time := Some(now)) else ev])
      ensures ring.fate == old(ring.fate) + (if !ring.closed && old(ring.size) == ring.buf.Length then [false] else [])
    {
      ring.Push(if ev.time.None? then ev.(time := Some(now)) else ev);
    }

    /** The consumer takes a batch out of the ring, waits, or learns that it has ended. */
    method TakeBatch()
      requires Valid() && consumer.Top?
      modifies this`consumer, ring, ring.buf
      ensures Valid() && ring.closed == old(ring.closed) && ring.accepted == old(ring.accepted)
      ensures old(ring.delivered) <= ring.delivered
      ensures |ring.delivered| - |old(ring.delivered)| == old(ring.size) - ring.size
      ensures consumer == if old(ring.size) == 0 && !ring.closed then Top
                          else Writing(ring.delivered[|old(ring.delivered)|..], 0, old(ring.size) == 0)
      ensures ring.size == if batch < old(ring.size) then old(ring.size) - batch else 0
    {
      hide Ring.Valid, Ring.Buffered, SinkOk;
      ghost var before := ring.delivered;
      var out, status := ring.Drain(batch, ZERO_EVENT);
      assert ring.delivered[|before|..] == out;
      if status != Blocked {
        consumer := Writing(out, 0, status == Ended);
        forall k | 0 <= k < |written|
          ensures SinkOk(ring.delivered, consumer, k, written[k], flushed[k])
        {
          SinkWaits(before, out, status == Ended, k, written[k], flushed[k]);
        }
      } else {
        assert ring.delivered == before;
      }
    }

    /** The next sink is given the batch. */
    method WriteNext()
      requires Valid() && consumer.Writing? && consumer.at < |written|
      modifies this`consumer, this`written
      ensures Valid() && consumer == old(consumer).(at := old(consumer).at + 1)
      ensures written == old(written)[old(consumer).at := old(written)[old(consumer).at] + consumer.events]
    {
      var k := consumer.at;
      assert SinkOk(ring.delivered, consumer, k, written[k], flushed[k]);
      written := written[k := written[k] + consumer.events];
      consumer := consumer.(at := k + 1);
    }

    /** After the last sink the consumer flushes, if the batch was short or the end has come, and goes on. */
    method EndPass()
      requires Valid() && consumer.Writing? && consumer.at == |written|
      modifies this`consumer, this`flushed
      ensures Valid() && consumer == if old(consumer).last then Gone else Top
      ensures flushed == if old(consumer).last || 0 < |old(consumer).events| < batch then Lengths(written) else old(flushed)
    {
      if consumer.last || 0 < |consumer.events| < batch {
        flushed := Lengths(written);
      }
      consumer := if consumer.last then Gone else Top;
    }

    /** The first step of Close: one call wins the flag. Any other returns here. */
    method WinFlag() returns (first: bool)
      requires Valid()
      modifies this`closed, this`closing
      ensures Valid() && closed && first == !old(closed)
      ensures closing == if first then Won else old(closing)
    {
      if closed {
        return false;
      }
      closed := true;
      closing := Won;
      return true;
    }

    /** The second step of the call that won: from here on no event is accepted. */
    method CloseRing()
      requires Valid() && closing.Won?
      modifies this`closing, ring`closed
      ensures Valid() && closing.RingClosed? && ring.closed
    {
      ring.Close();
      closing := RingClosed;
    }

    /** The return of the call that won, after the consumer has ended: every sink was given, and flushed of, all
        accepted events that were not overwritten, and since the ring is closed no more will be accepted. */
    method FinishClose()
      requires Valid() && closing.RingClosed? && consumer.Gone?
      modifies this`closing, this`flushed
      ensures Valid() && AllGiven() && AllFlushed() && ring.closed && closing.Returned?
    {
      GivenIff();
      flushed := Lengths(written);
      closing := Returned;
    }

    /** At any moment of any run, and so when a call of Close that lost the flag returns: every sink was given all
        accepted events that were not overwritten, if and only if the ring and the consumer's hands are
        empty. */
    lemma GivenIff()
      requires Valid()
      ensures ring.size == 0 && HandsEmpty() ==> AllGiven()
      ensures written != [] && AllGiven() ==> ring.size == 0 && HandsEmpty()
    {
      ring.SurvivorsAre();
      if ring.size == 0 && HandsEmpty() {
        forall k | 0 <= k < |written|
          ensures written[k] == ring.Survivors()
        {
          assert SinkOk(ring.delivered, consumer, k, written[k], flushed[k]);
        }
      } else if written != [] {
        var k := if ring.size == 0 then consumer.at else 0;
        assert SinkOk(ring.delivered, consumer, k, written[k], flushed[k]);
        assert |written[k]| < |ring.delivered + ring.Buffered()|;
      }
    }

    /** How far the consumer is from the end of its pass. */
    ghost function Left(): nat
      requires Valid()
      reads this, ring, ring.buf
    {
      if consumer.Writing? then 1 + |written| - consumer.at else 0
    }

    /** Left alone after the ring is closed, the consumer comes to its end and Close returns. */
    method DrainToEnd()
      requires Valid() && closing.RingClosed?
      modifies this`written, this`flushed, this`consumer, this`closing, ring, ring.buf
      ensures Valid() && closing.Returned? && AllGiven() && AllFlushed() && ring.accepted == old(ring.accepted)
    {
      hide Ring.Valid;
      while !consumer.Gone?
        invariant Valid() && closing.RingClosed? && ring.accepted == old(ring.accepted)
        decreases ring.size, if consumer.Top? then 1 else if consumer.Writing? && !consumer.last then 2 else 0, Left()
      {
        if consumer.Top? {
          TakeBatch();
        } else if consumer.at < |written| {
          WriteNext();
        } else {
          EndPass();
        }
      }
      FinishClose();
    }
  }

  /** A logger that has accepted the given events, which fit its buffer. */
  method Filled(evs: seq<Event>, bufferSize: nat, minLevel: int, sinks: nat, now: int) returns (l: Logger)
    requires 0 < |evs| <= bufferSize && forall i :: 0 <= i < |evs| ==> evs[i].level >= minLevel
    ensures fresh(l) && fresh(l.ring) && fresh(l.ring.buf) && l.Valid() && !l.closed && l.consumer == Top
    ensures |l.ring.accepted| == |evs| && l.ring.size == |evs| && l.batch == bufferSize && l.ring.fate == []
    ensures l.written == seq(sinks, _ => [])
  {
    l := new Logger(bufferSize, minLevel, bufferSize, sinks);
    var i := 0;
    while i < |evs|
      invariant 0 <= i <= |evs| && fresh(l) && fresh(l.ring) && fresh(l.ring.buf) && l.Valid()
      invariant l.ring.buf.Length == bufferSize && |l.ring.accepted| == i && l.ring.fate == [] && l.batch == bufferSize
      invariant !l.closed && l.consumer == Top && l.minLevel == minLevel && l.written == seq(sinks, _ => [])
    {
      var ok := l.Admit(evs[i]);
      if ok {
        l.PushAdmitted(evs[i], now);
      }
      i := i + 1;
    }
  }

  /** Runs for any events that fit the buffer: all are accepted, one call of Close wins the flag, and a second
      call returns while no sink has been given any of them. They may be in the ring, or the ring may be
      empty and the consumer hold them. */
  method SecondCloseReturnsEarly(evs: seq<Event>, bufferSize: nat, minLevel: int, sinks: nat, now: int, taken: bool)
    returns (l: Logger, first: bool, second: bool)
    requires 0 < |evs| <= bufferSize && forall i :: 0 <= i < |evs| ==> evs[i].level >= minLevel
    ensures first && !second && l.closed && !l.consumer.Gone?
    ensures fresh(l) && l.Valid() && |l.ring.accepted| == |evs| && l.ring.size == (if taken then 0 else |evs|)
    ensures l.written == seq(sinks, _ => []) && (sinks > 0 ==> !l.AllGiven())
  {
    l := Filled(evs, bufferSize, minLevel, sinks, now);
    if taken {
      l.TakeBatch();
    }
    first := l.WinFlag();
    second := l.WinFlag();
    assert |l.written| == sinks;
    l.GivenIff();
  }
}
