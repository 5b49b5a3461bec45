/**
 Workers deliver packets to the mailboxes of their calls, while calls register,
 read and unregister. The shard of a packet comes from its bytes, its mailbox
 from the Call-ID that parsing finds.
 */
module Mailboxes {
  import opened Common
  import opened Text
  import opened SipHeaders
  import opened CallIdShard
  import opened Dispatch

  const MAILBOX_CAP := 512

  /** What arrives: the shard and the mailbox name of each packet; none if no Call-ID was found. */
  datatype Traffic = Traffic(shard: seq<nat>, name: seq<Option<string>>, n: nat)

  predicate Fits(t: Traffic)
  {
    Sharded(t.shard, t.n) && |t.name| == |t.shard|
  }

  /** `delivered` lists the packets that entered a mailbox, `dropped` those that no mailbox took. */
  datatype State = State(run: Run, boxes: map<string, seq<nat>>, delivered: seq<nat>, dropped: seq<nat>)

  datatype Action = Do(e: Step) | Register(c: string) | Unregister(c: string) | Read(c: string)

  /** The mailbox that takes packet x, if there is one with room. */
  function Target(boxes: map<string, seq<nat>>, name: seq<Option<string>>, x: nat): Option<string>
  {
    if x < |name| && name[x].Some? && name[x].value in boxes && |boxes[name[x].value]| < MAILBOX_CAP then name[x]
    else None
  }

  function Store(s: State, name: seq<Option<string>>, x: nat): State
  {
    match Target(s.boxes, name, x)
    case Some(c) => s.(boxes := s.boxes[c := s.boxes[c] + [x]], delivered := s.delivered + [x])
    case None => s.(dropped := s.dropped + [x])
  }

  predicate CanDo(t: Traffic, s: State, a: Action)
    requires Sharded(t.shard, |s.run.lanes|)
  {
    match a
    case Do(e) => Enabled(s.run, t.shard, e)
    case Read(c) => c in s.boxes && s.boxes[c] != []
    case _ => true
  }

  function Act(t: Traffic, s: State, a: Action): State
    requires Sharded(t.shard, |s.run.lanes|) && CanDo(t, s, a)
  {
    match a
    case Do(Split) => s.(run := Apply(s.run, t.shard, Split))
    case Do(Take(w)) => s.(run := Apply(s.run, t.shard, Take(w)))
    case Do(Handle(w)) => Store(s, t.name, s.run.lanes[w].hand.value).(run := Apply(s.run, t.shard, Handle(w)))
    case Register(c) => s.(boxes := s.boxes[c := []])
    case Unregister(c) => s.(boxes := s.boxes - {c})
    case Read(c) => s.(boxes := s.boxes[c := s.boxes[c][1..]])
  }

  lemma ActQueues(t: Traffic, s: State, a: Action)
    requires Sharded(t.shard, |s.run.lanes|) && CanDo(t, s, a)
    ensures |Act(t, s, a).run.lanes| == |s.run.lanes|
  {
  }

  predicate CanRun(t: Traffic, s: State, acts: seq<Action>)
    requires Sharded(t.shard, |s.run.lanes|)
    decreases |acts|
  {
    acts == [] ||
    (CanDo(t, s, acts[0]) && (ActQueues(t, s, acts[0]); CanRun(t, Act(t, s, acts[0]), acts[1..])))
  }

  function After(t: Traffic, s: State, acts: seq<Action>): State
    requires Sharded(t.shard, |s.run.lanes|) && CanRun(t, s, acts)
    decreases |acts|
  {
    if acts == [] then s
    else
      ActQueues(t, s, acts[0]);
      After(t, Act(t, s, acts[0]), acts[1..])
  }

  function Begin(n: nat): State
  {
    State(Start(n), map[], [], [])
  }

  // ---------- what every run keeps ----------

  /** Handled packets were delivered or dropped; no mailbox is over its capacity; packets entered mailboxes, and
      wait in each, in the order they arrived but where one may overtake the other. */
  ghost predicate BoxesOk(t: Traffic, s: State, handled: seq<nat>)
  {
    && multiset(handled) == multiset(s.delivered) + multiset(s.dropped)
    && (forall c :: c in s.boxes ==> |s.boxes[c]| <= MAILBOX_CAP)
    && KeepsOrder(s.delivered, handled, t.shard)
    && (forall c :: c in s.boxes ==> KeepsOrder(s.boxes[c], handled, t.shard))
  }

  ghost predicate Ok(t: Traffic, s: State)
  {
    |s.run.lanes| == t.n && InOrder(s.run, t.shard) && BoxesOk(t, s, s.run.log)
  }

  lemma StoreKeeps(t: Traffic, s: State, x: nat)
    requires BoxesOk(t, s, s.run.log) && x < |t.shard|
    requires forall y :: y in s.run.log && y < |t.shard| ==> y < x || (x < y && MayOvertake(t.shard, x, y))
    ensures BoxesOk(t, Store(s, t.name, x), s.run.log + [x])
  {
    hide KeepsOrder, MayOvertake;
    OrderGrows(s.delivered, s.run.log, t.shard, x);
    forall c | c in s.boxes
      ensures KeepsOrder(s.boxes[c], s.run.log + [x], t.shard) && KeepsOrder(s.boxes[c] + [x], s.run.log + [x], t.shard)
    {
      OrderGrows(s.boxes[c], s.run.log, t.shard, x);
    }
  }

  lemma HandleKeeps(t: Traffic, s: State, w: nat)
    requires Fits(t) && Ok(t, s) && CanDo(t, s, Do(Handle(w)))
    ensures Ok(t, Act(t, s, Do(Handle(w))))
  {
    hide InOrder, BoxesOk, Store, MayOvertake;
    var x := s.run.lanes[w].hand.value;
    HeldBack(s.run, t.shard, w);
    forall y | y in s.run.log && y < |t.shard|
      ensures y < x || (x < y && MayOvertake(t.shard, x, y))
    {
      Overtaken(s.run, t.shard, w, y);
    }
    StepInOrder(s.run, t.shard, Handle(w));
    StoreKeeps(t, s, x);
    StoreRun(t, s, x, Apply(s.run, t.shard, Handle(w)));
  }

  /** The mailboxes do not depend on the queues. */
  lemma StoreRun(t: Traffic, s: State, x: nat, run: Run)
    requires BoxesOk(t, Store(s, t.name, x), s.run.log + [x])
    ensures BoxesOk(t, Store(s, t.name, x).(run := run), s.run.log + [x])
  {
  }

  lemma ReadKeeps(t: Traffic, s: State, c: string)
    requires BoxesOk(t, s, s.run.log) && c in s.boxes && s.boxes[c] != []
    ensures BoxesOk(t, s.(boxes := s.boxes[c := s.boxes[c][1..]]), s.run.log)
  {
    assert KeepsOrder(s.boxes[c], s.run.log, t.shard);
  }

  lemma ActKeeps(t: Traffic, s: State, a: Action)
    requires Fits(t) && Ok(t, s) && CanDo(t, s, a)
    ensures Ok(t, Act(t, s, a))
  {
    hide InOrder, KeepsOrder;
    match a
    case Do(Split) => StepInOrder(s.run, t.shard, Split);
    case Do(Take(w)) => StepInOrder(s.run, t.shard, Take(w));
    case Do(Handle(w)) => HandleKeeps(t, s, w);
    case Read(c) => ReadKeeps(t, s, c);
    case Register(c) => assert KeepsOrder([], s.run.log, t.shard) by { NothingOrdered(s.run.log, t.shard); }
    case Unregister(_) =>
  }

  lemma NothingOrdered(log: seq<nat>, shard: seq<nat>)
    ensures KeepsOrder([], log, shard)
  {
  }

  lemma {:induction false} RunKeeps(t: Traffic, s: State, acts: seq<Action>)
    requires Fits(t) && Ok(t, s) && CanRun(t, s, acts)
    ensures Ok(t, After(t, s, acts))
    decreases |acts|
  {
    hide Ok, Act, CanDo;
    assert |s.run.lanes| == t.n by { OkQueues(t, s); }
    if acts != [] {
      ActKeeps(t, s, acts[0]);
      OkQueues(t, Act(t, s, acts[0]));
      RunKeeps(t, Act(t, s, acts[0]), acts[1..]);
    }
  }

  lemma OkQueues(t: Traffic, s: State)
    requires Ok(t, s)
    ensures |s.run.lanes| == t.n
  {
  }

  lemma BeginOk(t: Traffic)
    requires Fits(t)
    ensures Ok(t, Begin(t.n))
  {
    StartInOrder(t.shard, t.n);
  }

  // ---------- who can overtake whom ----------

  /** The later packet j stands before the earlier packet i in a mailbox. */
  ghost predicate Swapped(s: State, c: string, i: nat, j: nat)
  {
    c in s.boxes && exists a, b :: 0 <= a < b < |s.boxes[c]| && s.boxes[c][a] == j && s.boxes[c][b] == i
  }

  lemma {:induction false} AfterSnoc(t: Traffic, s: State, acts: seq<Action>, a: Action)
    requires Sharded(t.shard, |s.run.lanes|) && CanRun(t, s, acts)
    requires Sharded(t.shard, |After(t, s, acts).run.lanes|) && CanDo(t, After(t, s, acts), a)
    ensures CanRun(t, s, acts + [a]) && After(t, s, acts + [a]) == Act(t, After(t, s, acts), a)
    decreases |acts|
  {
    hide Act, CanDo;
    if acts == [] {
      assert acts + [a] == [a] && [a][1..] == [];
      ActQueues(t, s, a);
    } else {
      assert (acts + [a])[1..] == acts[1..] + [a];
      ActQueues(t, s, acts[0]);
      AfterSnoc(t, Act(t, s, acts[0]), acts[1..], a);
    }
  }

  /** Steps of splitter and workers alone, as actions. */
  function Steps(es: seq<Step>): seq<Action>
  {
    seq(|es|, k requires 0 <= k < |es| => Do(es[k]))
  }

  lemma {:induction false} StepsRun(t: Traffic, s: State, es: seq<Step>)
    requires Sharded(t.shard, |s.run.lanes|) && Possible(s.run, t.shard, es)
    ensures CanRun(t, s, Steps(es)) && After(t, s, Steps(es)).run == RunAll(s.run, t.shard, es)
    decreases |es|
  {
    hide Store, Apply, Enabled;
    if es != [] {
      var a := Do(es[0]);
      assert Steps(es)[0] == a && Steps(es)[1..] == Steps(es[1..]);
      ActQueues(t, s, a);
      assert Act(t, s, a).run == Apply(s.run, t.shard, es[0]);
      StepsRun(t, Act(t, s, a), es[1..]);
    }
  }

  /** Packets of one mailbox, one of which may overtake the other: the later one can come first. */
  lemma OvertakerSwaps(t: Traffic, i: nat, j: nat, c: string) returns (acts: seq<Action>)
    requires Fits(t) && i < j < |t.shard| && t.name[i] == t.name[j] == Some(c) && MayOvertake(t.shard, i, j)
    ensures CanRun(t, Begin(t.n), acts)
    ensures var s := After(t, Begin(t.n), acts); c in s.boxes && s.boxes[c] == [j, i]
  {
    hide CanRun, After, Possible, RunAll, Act, CanDo, Between;
    var u, w := t.shard[i], t.shard[j];
    var es := BothHeld(t.shard, t.n, i, j);
    acts := Steps(es);
    StepsRun(t, Begin(t.n), es);
    var s0 := After(t, Begin(t.n), acts);
    AfterQueues(t, Begin(t.n), acts);
    LastThree(t, s0, i, j, c);
    AfterSnoc(t, Begin(t.n), acts, Register(c));
    acts := acts + [Register(c)];
    AfterQueues(t, Begin(t.n), acts);
    AfterSnoc(t, Begin(t.n), acts, Do(Handle(w)));
    acts := acts + [Do(Handle(w))];
    AfterQueues(t, Begin(t.n), acts);
    AfterSnoc(t, Begin(t.n), acts, Do(Handle(u)));
    acts := acts + [Do(Handle(u))];
  }

  lemma {:induction false} AfterQueues(t: Traffic, s: State, acts: seq<Action>)
    requires Sharded(t.shard, |s.run.lanes|) && CanRun(t, s, acts)
    ensures |After(t, s, acts).run.lanes| == |s.run.lanes|
    decreases |acts|
  {
    hide Act, CanDo;
    if acts != [] {
      ActQueues(t, s, acts[0]);
      AfterQueues(t, Act(t, s, acts[0]), acts[1..]);
    }
  }

  /** The call registers, then the later packet is handled, then the earlier one. */
  lemma LastThree(t: Traffic, s: State, i: nat, j: nat, c: string)
    requires Fits(t) && i < j < |t.shard| && t.name[i] == t.name[j] == Some(c) && t.shard[i] != t.shard[j]
    requires var l := s.run.lanes; |l| == t.n && l[t.shard[i]].hand == Some(i) && l[t.shard[j]].hand == Some(j)
    ensures CanDo(t, s, Register(c))
    ensures var s1 := Act(t, s, Register(c));
            && Sharded(t.shard, |s1.run.lanes|) && CanDo(t, s1, Do(Handle(t.shard[j])))
            && var s2 := Act(t, s1, Do(Handle(t.shard[j])));
               && Sharded(t.shard, |s2.run.lanes|) && CanDo(t, s2, Do(Handle(t.shard[i])))
               && var s3 := Act(t, s2, Do(Handle(t.shard[i])));
                  c in s3.boxes && s3.boxes[c] == [j, i]
  {
    var s1 := Act(t, s, Register(c));
    assert s1.boxes[c] == [] && Target(s1.boxes, t.name, j) == Some(c);
    var s2 := Act(t, s1, Do(Handle(t.shard[j])));
    assert s2.boxes[c] == [j] && Target(s2.boxes, t.name, i) == Some(c);
  }

  /** Over all interleavings of splitter, workers and calls: two packets for one mailbox can stand in it in the
      wrong order if and only if their shards differ and at most a full queue of packets of the earlier one's
      shard arrive between them. */
  lemma SwapsIffMayOvertake(t: Traffic, i: nat, j: nat, c: string)
    requires Fits(t) && i < j < |t.shard| && t.name[i] == t.name[j] == Some(c)
    ensures (exists acts :: CanRun(t, Begin(t.n), acts) && Swapped(After(t, Begin(t.n), acts), c, i, j))
            <==> t.shard[i] != t.shard[j] && Between(t.shard, i, j) <= 4096
  {
    hide CanRun, After, Between;
    if MayOvertake(t.shard, i, j) {
      var acts := OvertakerSwaps(t, i, j, c);
      var box := After(t, Begin(t.n), acts).boxes[c];
      assert box[0] == j && box[1] == i;
      assert Swapped(After(t, Begin(t.n), acts), c, i, j);
    } else {
      forall acts | CanRun(t, Begin(t.n), acts)
        ensures !Swapped(After(t, Begin(t.n), acts), c, i, j)
      {
        BeginOk(t);
        RunKeeps(t, Begin(t.n), acts);
        NotSwapped(t, After(t, Begin(t.n), acts), c, i, j);
      }
    }
  }

  lemma NotSwapped(t: Traffic, s: State, c: string, i: nat, j: nat)
    requires Ok(t, s) && i < j < |t.shard| && !MayOvertake(t.shard, i, j)
    ensures !Swapped(s, c, i, j)
  {
    hide InOrder, MayOvertake;
    if c in s.boxes {
      assert KeepsOrder(s.boxes[c], s.run.log, t.shard);
    }
  }

  // ---------- packets ----------

  /** A packet: its bytes, and the Call-ID that parsing finds, if it parses and has one. */
  datatype Packet = Packet(raw: Bytes, callID: Option<string>)

  ghost predicate Parsed(p: Packet)
  {
    MayFind(p.raw, p.callID)
  }

  function MailboxName(p: Packet): Option<string>
  {
    if p.callID.Some? then Some(Normalize(p.callID.value)) else None
  }

  function TrafficOf(packets: seq<Packet>, n: nat): (t: Traffic)
    requires n > 0
    ensures Fits(t) && t.n == n && |t.shard| == |packets|
    ensures forall i :: 0 <= i < |packets| ==> t.shard[i] == ShardOf(packets[i].raw, n) && t.name[i] == MailboxName(packets[i])
  {
    Traffic(seq(|packets|, i requires 0 <= i < |packets| => ShardOf(packets[i].raw, n)),
            seq(|packets|, i requires 0 <= i < |packets| => MailboxName(packets[i])), n)
  }

  /** So in real traffic: whether two packets for one mailbox can swap depends on the hashes of the texts after
      the first Call-ID names, their own and those of the packets between them. */
  lemma PacketsSwapIff(packets: seq<Packet>, n: nat, i: nat, j: nat, c: string)
    requires n > 0 && i < j < |packets| && MailboxName(packets[i]) == MailboxName(packets[j]) == Some(c)
    ensures var t := TrafficOf(packets, n);
            (exists acts :: CanRun(t, Begin(n), acts) && Swapped(After(t, Begin(n), acts), c, i, j))
            <==> ShardOf(packets[i].raw, n) != ShardOf(packets[j].raw, n) && Between(t.shard, i, j) <= 4096
  {
    hide ShardOf, CanRun, After, Between;
    SwapsIffMayOvertake(TrafficOf(packets, n), i, j, c);
  }

  /** Packets whose first header of that name is a Call-ID line with the same text never swap. */
  lemma SameLineKeepsOrder(packets: seq<Packet>, n: nat, acts: seq<Action>, i: nat, j: nat, c: string,
                           pre: Bytes, rest: Bytes, pre': Bytes, rest': Bytes, v: Bytes)
    requires n > 0 && i < j < |packets| && CanRun(TrafficOf(packets, n), Begin(n), acts)
    requires OneLine(v) && NoneBefore(pre, v, rest, 0) && NoneBefore(pre', v, rest', 0)
    requires packets[i].raw == WithLine(pre, v, rest) && packets[j].raw == WithLine(pre', v, rest')
    ensures !Swapped(After(TrafficOf(packets, n), Begin(n), acts), c, i, j)
  {
    hide ShardOf, CanRun, After, NoneBefore, WithLine;
    var t := TrafficOf(packets, n);
    SameLineSameShard(pre, rest, pre', rest', v, n);
    BeginOk(t);
    RunKeeps(t, Begin(n), acts);
    NotSwapped(t, After(t, Begin(n), acts), c, i, j);
  }

  function PacketWith(v: Bytes): Packet
  {
    Packet(MessageWith(v), Some(TrimSpace(TextOf(v))))
  }

  /** Every clean Call-ID can be spelled in two ways, plain and with a prefix, so that two packets of its call
      reach the mailbox in the wrong order. */
  lemma SpellingsSwap(v: Bytes) returns (acts: seq<Action>)
    requires CleanName(v)
    ensures var packets := [PacketWith([32] + v), PacketWith([32] + (PREFIX + v))];
            var t := TrafficOf(packets, 2);
            && Parsed(packets[0]) && Parsed(packets[1])
            && CanRun(t, Begin(2), acts)
            && var s, c := After(t, Begin(2), acts), MailboxOf([32] + v); c in s.boxes && s.boxes[c] == [1, 0]
  {
    hide CanRun, After, ShardOf, Normalize, TrimSpace, MayFind, MessageWith, TextOf;
    var a, b := [32] + v, [32] + (PREFIX + v);
    SpellingsSplit(v);
    OneHeader(a);
    OneHeader(b);
    var t := TrafficOf([PacketWith(a), PacketWith(b)], 2);
    NoneBetween(t.shard, 0);
    acts := OvertakerSwaps(t, 0, 1, MailboxOf(a));
  }

  /** The parsed Call-IDs need not even differ: a tab before the value of one is enough. */
  lemma SpacesSwap(v: Bytes) returns (acts: seq<Action>)
    requires OneLine(v)
    ensures var packets := [PacketWith(v), PacketWith([9] + v)];
            var t := TrafficOf(packets, 2);
            && Parsed(packets[0]) && Parsed(packets[1]) && packets[0].callID == packets[1].callID
            && CanRun(t, Begin(2), acts)
            && var s, c := After(t, Begin(2), acts), MailboxOf(v); c in s.boxes && s.boxes[c] == [1, 0]
  {
    hide CanRun, After, ShardOf, Normalize, TrimSpace, MayFind, MessageWith, TextOf;
    SpacesSplit(v);
    OneHeader(v);
    OneHeader([9] + v);
    var t := TrafficOf([PacketWith(v), PacketWith([9] + v)], 2);
    NoneBetween(t.shard, 0);
    acts := OvertakerSwaps(t, 0, 1, MailboxOf(v));
  }

  // ---------- whose packets a mailbox holds ----------

  /** Every packet in a mailbox has its name. */
  ghost predicate Own(t: Traffic, boxes: map<string, seq<nat>>)
  {
    forall c :: c in boxes ==> AllNamed(t.name, boxes[c], c)
  }

  ghost predicate AllNamed(name: seq<Option<string>>, box: seq<nat>, c: string)
  {
    forall x :: x in box ==> x < |name| && name[x] == Some(c)
  }

  lemma ActOwn(t: Traffic, s: State, a: Action)
    requires Sharded(t.shard, |s.run.lanes|) && CanDo(t, s, a) && Own(t, s.boxes)
    ensures Own(t, Act(t, s, a).boxes)
  {
    match a
    case Do(Split) =>
    case Do(Take(w)) =>
    case Do(Handle(w)) => StoreOwn(t, s, s.run.lanes[w].hand.value);
    case Read(c) =>
      assert s.boxes[c] == [s.boxes[c][0]] + s.boxes[c][1..];
      assert AllNamed(t.name, s.boxes[c], c);
    case Register(_) =>
    case Unregister(_) =>
  }

  lemma StoreOwn(t: Traffic, s: State, x: nat)
    requires Own(t, s.boxes)
    ensures Own(t, Store(s, t.name, x).boxes)
  {
    var target := Target(s.boxes, t.name, x);
    if target.Some? {
      assert AllNamed(t.name, s.boxes[target.value], target.value);
      assert AllNamed(t.name, s.boxes[target.value] + [x], target.value);
    }
  }

  lemma {:induction false} RunOwn(t: Traffic, s: State, acts: seq<Action>)
    requires Sharded(t.shard, |s.run.lanes|) && CanRun(t, s, acts) && Own(t, s.boxes)
    ensures Own(t, After(t, s, acts).boxes)
    decreases |acts|
  {
    hide Own, Act, CanDo;
    if acts != [] {
      ActOwn(t, s, acts[0]);
      ActQueues(t, s, acts[0]);
      RunOwn(t, Act(t, s, acts[0]), acts[1..]);
    }
  }

  /** In every run the mailbox of a call holds only packets whose Call-ID is that of the call, plain or after a prefix
      that ends in "///". */
  lemma MailboxHoldsItsCall(packets: seq<Packet>, n: nat, acts: seq<Action>, callID: string, x: nat)
    requires n > 0 && CanRun(TrafficOf(packets, n), Begin(n), acts) && PlainName(callID)
    requires var boxes := After(TrafficOf(packets, n), Begin(n), acts).boxes;
             Normalize(callID) in boxes && x in boxes[Normalize(callID)]
    ensures Normalize(callID) == callID
    ensures x < |packets| && packets[x].callID.Some? && Spells(TrimSpace(packets[x].callID.value), callID)
  {
    hide CanRun, After, Normalize, Spells, ShardOf, PlainName, TrimSpace;
    var t := TrafficOf(packets, n);
    RunOwn(t, Begin(n), acts);
    PlainNameIsItself(callID);
    assert AllNamed(t.name, After(t, Begin(n), acts).boxes[Normalize(callID)], Normalize(callID));
    assert t.name[x] == MailboxName(packets[x]);
    NameIs(packets[x].callID.value, callID);
  }

  // ---------- the registry ----------

  class Registry {
    const packets: seq<Packet>          // in order of arrival
    const n: nat                        // workers
    var split: nat
    var lanes: seq<Lane>                // a hand and a queue for each worker
    var mailboxes: map<string, seq<nat>>
    ghost var log: seq<nat>             // handled packets
    ghost var delivered: seq<nat>
    ghost var dropped: seq<nat>

    ghost function View(): State
      reads this
    {
      State(Run(split, lanes, log), mailboxes, delivered, dropped)
    }

    ghost predicate Valid()
      reads this
    {
      n > 0 && Ok(TrafficOf(packets, n), View())
    }

    /** Fewer than two workers means one. */
    constructor (packets: seq<Packet>, workers: nat)
      ensures Valid() && this.packets == packets && n == (if workers < 2 then 1 else workers) && View() == Begin(n)
    {
      this.packets := packets;
      n := if workers < 2 then 1 else workers;
      split, lanes := 0, seq(if workers < 2 then 1 else workers, _ => Lane(None, []));
      mailboxes, log, delivered, dropped := map[], [], [], [];
      new;
      BeginOk(TrafficOf(packets, n));
    }

    /** A new mailbox for a call; one that was there is replaced. */
    method RegisterCall(callID: string)
      requires Valid()
      modifies this`mailboxes
      ensures Valid() && View() == Act(TrafficOf(packets, n), old(View()), Register(Normalize(callID)))
      ensures PlainName(callID) ==> mailboxes == old(mailboxes)[callID := []]
    {
      hide Ok, Normalize, PlainName;
      if PlainName(callID) {
        PlainNameIsItself(callID);
      }
      OkQueues(TrafficOf(packets, n), View());
      ActKeeps(TrafficOf(packets, n), View(), Register(Normalize(callID)));
      mailboxes := mailboxes[Normalize(callID) := []];
    }

    method UnregisterCall(callID: string)
      requires Valid()
      modifies this`mailboxes
      ensures Valid() && View() == Act(TrafficOf(packets, n), old(View()), Unregister(Normalize(callID)))
      ensures PlainName(callID) ==> mailboxes == old(mailboxes) - {callID}
    {
      hide Ok, Normalize, PlainName;
      if PlainName(callID) {
        PlainNameIsItself(callID);
      }
      OkQueues(TrafficOf(packets, n), View());
      ActKeeps(TrafficOf(packets, n), View(), Unregister(Normalize(callID)));
      mailboxes := mailboxes - {Normalize(callID)};
    }

    /** The call reads the next packet of its mailbox. */
    method ReadNext(c: string) returns (x: nat)
      requires Valid() && c in mailboxes && mailboxes[c] != []
      modifies this`mailboxes
      ensures x == old(mailboxes)[c][0]
      ensures Valid() && View() == Act(TrafficOf(packets, n), old(View()), Read(c))
    {
      hide Ok;
      OkQueues(TrafficOf(packets, n), View());
      ActKeeps(TrafficOf(packets, n), View(), Read(c));
      x := mailboxes[c][0];
      mailboxes := mailboxes[c := mailboxes[c][1..]];
    }

    /** The splitter moves the next packet to the queue of its shard, or waits because that is full. */
    method SplitNext() returns (ok: bool)
      requires Valid() && split < |packets|
      modifies this`split, this`lanes
      ensures |lanes| == n && ok == (|old(lanes)[ShardOf(packets[old(split)].raw, n)].queue| < 4096)
      ensures Valid() && View() == if ok then Act(TrafficOf(packets, n), old(View()), Do(Split)) else old(View())
    {
      hide Ok;
      OkQueues(TrafficOf(packets, n), View());
      var w := CallIDShard(packets[split].raw, n);
      if |lanes[w].queue| >= SHARD_CAP {
        return false;
      }
      ActKeeps(TrafficOf(packets, n), View(), Do(Split));
      lanes := lanes[w := lanes[w].(queue := lanes[w].queue + [split])];
      split := split + 1;
      return true;
    }

    /** A worker takes the next packet of its queue. */
    method TakeNext(w: nat)
      requires Valid() && w < n && |lanes| == n && lanes[w].hand.None? && lanes[w].queue != []
      modifies this`lanes
      ensures Valid() && View() == Act(TrafficOf(packets, n), old(View()), Do(Take(w)))
    {
      hide Ok;
      ActKeeps(TrafficOf(packets, n), View(), Do(Take(w)));
      lanes := lanes[w := Lane(Some(lanes[w].queue[0]), lanes[w].queue[1..])];
    }

    /** A worker handles the packet it took: it enters the mailbox of its call if that exists and has room, and
        is dropped otherwise. */
    method HandleTaken(w: nat)
      requires Valid() && w < n && |lanes| == n && lanes[w].hand.Some?
      modifies this`lanes, this`mailboxes, this`log, this`delivered, this`dropped
      ensures Valid() && View() == Act(TrafficOf(packets, n), old(View()), Do(Handle(w)))
      ensures var x := old(lanes)[w].hand.value;
              && x < |packets|
              && forall c :: packets[x].callID.Some? && Spells(TrimSpace(packets[x].callID.value), c) ==>
                   if c in old(mailboxes) && |old(mailboxes)[c]| < 512
                   then mailboxes == old(mailboxes)[c := old(mailboxes)[c] + [x]]
                   else mailboxes == old(mailboxes) && dropped == old(dropped) + [x]
    {
      hide Ok, Normalize, Spells;
      ghost var t := TrafficOf(packets, n);
      OkHead(t, View(), w);
      ActKeeps(t, View(), Do(Handle(w)));
      var x := lanes[w].hand.value;
      lanes := lanes[w := lanes[w].(hand := None)];
      log := log + [x];
      var id := packets[x].callID;
      if id.Some? {
        var c := Normalize(id.value);
        assert forall d :: Spells(TrimSpace(id.value), d) ==> d == c by { OneName(id.value); }
        if c in mailboxes && |mailboxes[c]| < MAILBOX_CAP {
          mailboxes := mailboxes[c := mailboxes[c] + [x]];
          delivered := delivered + [x];
          return;
        }
      }
      dropped := dropped + [x];
    }
  }

  lemma OneName(callID: string)
    ensures forall c :: Spells(TrimSpace(callID), c) ==> c == Normalize(callID)
  {
    hide Spells, Normalize;
    forall c | Spells(TrimSpace(callID), c)
      ensures c == Normalize(callID)
    {
      NameIs(callID, c);
    }
  }

  lemma OkHead(t: Traffic, s: State, w: nat)
    requires Ok(t, s) && w < t.n && s.run.lanes[w].hand.Some?
    ensures s.run.lanes[w].hand.value < |t.shard|
  {
    HeldBack(s.run, t.shard, w);
  }
}
