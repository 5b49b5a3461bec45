/**
 Commands between calls. A command waits in the queue of its call and channel
 until a call takes it, from a given sender or from any, for its own call or,
 when no call is named, for whichever call has one.
 */
module CommandBroker {
  import opened Common

  datatype Message = Message(raw: string, from: string)

  type Queues = map<string, seq<Message>>

  const NUL: char := '\U{0000}'

  function Suffix(channel: string): string
  {
    [NUL] + channel
  }

  function Key(callID: string, channel: string): string
  {
    callID + Suffix(channel)
  }

  predicate EndsWith(s: string, tail: string)
  {
    |tail| <= |s| && s[|s| - |tail|..] == tail
  }

  /** A channel name without the separator tells the key's call and channel apart. */
  lemma KeyTells(callID: string, channel: string, other: string)
    requires NUL !in channel && NUL !in other
    ensures EndsWith(Key(callID, channel), Suffix(other)) <==> other == channel
  {
    var k := Key(callID, channel);
    assert k[|callID|] == NUL && k[|callID| + 1..] == channel;
    if EndsWith(k, Suffix(other)) {
      var p := |k| - |other| - 1;
      assert k[p..][0] == NUL && k[p..][1..] == other;
      assert other == k[p..][1..] == k[p + 1..] == channel;
    } else {
      assert k[|callID|..] == Suffix(channel);
    }
  }

  lemma KeyInjective(callID: string, channel: string, callID': string, channel': string)
    requires NUL !in channel && NUL !in channel'
    ensures Key(callID, channel) == Key(callID', channel') <==> callID == callID' && channel == channel'
  {
    if Key(callID, channel) == Key(callID', channel') {
      var k := Key(callID, channel);
      assert k[|callID'|..] == Suffix(channel');
      KeyTells(callID, channel, channel');
      assert k[..|callID|] == callID && k[..|callID'|] == callID';
    }
  }

  /** A separator inside a channel name lets two calls share a queue. */
  lemma KeyMayClash()
    ensures Key("a", ['b', NUL, 'c']) == Key(['a', NUL, 'b'], "c")
  {
  }

  // ---------- queues ----------

  predicate Wanted(m: Message, src: string)
  {
    src == "" || m.from == src
  }

  /** The position of the first command from the sender, or the length of the queue. */
  function FirstFrom(q: seq<Message>, src: string): (i: nat)
    ensures i <= |q|
    ensures i < |q| ==> src == "" || q[i].from == src
    ensures forall j :: 0 <= j < i ==> src != "" && q[j].from != src
  {
    if q == [] || Wanted(q[0], src) then 0 else 1 + FirstFrom(q[1..], src)
  }

  function QueueOf(queues: Queues, key: string): seq<Message>
  {
    if key in queues then queues[key] else []
  }

  predicate Has(queues: Queues, key: string, src: string)
  {
    FirstFrom(QueueOf(queues, key), src) < |QueueOf(queues, key)|
  }

  function Head(queues: Queues, key: string, src: string): Message
    requires Has(queues, key, src)
  {
    QueueOf(queues, key)[FirstFrom(QueueOf(queues, key), src)]
  }

  function Taken(queues: Queues, key: string, src: string): Queues
    requires Has(queues, key, src)
  {
    queues[key := Without(QueueOf(queues, key), FirstFrom(QueueOf(queues, key), src))]
  }

  /** Whether a search over all calls stops at a key: the key does not end in another channel's name, or is
      too short to tell, and a wanted command waits there. */
  predicate Candidate(queues: Queues, key: string, channel: string, src: string)
  {
    && key in queues
    && (EndsWith(key, Suffix(channel)) || |key| < |Suffix(channel)|)
    && Has(queues, key, src)
  }

  /** What a search over all calls answers; `Crash` is cutting more off the key than it has. */
  datatype Outcome = Nothing | Got(callID: string, msg: Message) | Crash

  function Found(queues: Queues, key: string, channel: string, src: string): Outcome
    requires Has(queues, key, src)
  {
    if |key| < |Suffix(channel)| then Crash
    else Got(key[..|key| - |Suffix(channel)|], Head(queues, key, src))
  }

  class Broker {
    var queues: Queues

    constructor ()
      ensures queues == map[]
    {
      queues := map[];
    }

    method Enqueue(callID: string, channel: string, msg: Message)
      modifies this
      ensures queues == old(queues)[Key(callID, channel) := QueueOf(old(queues), Key(callID, channel)) + [msg]]
    {
      var key := Key(callID, channel);
      var q := if key in queues then queues[key] else [];
      queues := queues[key := q + [msg]];
    }

    /** The first wanted command of one queue. */
    method Search(q: seq<Message>, src: string) returns (i: nat)
      ensures i == FirstFrom(q, src)
    {
      i := 0;
      while i < |q|
        invariant 0 <= i <= |q| && FirstFrom(q, src) >= i
      {
        if Wanted(q[i], src) {
          assert FirstFrom(q, src) == i;
          return;
        }
        i := i + 1;
      }
    }

    method Dequeue(callID: string, channel: string, src: string) returns (msg: Option<Message>)
      modifies this
      ensures msg.Some? <==> Has(old(queues), Key(callID, channel), src)
      ensures msg.None? ==> queues == old(queues)
      ensures msg.Some? ==>
                && msg.value == Head(old(queues), Key(callID, channel), src)
                && queues == Taken(old(queues), Key(callID, channel), src)
    {
      var key := Key(callID, channel);
      var q := if key in queues then queues[key] else [];
      var i := Search(q, src);
      if i == |q| {
        return None;
      }
      queues := queues[key := Without(q, i)];
      return Some(q[i]);
    }

    /** The keys are looked at in any order. */
    method DequeueAny(channel: string, src: string) returns (r: Outcome)
      modifies this
      ensures r.Nothing? ==> queues == old(queues) && forall key :: !Candidate(old(queues), key, channel, src)
      ensures !r.Nothing? ==>
                exists key :: Candidate(old(queues), key, channel, src)
                  && queues == Taken(old(queues), key, src) && r == Found(old(queues), key, channel, src)
    {
      var suffix := Suffix(channel);
      var keys := queues.Keys;
      while keys != {}
        invariant keys <= queues.Keys && queues == old(queues)
        invariant forall key :: key !in keys ==> !Candidate(queues, key, channel, src)
        decreases |keys|
      {
        var key :| key in keys;
        keys := keys - {key};
        if |key| >= |suffix| && key[|key| - |suffix|..] != suffix {
          continue;
        }
        var q := queues[key];
        var i := Search(q, src);
        if i < |q| {
          assert Candidate(queues, key, channel, src);
          r := Found(queues, key, channel, src);
          queues := queues[key := Without(q, i)];
          return;
        }
      }
      return Nothing;
    }
  }

  // ---------- every run ----------

  /** What was put in and what was handed out. */
  datatype Event = In(callID: string, channel: string, msg: Message) | Out(callID: string, channel: string, msg: Message)

  datatype State = State(queues: Queues, log: seq<Event>)

  /** `key` is where a search over all calls stops. */
  datatype Step =
    | Put(callID: string, channel: string, msg: Message)
    | Take(callID: string, channel: string, src: string)
    | TakeAny(channel: string, src: string, key: string)

  predicate Enabled(s: State, e: Step)
  {
    && NUL !in e.channel
    && (e.TakeAny? ==> Candidate(s.queues, e.key, e.channel, e.src) && |e.key| >= |Suffix(e.channel)|)
  }

  function Apply(s: State, e: Step): State
    requires Enabled(s, e)
  {
    match e
    case Put(c, ch, m) => State(s.queues[Key(c, ch) := QueueOf(s.queues, Key(c, ch)) + [m]], s.log + [In(c, ch, m)])
    case Take(c, ch, src) =>
      if !Has(s.queues, Key(c, ch), src) then s
      else State(Taken(s.queues, Key(c, ch), src), s.log + [Out(c, ch, Head(s.queues, Key(c, ch), src))])
    case TakeAny(ch, src, key) =>
      State(Taken(s.queues, key, src),
            s.log + [Out(Found(s.queues, key, ch, src).callID, ch, Head(s.queues, key, src))])
  }

  predicate Possible(s: State, es: seq<Step>)
    decreases es
  {
    es == [] || (Enabled(s, es[0]) && Possible(Apply(s, es[0]), es[1..]))
  }

  function Run(s: State, es: seq<Step>): State
    requires Possible(s, es)
    decreases es
  {
    if es == [] then s else Run(Apply(s, es[0]), es[1..])
  }

  /** The commands of one sender, in order. */
  function From(q: seq<Message>, from: string): seq<Message>
  {
    if q == [] then [] else From(q[..|q| - 1], from) + (if q[|q| - 1].from == from then [q[|q| - 1]] else [])
  }

  function Ins(log: seq<Event>, c: string, ch: string): seq<Message>
  {
    if log == [] then []
    else
      var e := log[|log| - 1];
      Ins(log[..|log| - 1], c, ch) + (if e.In? && e.callID == c && e.channel == ch then [e.msg] else [])
  }

  function Outs(log: seq<Event>, c: string, ch: string): seq<Message>
  {
    if log == [] then []
    else
      var e := log[|log| - 1];
      Outs(log[..|log| - 1], c, ch) + (if e.Out? && e.callID == c && e.channel == ch then [e.msg] else [])
  }

  /** Nothing is lost, copied or made up between what went in, what came out and what waits; and the commands
      of each sender come out in the order they went in, the waiting ones after those. */
  ghost predicate Fifo(i: seq<Message>, o: seq<Message>, q: seq<Message>)
  {
    && multiset(i) == multiset(o) + multiset(q)
    && forall f :: From(i, f) == From(o, f) + From(q, f)
  }

  ghost predicate InOrder(s: State, c: string, ch: string)
  {
    Fifo(Ins(s.log, c, ch), Outs(s.log, c, ch), QueueOf(s.queues, Key(c, ch)))
  }

  lemma {:induction false} FromConcat(a: seq<Message>, b: seq<Message>, f: string)
    ensures From(a + b, f) == From(a, f) + From(b, f)
    decreases |b|
  {
    if b == [] {
      assert a + b == a;
    } else {
      assert (a + b)[..|a + b| - 1] == a + b[..|b| - 1];
      FromConcat(a, b[..|b| - 1], f);
    }
  }

  lemma {:induction false} FromNone(q: seq<Message>, f: string)
    requires forall i :: 0 <= i < |q| ==> q[i].from != f
    ensures From(q, f) == []
  {
    if q != [] {
      FromNone(q[..|q| - 1], f);
    }
  }

  lemma FromMiddle(a: seq<Message>, m: Message, b: seq<Message>, f: string)
    requires m.from == f ==> forall i :: 0 <= i < |a| ==> a[i].from != f
    ensures From(a + ([m] + b), f) == From([m], f) + From(a + b, f)
  {
    hide From;
    FromConcat(a, [m] + b, f);
    FromConcat([m], b, f);
    FromConcat(a, b, f);
    if m.from == f {
      FromNone(a, f);
    } else {
      FromNone([m], f);
    }
  }

  lemma FirstOfSender(q: seq<Message>, src: string)
    requires FirstFrom(q, src) < |q|
    ensures forall j :: 0 <= j < FirstFrom(q, src) ==> q[j].from != q[FirstFrom(q, src)].from
  {
  }

  /** Taking the first wanted command takes the first of its sender, and no other sender's. */
  lemma FromTaken(q: seq<Message>, src: string, f: string)
    requires FirstFrom(q, src) < |q|
    ensures
      var i := FirstFrom(q, src);
      From(q, f) == From([q[i]], f) + From(Without(q, i), f)
  {
    hide From, FirstFrom;
    var i := FirstFrom(q, src);
    var a, m, b := q[..i], q[i], q[i + 1..];
    assert q == a + ([m] + b);
    FirstOfSender(q, src);
    FromMiddle(a, m, b, f);
  }

  lemma FifoIn(i: seq<Message>, o: seq<Message>, q: seq<Message>, m: Message)
    requires Fifo(i, o, q)
    ensures Fifo(i + [m], o, q + [m])
  {
    hide From;
    forall f
      ensures From(i + [m], f) == From(o, f) + From(q + [m], f)
    {
      FromConcat(i, [m], f);
      FromConcat(q, [m], f);
      assert From(o, f) + From(q, f) + From([m], f) == From(o, f) + (From(q, f) + From([m], f));
    }
  }

  lemma FifoOut(i: seq<Message>, o: seq<Message>, q: seq<Message>, src: string)
    requires Fifo(i, o, q) && FirstFrom(q, src) < |q|
    ensures Fifo(i, o + [q[FirstFrom(q, src)]], Without(q, FirstFrom(q, src)))
  {
    hide From, FirstFrom;
    var k := FirstFrom(q, src);
    var m, q' := q[k], Without(q, k);
    forall f
      ensures From(i, f) == From(o + [m], f) + From(q', f)
    {
      FromConcat(o, [m], f);
      FromTaken(q, src, f);
      assert From(o, f) + (From([m], f) + From(q', f)) == From(o, f) + From([m], f) + From(q', f);
    }
  }

  lemma OneMore(s: State, e: Event, c: string, ch: string)
    ensures Ins(s.log + [e], c, ch) ==
            if e.In? && e.callID == c && e.channel == ch then Ins(s.log, c, ch) + [e.msg] else Ins(s.log, c, ch)
    ensures Outs(s.log + [e], c, ch) ==
            if e.Out? && e.callID == c && e.channel == ch then Outs(s.log, c, ch) + [e.msg] else Outs(s.log, c, ch)
  {
    assert (s.log + [e])[..|s.log|] == s.log;
  }

  lemma PutKeeps(s: State, c: string, ch: string, m: Message, c': string, ch': string)
    requires NUL !in ch && NUL !in ch' && InOrder(s, c', ch')
    ensures InOrder(Apply(s, Put(c, ch, m)), c', ch')
  {
    hide Fifo, Key, Ins, Outs;
    KeyInjective(c, ch, c', ch');
    OneMore(s, In(c, ch, m), c', ch');
    if c == c' && ch == ch' {
      FifoIn(Ins(s.log, c, ch), Outs(s.log, c, ch), QueueOf(s.queues, Key(c, ch)), m);
    }
  }

  lemma OutKeeps(s: State, c: string, ch: string, src: string, c': string, ch': string)
    requires NUL !in ch && NUL !in ch' && InOrder(s, c', ch') && Has(s.queues, Key(c, ch), src)
    ensures
      InOrder(State(Taken(s.queues, Key(c, ch), src), s.log + [Out(c, ch, Head(s.queues, Key(c, ch), src))]), c', ch')
  {
    hide Fifo, Key, Ins, Outs, FirstFrom;
    KeyInjective(c, ch, c', ch');
    OneMore(s, Out(c, ch, Head(s.queues, Key(c, ch), src)), c', ch');
    if c == c' && ch == ch' {
      FifoOut(Ins(s.log, c, ch), Outs(s.log, c, ch), QueueOf(s.queues, Key(c, ch)), src);
    }
  }

  lemma StepKeeps(s: State, e: Step, c: string, ch: string)
    requires Enabled(s, e) && NUL !in ch && InOrder(s, c, ch)
    ensures InOrder(Apply(s, e), c, ch)
  {
    hide InOrder, Has, Head, Taken;
    match e
    case Put(c', ch', m) => PutKeeps(s, c', ch', m, c, ch);
    case Take(c', ch', src) =>
      if Has(s.queues, Key(c', ch'), src) {
        OutKeeps(s, c', ch', src, c, ch);
      }
    case TakeAny(ch', src, key) =>
      var c' := key[..|key| - |Suffix(ch')|];
      assert key == Key(c', ch');
      OutKeeps(s, c', ch', src, c, ch);
  }

  lemma {:induction false} RunKeeps(s: State, es: seq<Step>, c: string, ch: string)
    requires Possible(s, es) && NUL !in ch && InOrder(s, c, ch)
    ensures InOrder(Run(s, es), c, ch)
    decreases es
  {
    hide InOrder, Enabled, Apply;
    if es != [] {
      StepKeeps(s, es[0], c, ch);
      RunKeeps(Apply(s, es[0]), es[1..], c, ch);
    }
  }

  lemma EveryRunInOrder(es: seq<Step>, c: string, ch: string)
    requires Possible(State(map[], []), es) && NUL !in ch
    ensures InOrder(Run(State(map[], []), es), c, ch)
  {
    assert InOrder(State(map[], []), c, ch);
    RunKeeps(State(map[], []), es, c, ch);
  }

  lemma {:induction false} RunSnoc(s: State, es: seq<Step>, e: Step)
    requires Possible(s, es) && Enabled(Run(s, es), e)
    ensures Possible(s, es + [e]) && Run(s, es + [e]) == Apply(Run(s, es), e)
    decreases es
  {
    hide Enabled, Apply;
    if es == [] {
      assert es + [e] == [e] && [e][1..] == [];
    } else {
      assert (es + [e])[1..] == es[1..] + [e];
      RunSnoc(Apply(s, es[0]), es[1..], e);
    }
  }

  lemma {:induction false} Drains(s: State, es: seq<Step>, c: string, ch: string) returns (es': seq<Step>)
    requires Possible(s, es) && NUL !in ch
    ensures es <= es' && Possible(s, es') && QueueOf(Run(s, es').queues, Key(c, ch)) == []
    ensures Outs(Run(s, es').log, c, ch) == Outs(Run(s, es).log, c, ch) + QueueOf(Run(s, es).queues, Key(c, ch))
    decreases |QueueOf(Run(s, es).queues, Key(c, ch))|
  {
    hide Possible, Run, Key, Apply, Enabled, Outs, QueueOf;
    var s1 := Run(s, es);
    var q := QueueOf(s1.queues, Key(c, ch));
    if q == [] {
      return es;
    }
    TakeOldest(s1, c, ch);
    RunSnoc(s, es, Take(c, ch, ""));
    es' := Drains(s, es + [Take(c, ch, "")], c, ch);
    assert Outs(s1.log, c, ch) + [q[0]] + q[1..] == Outs(s1.log, c, ch) + q;
  }

  /** Taking from any sender hands out the oldest command. */
  lemma TakeOldest(s: State, c: string, ch: string)
    requires NUL !in ch && QueueOf(s.queues, Key(c, ch)) != []
    ensures var e, q := Take(c, ch, ""), QueueOf(s.queues, Key(c, ch));
            && Enabled(s, e) && QueueOf(Apply(s, e).queues, Key(c, ch)) == q[1..]
            && Outs(Apply(s, e).log, c, ch) == Outs(s.log, c, ch) + [q[0]]
  {
    hide Key, Outs;
    var q := QueueOf(s.queues, Key(c, ch));
    assert FirstFrom(q, "") == 0 && Without(q, 0) == q[1..];
    OneMore(s, Out(c, ch, q[0]), c, ch);
  }

  /** No command is lost: after any run, taking from any sender hands out what waits for a call and channel, the oldest
      first, and then as many commands were handed out as put in. */
  lemma EveryQueueDrains(es: seq<Step>, c: string, ch: string) returns (es': seq<Step>)
    requires Possible(State(map[], []), es) && NUL !in ch
    ensures es <= es' && Possible(State(map[], []), es')
    ensures var s, s' := Run(State(map[], []), es), Run(State(map[], []), es');
            && Outs(s'.log, c, ch) == Outs(s.log, c, ch) + QueueOf(s.queues, Key(c, ch))
            && multiset(Outs(s'.log, c, ch)) == multiset(Ins(s'.log, c, ch))
  {
    hide Possible, Run, Outs, Ins;
    es' := Drains(State(map[], []), es, c, ch);
    EveryRunInOrder(es', c, ch);
  }

  // ---------- the search over all calls ----------

  /** Some command was put in for the call and channel. */
  predicate WasPut(log: seq<Event>, c: string, ch: string)
  {
    exists i :: 0 <= i < |log| && log[i].In? && log[i].callID == c && log[i].channel == ch
  }

  /** The key was made for a call and a channel. */
  ghost predicate Made(log: seq<Event>, key: string)
  {
    exists c, ch :: WasPut(log, c, ch) && NUL !in ch && key == Key(c, ch)
  }

  ghost predicate AllMade(s: State)
  {
    forall key :: key in s.queues ==> Made(s.log, key)
  }

  lemma StillMade(log: seq<Event>, e: Event, key: string)
    requires Made(log, key)
    ensures Made(log + [e], key)
  {
    var c, ch :| WasPut(log, c, ch) && NUL !in ch && key == Key(c, ch);
    var i :| 0 <= i < |log| && log[i].In? && log[i].callID == c && log[i].channel == ch;
    assert (log + [e])[i] == log[i];
    assert WasPut(log + [e], c, ch);
  }

  lemma StepMakes(s: State, e: Step)
    requires Enabled(s, e) && AllMade(s)
    ensures AllMade(Apply(s, e))
  {
    hide Key, Made;
    var s' := Apply(s, e);
    forall key | key in s'.queues
      ensures Made(s'.log, key)
    {
      if |s'.log| > |s.log| {
        var ev := s'.log[|s.log|];
        assert s'.log == s.log + [ev];
        if key in s.queues {
          StillMade(s.log, ev, key);
        } else {
          JustMade(s.log, ev);
        }
      }
    }
  }

  lemma JustMade(log: seq<Event>, e: Event)
    requires e.In? && NUL !in e.channel
    ensures Made(log + [e], Key(e.callID, e.channel))
  {
    assert (log + [e])[|log|] == e;
    assert WasPut(log + [e], e.callID, e.channel);
  }

  lemma {:induction false} RunMakes(s: State, es: seq<Step>)
    requires Possible(s, es) && AllMade(s)
    ensures AllMade(Run(s, es))
    decreases es
  {
    hide AllMade, Enabled, Apply;
    if es != [] {
      StepMakes(s, es[0]);
      RunMakes(Apply(s, es[0]), es[1..]);
    }
  }

  /** A search over all calls that hands out a command names a call for which one was put on this very
      channel; and it can crash if and only if a wanted command waits for a call and channel whose names
      together are shorter than the channel searched for. */
  lemma SearchStops(es: seq<Step>, channel: string, src: string)
    requires Possible(State(map[], []), es) && NUL !in channel
    ensures
      var s := Run(State(map[], []), es);
      forall key :: Candidate(s.queues, key, channel, src) && Found(s.queues, key, channel, src).Got? ==>
                      WasPut(s.log, Found(s.queues, key, channel, src).callID, channel)
    ensures
      var s := Run(State(map[], []), es);
      (exists key :: Candidate(s.queues, key, channel, src) && Found(s.queues, key, channel, src).Crash?) <==>
      (exists c, ch :: WasPut(s.log, c, ch) && |c| + |ch| < |channel| && Has(s.queues, Key(c, ch), src))
  {
    hide Possible, Run, WasPut, FirstFrom;
    RunMakes(State(map[], []), es);
    var s := Run(State(map[], []), es);
    forall key | Candidate(s.queues, key, channel, src) && Found(s.queues, key, channel, src).Got?
      ensures WasPut(s.log, Found(s.queues, key, channel, src).callID, channel)
    {
      var c, ch :| WasPut(s.log, c, ch) && NUL !in ch && key == Key(c, ch);
      KeyTells(c, ch, channel);
      assert key[..|c|] == c;
    }
    if c, ch :| WasPut(s.log, c, ch) && |c| + |ch| < |channel| && Has(s.queues, Key(c, ch), src) {
      assert Candidate(s.queues, Key(c, ch), channel, src);
      assert Found(s.queues, Key(c, ch), channel, src).Crash?;
    }
    if key :| Candidate(s.queues, key, channel, src) && Found(s.queues, key, channel, src).Crash? {
      var c, ch :| WasPut(s.log, c, ch) && NUL !in ch && key == Key(c, ch);
      assert |c| + |ch| < |channel| && Has(s.queues, Key(c, ch), src);
    }
  }

  /** A search for the empty channel, as all of the program's are, never crashes. */
  lemma EmptyChannelNeverCrashes(es: seq<Step>, src: string, key: string)
    requires Possible(State(map[], []), es) && Candidate(Run(State(map[], []), es).queues, key, "", src)
    ensures !Found(Run(State(map[], []), es).queues, key, "", src).Crash?
  {
    hide Possible, Run;
    SearchStops(es, "", src);
  }

  /** Any call whose name is shorter than some channel makes a search for that channel crash, as soon as one
      command waits for it. */
  lemma ShortNameCrashes(c: string, m: Message, channel: string)
    requires NUL !in channel && |c| < |channel|
    ensures var es, key := [Put(c, "", m)], Key(c, "");
            && Possible(State(map[], []), es)
            && var s := Run(State(map[], []), es);
               Candidate(s.queues, key, channel, "") && Found(s.queues, key, channel, "").Crash?
  {
    var es, s0, key := [Put(c, "", m)], State(map[], []), Key(c, "");
    var s := Apply(s0, es[0]);
    assert es[1..] == [] && Possible(s, es[1..]) && Run(s0, es) == s;
    assert QueueOf(s.queues, key) == [m];
    assert FirstFrom([m], "") == 0;
  }
}
