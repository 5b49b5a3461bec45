/**
 Incoming packets are split over worker queues by their shard, and each worker
 takes a packet from its queue and then handles it. A queue holds at most 4096
 packets, and the splitter waits while the one it needs is full. Splitter and
 workers interleave in any way.
 */
module Dispatch {
  import opened Common

  // ---------- splitter and workers ----------

  const SHARD_CAP := 4096

  /** A worker: the packet it has taken and not handled yet, and those that wait for it. */
  datatype Lane = Lane(hand: Option<nat>, queue: seq<nat>)

  /** The run so far: how many packets were split, the workers, and the packets handled, by arrival index. */
  datatype Run = Run(split: nat, lanes: seq<Lane>, log: seq<nat>)

  datatype Step = Split | Take(w: nat) | Handle(w: nat)

  /** The packets at a worker, the oldest first. */
  function Content(l: Lane): seq<nat>
  {
    (if l.hand.Some? then [l.hand.value] else []) + l.queue
  }

  /** `shard[i]` is the shard of the i-th packet. */
  predicate Sharded(shard: seq<nat>, n: nat)
  {
    forall i :: 0 <= i < |shard| ==> shard[i] < n
  }

  predicate Enabled(r: Run, shard: seq<nat>, e: Step)
    requires Sharded(shard, |r.lanes|)
  {
    match e
    case Split => r.split < |shard| && |r.lanes[shard[r.split]].queue| < SHARD_CAP
    case Take(w) => w < |r.lanes| && r.lanes[w].hand.None? && r.lanes[w].queue != []
    case Handle(w) => w < |r.lanes| && r.lanes[w].hand.Some?
  }

  function Apply(r: Run, shard: seq<nat>, e: Step): Run
    requires Sharded(shard, |r.lanes|) && Enabled(r, shard, e)
  {
    match e
    case Split =>
      var w := shard[r.split];
      var l := r.lanes[w];
      r.(split := r.split + 1, lanes := r.lanes[w := l.(queue := l.queue + [r.split])])
    case Take(w) =>
      var l := r.lanes[w];
      r.(lanes := r.lanes[w := Lane(Some(l.queue[0]), l.queue[1..])])
    case Handle(w) =>
      var l := r.lanes[w];
      r.(lanes := r.lanes[w := l.(hand := None)], log := r.log + [l.hand.value])
  }

  predicate Possible(r: Run, shard: seq<nat>, es: seq<Step>)
    requires Sharded(shard, |r.lanes|)
    decreases |es|
  {
    es == [] || (Enabled(r, shard, es[0]) && Possible(Apply(r, shard, es[0]), shard, es[1..]))
  }

  function RunAll(r: Run, shard: seq<nat>, es: seq<Step>): (r': Run)
    requires Sharded(shard, |r.lanes|) && Possible(r, shard, es)
    ensures |r'.lanes| == |r.lanes|
    decreases |es|
  {
    if es == [] then r else RunAll(Apply(r, shard, es[0]), shard, es[1..])
  }

  function Start(n: nat): Run
  {
    Run(0, seq(n, _ => Lane(None, [])), [])
  }

  /** The packets before k of shard w, in order of arrival. */
  function Arrived(shard: seq<nat>, k: nat, w: nat): seq<nat>
    requires k <= |shard|
  {
    if k == 0 then [] else Arrived(shard, k - 1, w) + (if shard[k - 1] == w then [k - 1] else [])
  }

  /** The handled packets of shard w, in the order they were handled. */
  function Handled(shard: seq<nat>, log: seq<nat>, w: nat): seq<nat>
  {
    if log == [] then []
    else
      var m := |log| - 1;
      Handled(shard, log[..m], w) + (if log[m] < |shard| && shard[log[m]] == w then [log[m]] else [])
  }

  /** For every shard, the packets handled and then those at its worker are the packets that arrived, in order. */
  ghost predicate InOrder(r: Run, shard: seq<nat>)
  {
    && Sharded(shard, |r.lanes|) && r.split <= |shard|
    && (forall j :: 0 <= j < |r.log| ==> r.log[j] < r.split)
    && (forall w :: 0 <= w < |r.lanes| ==>
          && Handled(shard, r.log, w) + Content(r.lanes[w]) == Arrived(shard, r.split, w)
          && |r.lanes[w].queue| <= SHARD_CAP)
  }

  predicate OfShard(shard: seq<nat>, k: nat, w: nat, x: nat)
    requires k <= |shard|
  {
    x < k && shard[x] == w
  }

  /** The packets before k of shard w, rising. */
  ghost predicate Lists(shard: seq<nat>, k: nat, w: nat, a: seq<nat>)
    requires k <= |shard|
  {
    && (forall j :: 0 <= j < |a| ==> OfShard(shard, k, w, a[j]))
    && (forall i, j :: 0 <= i < j < |a| ==> a[i] < a[j])
    && (forall x: nat :: OfShard(shard, k, w, x) ==> x in a)
  }

  lemma ListsNext(shard: seq<nat>, k: nat, w: nat, b: seq<nat>)
    requires 0 < k <= |shard| && Lists(shard, k - 1, w, b)
    ensures Lists(shard, k, w, if shard[k - 1] == w then b + [k - 1] else b)
  {
    var a := if shard[k - 1] == w then b + [k - 1] else b;
    forall j | 0 <= j < |a|
      ensures OfShard(shard, k, w, a[j])
    {
      if j < |b| {
        assert a[j] == b[j] && OfShard(shard, k - 1, w, b[j]);
      }
    }
    forall x: nat | OfShard(shard, k, w, x)
      ensures x in a
    {
      if x < k - 1 {
        assert OfShard(shard, k - 1, w, x);
      }
    }
  }

  lemma {:induction false} ArrivedFacts(shard: seq<nat>, k: nat, w: nat)
    requires k <= |shard|
    ensures Lists(shard, k, w, Arrived(shard, k, w))
  {
    if k > 0 {
      ArrivedFacts(shard, k - 1, w);
      ListsNext(shard, k, w, Arrived(shard, k - 1, w));
      assert Arrived(shard, k - 1, w) + [] == Arrived(shard, k - 1, w);
    }
  }

  lemma HandledOne(shard: seq<nat>, log: seq<nat>, x: nat, w: nat)
    ensures Handled(shard, log + [x], w) == Handled(shard, log, w) + (if x < |shard| && shard[x] == w then [x] else [])
  {
    assert (log + [x])[..|log|] == log;
  }

  /** A packet at a worker is of its shard. */
  lemma HeadFacts(r: Run, shard: seq<nat>, w: nat)
    requires InOrder(r, shard) && w < |r.lanes| && Content(r.lanes[w]) != []
    ensures var x := Content(r.lanes[w])[0]; x < r.split <= |shard| && shard[x] == w
  {
    ArrivedFacts(shard, r.split, w);
    var a, k := Arrived(shard, r.split, w), |Handled(shard, r.log, w)|;
    assert a == Handled(shard, r.log, w) + Content(r.lanes[w]);
    assert a[k] == Content(r.lanes[w])[0];
    assert OfShard(shard, r.split, w, a[k]);
  }

  lemma SplitInOrder(r: Run, shard: seq<nat>)
    requires InOrder(r, shard) && Enabled(r, shard, Split)
    ensures InOrder(Apply(r, shard, Split), shard)
  {
    hide Handled;
    var r' := Apply(r, shard, Split);
    forall w | 0 <= w < |r.lanes|
      ensures Handled(shard, r'.log, w) + Content(r'.lanes[w]) == Arrived(shard, r'.split, w)
    {
      assert Handled(shard, r.log, w) + Content(r.lanes[w]) == Arrived(shard, r.split, w);
      if w == shard[r.split] {
        assert Content(r'.lanes[w]) == Content(r.lanes[w]) + [r.split];
      }
    }
  }

  lemma TakeInOrder(r: Run, shard: seq<nat>, w: nat)
    requires InOrder(r, shard) && Enabled(r, shard, Take(w))
    ensures InOrder(Apply(r, shard, Take(w)), shard)
  {
    hide Handled, Arrived;
    var l := r.lanes[w];
    assert Content(Lane(Some(l.queue[0]), l.queue[1..])) == Content(l);
  }

  lemma HandleInOrder(r: Run, shard: seq<nat>, w: nat)
    requires InOrder(r, shard) && Enabled(r, shard, Handle(w))
    ensures InOrder(Apply(r, shard, Handle(w)), shard)
  {
    hide Handled, Arrived;
    var r', x := Apply(r, shard, Handle(w)), r.lanes[w].hand.value;
    assert Content(r.lanes[w])[0] == x;
    HeadFacts(r, shard, w);
    forall v | 0 <= v < |r.lanes|
      ensures Handled(shard, r'.log, v) + Content(r'.lanes[v]) == Arrived(shard, r'.split, v)
    {
      HandledOne(shard, r.log, x, v);
      assert Handled(shard, r.log, v) + Content(r.lanes[v]) == Arrived(shard, r.split, v);
      if v == w {
        assert Content(r.lanes[v]) == [x] + r.lanes[v].queue && Content(r'.lanes[v]) == r.lanes[v].queue;
      }
    }
  }

  lemma StepInOrder(r: Run, shard: seq<nat>, e: Step)
    requires InOrder(r, shard) && Enabled(r, shard, e)
    ensures InOrder(Apply(r, shard, e), shard)
  {
    hide InOrder, Apply;
    InOrderFacts(r, shard);
    match e
    case Split => SplitInOrder(r, shard);
    case Take(w) => TakeInOrder(r, shard, w);
    case Handle(w) => HandleInOrder(r, shard, w);
  }

  lemma {:induction false} RunInOrder(r: Run, shard: seq<nat>, es: seq<Step>)
    requires Sharded(shard, |r.lanes|) && InOrder(r, shard) && Possible(r, shard, es)
    ensures InOrder(RunAll(r, shard, es), shard)
    decreases |es|
  {
    hide InOrder;
    if es != [] {
      StepInOrder(r, shard, es[0]);
      RunInOrder(Apply(r, shard, es[0]), shard, es[1..]);
    }
  }

  lemma StartInOrder(shard: seq<nat>, n: nat)
    requires Sharded(shard, n)
    ensures InOrder(Start(n), shard)
  {
  }

  ghost predicate Increasing(s: seq<nat>)
  {
    forall i, j :: 0 <= i < j < |s| ==> s[i] < s[j]
  }

  /** Every handled packet of the shard is in the shard's list. */
  lemma {:induction false} HandledHas(shard: seq<nat>, log: seq<nat>, w: nat, i: nat)
    requires i < |log| && log[i] < |shard| && shard[log[i]] == w
    ensures log[i] in Handled(shard, log, w)
    decreases |log|
  {
    if i < |log| - 1 {
      HandledHas(shard, log[..|log| - 1], w, i);
    }
  }

  lemma {:induction false} HandledOrder(shard: seq<nat>, log: seq<nat>, w: nat, i: nat, j: nat)
    requires Increasing(Handled(shard, log, w)) && i < j < |log|
    requires log[i] < |shard| && log[j] < |shard| && shard[log[i]] == shard[log[j]] == w
    ensures log[i] < log[j]
    decreases |log|
  {
    var m := |log| - 1;
    var h, h' := Handled(shard, log, w), Handled(shard, log[..m], w);
    assert h' <= h;
    if j < m {
      HandledOrder(shard, log[..m], w, i, j);
    } else {
      HandledHas(shard, log[..m], w, i);
      var k :| 0 <= k < |h'| && h'[k] == log[i];
      assert h[k] == log[i] && h[|h| - 1] == log[m];
    }
  }

  /** For every interleaving, packets of one shard are handled in the order they arrived. */
  lemma SameShardInOrder(shard: seq<nat>, n: nat, es: seq<Step>, i: nat, j: nat)
    requires Sharded(shard, n) && Possible(Start(n), shard, es)
    requires var log := RunAll(Start(n), shard, es).log;
             i < j < |log| && log[i] < |shard| && log[j] < |shard| && shard[log[i]] == shard[log[j]]
    ensures var log := RunAll(Start(n), shard, es).log; log[i] < log[j]
  {
    hide RunAll, Possible, Handled, Arrived;
    StartInOrder(shard, n);
    RunInOrder(Start(n), shard, es);
    var r := RunAll(Start(n), shard, es);
    var w := shard[r.log[i]];
    ArrivedFacts(shard, r.split, w);
    assert Handled(shard, r.log, w) <= Arrived(shard, r.split, w);
    HandledOrder(shard, r.log, w, i, j);
  }

  lemma {:induction false} HandledCount(shard: seq<nat>, log: seq<nat>, w: nat, x: nat)
    requires x < |shard| && shard[x] == w
    ensures multiset(Handled(shard, log, w))[x] == multiset(log)[x]
    decreases |log|
  {
    if log != [] {
      var l, y := log[..|log| - 1], log[|log| - 1];
      HandledCount(shard, l, w, x);
      HandledOne(shard, l, y, w);
      OneMore(l, y, x);
      OneMore(Handled(shard, l, w), y, x);
      assert log == l + [y];
    }
  }

  lemma OneMore(s: seq<nat>, y: nat, x: nat)
    ensures multiset(s + [y])[x] == multiset(s)[x] + (if x == y then 1 else 0)
  {
  }

  lemma {:induction false} IncreasingOnce(s: seq<nat>, x: nat)
    requires Increasing(s)
    ensures multiset(s)[x] == if x in s then 1 else 0
  {
    if s != [] {
      var m := |s| - 1;
      IncreasingOnce(s[..m], x);
      OneMore(s[..m], s[m], x);
      assert s == s[..m] + [s[m]];
    }
  }

  /** At any moment a packet that was split is at the worker of its shard or handled, once; one that was not
      split is in neither place. */
  lemma EachInOnePlace(shard: seq<nat>, n: nat, es: seq<Step>, x: nat)
    requires Sharded(shard, n) && Possible(Start(n), shard, es) && x < |shard|
    ensures var r := RunAll(Start(n), shard, es);
            multiset(r.log)[x] + multiset(Content(r.lanes[shard[x]]))[x] == (if x < r.split then 1 else 0)
  {
    hide RunAll, Possible, Handled, Arrived;
    StartInOrder(shard, n);
    RunInOrder(Start(n), shard, es);
    var r, w := RunAll(Start(n), shard, es), shard[x];
    ArrivedFacts(shard, r.split, w);
    HandledCount(shard, r.log, w, x);
    IncreasingOnce(Arrived(shard, r.split, w), x);
    assert multiset(Handled(shard, r.log, w) + Content(r.lanes[w])) == multiset(Arrived(shard, r.split, w));
  }

  lemma {:induction false} RunSnoc(r: Run, shard: seq<nat>, es: seq<Step>, e: Step)
    requires Sharded(shard, |r.lanes|) && Possible(r, shard, es) && Enabled(RunAll(r, shard, es), shard, e)
    ensures Possible(r, shard, es + [e]) && RunAll(r, shard, es + [e]) == Apply(RunAll(r, shard, es), shard, e)
    decreases |es|
  {
    if es == [] {
      assert es + [e] == [e];
    } else {
      assert (es + [e])[1..] == es[1..] + [e];
      RunSnoc(Apply(r, shard, es[0]), shard, es[1..], e);
    }
  }

  // ---------- who can overtake whom ----------

  /** How many packets of i's shard arrive between i and k. */
  function Between(shard: seq<nat>, i: nat, k: nat): nat
    requires i < |shard| && k <= |shard|
    decreases k
  {
    if k <= i + 1 then 0 else Between(shard, i, k - 1) + (if shard[k - 1] == shard[i] then 1 else 0)
  }

  /** Whether the later packet j can be handled before packet i: they have different workers, and the packets
      that must be split between them fit the queue while i's worker holds i. */
  predicate MayOvertake(shard: seq<nat>, i: nat, j: nat)
    requires i < j < |shard|
  {
    shard[i] != shard[j] && Between(shard, i, j) <= SHARD_CAP
  }

  lemma {:induction false} BetweenGrows(shard: seq<nat>, i: nat, k: nat, m: nat)
    requires i < |shard| && k <= m <= |shard|
    ensures Between(shard, i, k) <= Between(shard, i, m)
    decreases m
  {
    if k < m {
      BetweenGrows(shard, i, k, m - 1);
    }
  }

  lemma {:induction false} ArrivedSince(shard: seq<nat>, i: nat, k: nat)
    requires i < k <= |shard|
    ensures |Arrived(shard, k, shard[i])| == |Arrived(shard, i + 1, shard[i])| + Between(shard, i, k)
    ensures Arrived(shard, i + 1, shard[i]) <= Arrived(shard, k, shard[i])
    decreases k
  {
    if k > i + 1 {
      ArrivedSince(shard, i, k - 1);
    }
  }

  /** While a worker holds a packet, exactly the later packets of its shard that were split wait for it. */
  lemma HeldBack(r: Run, shard: seq<nat>, w: nat)
    requires InOrder(r, shard) && w < |r.lanes| && r.lanes[w].hand.Some?
    ensures var x := r.lanes[w].hand.value; x < r.split <= |shard| && Between(shard, x, r.split) == |r.lanes[w].queue|
  {
    hide Arrived, Handled, Between;
    var x, h := r.lanes[w].hand.value, Handled(shard, r.log, w);
    assert Content(r.lanes[w]) == [x] + r.lanes[w].queue;
    HeadFacts(r, shard, w);
    var a, b := Arrived(shard, r.split, w), Arrived(shard, x + 1, w);
    assert h + ([x] + r.lanes[w].queue) == a && a[|h|] == x;
    ArrivedFacts(shard, r.split, w);
    ArrivedSince(shard, x, r.split);
    LastArrived(shard, x);
    assert a[|b| - 1] == b[|b| - 1] == x;
    assert |b| - 1 == |h|;
  }

  lemma LastArrived(shard: seq<nat>, x: nat)
    requires x < |shard|
    ensures var b := Arrived(shard, x + 1, shard[x]); b != [] && b[|b| - 1] == x
  {
  }

  /** A packet in a worker's hands was overtaken only by packets that may overtake it. */
  lemma Overtaken(r: Run, shard: seq<nat>, w: nat, y: nat)
    requires InOrder(r, shard) && w < |r.lanes| && r.lanes[w].hand.Some? && y in r.log && y < |shard|
    ensures var x := r.lanes[w].hand.value; x < |shard| && (y < x || (x < y && MayOvertake(shard, x, y)))
  {
    hide Between, Arrived;
    var x := r.lanes[w].hand.value;
    HeldBack(r, shard, w);
    assert Content(r.lanes[w])[0] == x;
    HeadFacts(r, shard, w);
    Latest(r, shard, w);
    if x <= y {
      BetweenGrows(shard, x, y, r.split);
    }
  }

  /** The packet in a worker's hands arrived after every handled packet of its shard. */
  lemma Latest(r: Run, shard: seq<nat>, w: nat)
    requires InOrder(r, shard) && w < |r.lanes| && r.lanes[w].hand.Some?
    ensures forall y :: y in r.log && y < |shard| && shard[y] == w ==> y < r.lanes[w].hand.value
  {
    hide Arrived;
    var h, x := Handled(shard, r.log, w), r.lanes[w].hand.value;
    var a := Arrived(shard, r.split, w);
    ArrivedFacts(shard, r.split, w);
    assert h + ([x] + r.lanes[w].queue) == a && a[|h|] == x;
    forall y | y in r.log && y < |shard| && shard[y] == w
      ensures y < x
    {
      var i :| 0 <= i < |r.log| && r.log[i] == y;
      HandledHas(shard, r.log, w, i);
      var j :| 0 <= j < |h| && h[j] == y;
      assert a[j] == y;
    }
  }

  /** Handled packets, out of the order they arrived only where one may overtake the other. */
  ghost predicate KeepsOrder(s: seq<nat>, log: seq<nat>, shard: seq<nat>)
  {
    && (forall i :: 0 <= i < |s| ==> s[i] in log && s[i] < |shard|)
    && (forall i, j :: 0 <= i < j < |s| ==> s[i] < s[j] || (s[j] < s[i] && MayOvertake(shard, s[j], s[i])))
  }

  lemma OrderGrows(s: seq<nat>, log: seq<nat>, shard: seq<nat>, x: nat)
    requires KeepsOrder(s, log, shard) && x < |shard|
    requires forall y :: y in log && y < |shard| ==> y < x || (x < y && MayOvertake(shard, x, y))
    ensures KeepsOrder(s, log + [x], shard) && KeepsOrder(s + [x], log + [x], shard)
  {
    hide MayOvertake;
  }

  lemma InOrderFacts(r: Run, shard: seq<nat>)
    requires InOrder(r, shard)
    ensures Sharded(shard, |r.lanes|)
  {
  }

  // ---------- a run that overtakes ----------

  /** No worker has anything, but those that `busy` names. */
  ghost predicate Idle(r: Run, busy: set<nat>)
  {
    forall w :: 0 <= w < |r.lanes| && w !in busy ==> r.lanes[w] == Lane(None, [])
  }

  /** The next packet goes to an idle worker, which handles it at once. */
  lemma PassOne(shard: seq<nat>, n: nat, es: seq<Step>) returns (es': seq<Step>)
    requires Sharded(shard, n) && Possible(Start(n), shard, es)
    requires var r := RunAll(Start(n), shard, es); r.split < |shard| && r.lanes[shard[r.split]] == Lane(None, [])
    ensures Possible(Start(n), shard, es')
    ensures var r, r' := RunAll(Start(n), shard, es), RunAll(Start(n), shard, es');
            r'.lanes == r.lanes && r'.split == r.split + 1
  {
    hide Possible, RunAll;
    var r := RunAll(Start(n), shard, es);
    var w := shard[r.split];
    RunSnoc(Start(n), shard, es, Split);
    RunSnoc(Start(n), shard, es + [Split], Take(w));
    RunSnoc(Start(n), shard, es + [Split] + [Take(w)], Handle(w));
    es' := es + [Split] + [Take(w)] + [Handle(w)];
    var r1 := Apply(r, shard, Split);
    assert r1.lanes[w] == Lane(None, [r.split]);
    var r2 := Apply(r1, shard, Take(w));
    assert r2.lanes[w] == Lane(Some(r.split), []);
    assert RunAll(Start(n), shard, es').lanes == r.lanes;
  }

  /** The next packet goes to an idle worker, which takes it. */
  lemma HoldOne(shard: seq<nat>, n: nat, es: seq<Step>) returns (es': seq<Step>)
    requires Sharded(shard, n) && Possible(Start(n), shard, es)
    requires var r := RunAll(Start(n), shard, es); r.split < |shard| && r.lanes[shard[r.split]] == Lane(None, [])
    ensures Possible(Start(n), shard, es')
    ensures var r, r' := RunAll(Start(n), shard, es), RunAll(Start(n), shard, es');
            r'.lanes == r.lanes[shard[r.split] := Lane(Some(r.split), [])] && r'.split == r.split + 1
  {
    hide Possible, RunAll;
    var r := RunAll(Start(n), shard, es);
    var w := shard[r.split];
    RunSnoc(Start(n), shard, es, Split);
    RunSnoc(Start(n), shard, es + [Split], Take(w));
    es' := es + [Split] + [Take(w)];
    var r1 := Apply(r, shard, Split);
    assert r1.lanes[w] == Lane(None, [r.split]);
    assert Apply(r1, shard, Take(w)).lanes[w] == Lane(Some(r.split), []);
    assert RunAll(Start(n), shard, es').lanes == r.lanes[w := Lane(Some(r.split), [])];
  }

  /** Every packet before i is handled on its own. */
  lemma PassAll(shard: seq<nat>, n: nat, i: nat) returns (es: seq<Step>)
    requires Sharded(shard, n) && i < |shard|
    ensures Possible(Start(n), shard, es)
    ensures var r := RunAll(Start(n), shard, es); r.split == i && Idle(r, {})
  {
    hide Possible, RunAll;
    es := [];
    StartRuns(shard, n);
    var k := 0;
    while k < i
      invariant 0 <= k <= i && Possible(Start(n), shard, es)
      invariant var r := RunAll(Start(n), shard, es); r.split == k && Idle(r, {})
    {
      es := PassOne(shard, n, es);
      k := k + 1;
    }
  }

  lemma StartRuns(shard: seq<nat>, n: nat)
    requires Sharded(shard, n)
    ensures Possible(Start(n), shard, []) && RunAll(Start(n), shard, []) == Start(n)
  {
  }

  /** One more packet while a worker holds i: it waits behind i, or its own worker handles it. */
  lemma PassOrWait(shard: seq<nat>, n: nat, es: seq<Step>, i: nat) returns (es': seq<Step>)
    requires Sharded(shard, n) && i < |shard| && Possible(Start(n), shard, es)
    requires var r := RunAll(Start(n), shard, es);
             && i < r.split < |shard| && Idle(r, {shard[i]}) && r.lanes[shard[i]].hand == Some(i)
             && |r.lanes[shard[i]].queue| == Between(shard, i, r.split) && Between(shard, i, r.split + 1) <= SHARD_CAP
    ensures Possible(Start(n), shard, es')
    ensures var r, r' := RunAll(Start(n), shard, es), RunAll(Start(n), shard, es');
            && r'.split == r.split + 1 && Idle(r', {shard[i]}) && r'.lanes[shard[i]].hand == Some(i)
            && |r'.lanes[shard[i]].queue| == Between(shard, i, r'.split)
  {
    hide Possible, RunAll;
    var r := RunAll(Start(n), shard, es);
    if shard[r.split] == shard[i] {
      RunSnoc(Start(n), shard, es, Split);
      es' := es + [Split];
    } else {
      es' := PassOne(shard, n, es);
    }
  }

  /** A run that leaves i and j in the hands of their workers. */
  lemma BothHeld(shard: seq<nat>, n: nat, i: nat, j: nat) returns (es: seq<Step>)
    requires Sharded(shard, n) && i < j < |shard| && MayOvertake(shard, i, j)
    ensures Possible(Start(n), shard, es)
    ensures var r := RunAll(Start(n), shard, es);
            r.lanes[shard[i]].hand == Some(i) && r.lanes[shard[j]].hand == Some(j)
  {
    hide Possible, RunAll, Between;
    es := PassAll(shard, n, i);
    es := HoldOne(shard, n, es);
    assert Between(shard, i, i + 1) == 0 by { NoneBetween(shard, i); }
    var k := i + 1;
    while k < j
      invariant i < k <= j && Possible(Start(n), shard, es)
      invariant var r := RunAll(Start(n), shard, es);
                && r.split == k && Idle(r, {shard[i]}) && r.lanes[shard[i]].hand == Some(i)
                && |r.lanes[shard[i]].queue| == Between(shard, i, k)
    {
      BetweenGrows(shard, i, k + 1, j);
      es := PassOrWait(shard, n, es, i);
      k := k + 1;
    }
    es := HoldOne(shard, n, es);
  }

  lemma NoneBetween(shard: seq<nat>, i: nat)
    requires i < |shard|
    ensures Between(shard, i, i + 1) == 0
  {
  }
}
