/**
 Call numbering and limits when several server listeners share one
 coordinator. UDP listeners decide on a packet in one critical section; a
 listener with one shared TCP or TLS connection checks its own session map,
 reserves a number and inserts the session in three; a listener with a
 connection per call reserves a number per connection. The steps of listeners
 and calls interleave in any way.
 */
module Coordinator {
  import opened Common

  /** The configured number of calls; none means unlimited. */
  type Limit = Option<int>

  predicate RejectNew(limit: Limit, accepted: nat)
  {
    limit.Some? && accepted >= limit.value
  }

  predicate FinishedAll(limit: Limit, finished: nat)
  {
    limit.Some? && finished >= limit.value
  }

  /** The coordinator's own fields and methods. */
  class MultiCoordinator {
    const limit: Limit
    var sessions: map<string, nat>   // UDP calls and their numbers
    var accepted: nat
    var finished: nat
    var done: bool                   // the channel is closed
    ghost var closes: nat            // how often it was closed

    constructor (limit: Limit)
      ensures this.limit == limit && sessions == map[] && accepted == 0 && finished == 0 && !done && closes == 0
    {
      this.limit := limit;
      sessions, accepted, finished, done, closes := map[], 0, 0, false, 0;
    }

    ghost function View(): Counters
      reads this
    {
      Counters(accepted, finished, done, closes)
    }

    method FinishCall()
      modifies this`finished, this`done, this`closes
      ensures View() == FinishOne(limit, old(View()))
      ensures finished == old(finished) + 1 && accepted == old(accepted)
      ensures done <==> old(done) || (limit.Some? && limit.value <= finished)
      ensures closes == old(closes) + if done && !old(done) then 1 else 0
    {
      finished := finished + 1;
      if FinishedAll(limit, finished) {
        if !done {
          done := true;
          closes := closes + 1;
        }
      }
    }

    /** The next call number, unless the limit is reached. */
    method ReserveCallSlot() returns (number: Option<nat>)
      modifies this`accepted
      ensures number.Some? <==> limit.None? || old(accepted) < limit.value
      ensures number.Some? ==> number == Some(old(accepted) + 1) && accepted == old(accepted) + 1
      ensures number.None? ==> accepted == old(accepted)
    {
      if RejectNew(limit, accepted) {
        return None;
      }
      accepted := accepted + 1;
      return Some(accepted);
    }

    method RefundReservedSlot()
      modifies this`accepted
      ensures accepted == if old(accepted) == 0 then 0 else old(accepted) - 1
    {
      if accepted > 0 {
        accepted := accepted - 1;
      }
    }

    /** A UDP packet that matches the first recv of the scenario starts a call, unless its call has one
        already or the limit is reached. */
    method AcceptUdp(id: string) returns (number: Option<nat>)
      modifies this`sessions, this`accepted
      ensures number.Some? <==> id !in old(sessions) && (limit.None? || old(accepted) < limit.value)
      ensures number.Some? ==> number == Some(old(accepted) + 1) && accepted == old(accepted) + 1
      ensures number.None? ==> accepted == old(accepted)
      ensures sessions == if number.Some? then old(sessions)[id := number.value] else old(sessions)
    {
      if id in sessions || RejectNew(limit, accepted) {
        return None;
      }
      accepted := accepted + 1;
      sessions := sessions[id := accepted];
      return Some(accepted);
    }

    method EndUdp(id: string)
      requires id in sessions
      modifies this`sessions, this`finished, this`done, this`closes
      ensures sessions == old(sessions) - {id} && View() == FinishOne(limit, old(View()))
    {
      sessions := sessions - {id};
      FinishCall();
    }
  }

  datatype Counters = Counters(accepted: nat, finished: nat, done: bool, closes: nat)

  function FinishOne(limit: Limit, c: Counters): Counters
  {
    var c' := c.(finished := c.finished + 1);
    if FinishedAll(limit, c'.finished) && !c'.done then c'.(done := true, closes := c.closes + 1) else c'
  }

  function TakeOne(c: Counters): Counters
  {
    c.(accepted := c.accepted + 1)
  }

  function Refund(c: Counters): Counters
  {
    c.(accepted := if c.accepted > 0 then c.accepted - 1 else 0)
  }

  // ---------- all listeners and calls together ----------

  /** Where the reader loop of a shared-connection listener stands. */
  datatype Stage = Idle | Checked(id: string) | Reserved(id: string, number: nat)

  datatype Listener = Listener(sessions: map<string, nat>, stage: Stage)

  /** Who holds an accepted number that has not finished. */
  datatype Place = Udp(id: string) | Session(l: nat, id: string) | Held(l: nat) | Connection | Ending

  /** `numbers` lists every call number handed out, in order. */
  datatype State = State(c: Counters, udp: map<string, nat>, listeners: seq<Listener>, live: map<nat, Place>, numbers: seq<nat>)

  datatype Step =
    | UdpAccept(id: string)
    | UdpEnd(id: string)
    | ConnAccept
    | ConnEnd(number: nat)
    | Check(l: nat, id: string)
    | Reserve(l: nat)
    | Insert(l: nat)
    | Delete(l: nat, id: string)
    | Finish(number: nat)

  predicate Enabled(limit: Limit, s: State, e: Step)
  {
    match e
    case UdpAccept(id) => id !in s.udp && !RejectNew(limit, s.c.accepted)
    case UdpEnd(id) => id in s.udp
    case ConnAccept => !RejectNew(limit, s.c.accepted)
    case ConnEnd(k) => k in s.live && s.live[k] == Connection
    case Check(l, id) => l < |s.listeners| && s.listeners[l].stage == Idle && id !in s.listeners[l].sessions
    case Reserve(l) => l < |s.listeners| && s.listeners[l].stage.Checked?
    case Insert(l) => l < |s.listeners| && s.listeners[l].stage.Reserved?
    case Delete(l, id) => l < |s.listeners| && id in s.listeners[l].sessions
    case Finish(k) => k in s.live && s.live[k] == Ending
  }

  function Take(s: State, place: Place): State
  {
    var k := s.c.accepted + 1;
    s.(c := TakeOne(s.c), live := s.live[k := place], numbers := s.numbers + [k])
  }

  function Release(limit: Limit, s: State, k: nat): State
  {
    s.(c := FinishOne(limit, s.c), live := s.live - {k})
  }

  function SetListener(s: State, l: nat, x: Listener): State
    requires l < |s.listeners|
  {
    s.(listeners := s.listeners[l := x])
  }

  function Apply(limit: Limit, s: State, e: Step): State
    requires Enabled(limit, s, e)
  {
    match e
    case UdpAccept(id) => Take(s, Udp(id)).(udp := s.udp[id := s.c.accepted + 1])
    case UdpEnd(id) => Release(limit, s, s.udp[id]).(udp := s.udp - {id})
    case ConnAccept => Take(s, Connection)
    case ConnEnd(k) => Release(limit, s, k)
    case Check(l, id) => SetListener(s, l, s.listeners[l].(stage := Checked(id)))
    case Reserve(l) =>
      var x := s.listeners[l];
      if RejectNew(limit, s.c.accepted) then SetListener(s, l, x.(stage := Idle))
      else SetListener(Take(s, Held(l)), l, x.(stage := Reserved(x.stage.id, s.c.accepted + 1)))
    case Insert(l) =>
      var x := s.listeners[l];
      var id, k := x.stage.id, x.stage.number;
      if id in x.sessions then
        SetListener(s.(c := Refund(s.c), live := s.live - {k}), l, x.(stage := Idle))
      else SetListener(s.(live := s.live[k := Session(l, id)]), l, Listener(x.sessions[id := k], Idle))
    case Delete(l, id) =>
      var x := s.listeners[l];
      SetListener(s.(live := s.live[x.sessions[id] := Ending]), l, x.(sessions := x.sessions - {id}))
    case Finish(k) => Release(limit, s, k)
  }

  /** The refund branch. */
  predicate Refunds(s: State, e: Step)
  {
    e.Insert? && e.l < |s.listeners| && s.listeners[e.l].stage.Reserved? && s.listeners[e.l].stage.id in s.listeners[e.l].sessions
  }

  // ---------- what every run keeps ----------

  ghost predicate Counted(limit: Limit, c: Counters, live: map<nat, Place>)
  {
    && c.finished + |live| == c.accepted
    && (limit.Some? ==> c.accepted == 0 || c.accepted <= limit.value)
    && (c.done <==> limit.Some? && 0 < c.finished && limit.value <= c.finished)
    && c.closes == (if c.done then 1 else 0)
    && (forall k :: k in live ==> k <= c.accepted)
  }

  ghost predicate Numbered(accepted: nat, numbers: seq<nat>)
  {
    && |numbers| == accepted
    && forall i :: 0 <= i < |numbers| ==> numbers[i] == i + 1
  }

  /** Every number in the UDP map is held by that call. */
  ghost predicate UdpOk(udp: map<string, nat>, live: map<nat, Place>)
  {
    forall id :: id in udp ==> udp[id] in live && live[udp[id]] == Udp(id)
  }

  /** Every number of a listener is held by it, and the reader loop never waits for a slot that its own
      sessions have. */
  ghost predicate ListenerOk(x: Listener, l: nat, live: map<nat, Place>)
  {
    && (forall id :: id in x.sessions ==> x.sessions[id] in live && live[x.sessions[id]] == Session(l, id))
    && (!x.stage.Idle? ==> x.stage.id !in x.sessions)
    && (x.stage.Reserved? ==> x.stage.number in live && live[x.stage.number] == Held(l))
  }

  ghost predicate Owned(s: State)
  {
    && UdpOk(s.udp, s.live)
    && forall l :: 0 <= l < |s.listeners| ==> ListenerOk(s.listeners[l], l, s.live)
  }

  ghost predicate Inv(limit: Limit, s: State)
  {
    Counted(limit, s.c, s.live) && Numbered(s.c.accepted, s.numbers) && Owned(s)
  }

  lemma TakeKeeps(limit: Limit, s: State, place: Place)
    requires Counted(limit, s.c, s.live) && Numbered(s.c.accepted, s.numbers) && !RejectNew(limit, s.c.accepted)
    ensures
      var s' := Take(s, place);
      Counted(limit, s'.c, s'.live) && Numbered(s'.c.accepted, s'.numbers)
    ensures s.c.accepted + 1 !in s.live
  {
    MapGrows(s.live, s.c.accepted + 1, place);
  }

  lemma MapGrows(live: map<nat, Place>, k: nat, place: Place)
    requires k !in live
    ensures |live[k := place]| == |live| + 1
  {
    assert live[k := place].Keys == live.Keys + {k};
  }

  lemma ReleaseKeeps(limit: Limit, c: Counters, live: map<nat, Place>, k: nat)
    requires Counted(limit, c, live) && k in live
    ensures Counted(limit, FinishOne(limit, c), live - {k})
  {
    assert (live - {k}).Keys == live.Keys - {k};
    assert |live.Keys - {k}| == |live.Keys| - 1;
  }

  /** Whose number it is: the listener's, or not. */
  predicate Of(place: Place, l: nat)
  {
    match place
    case Session(m, _) => m == l
    case Held(m) => m == l
    case _ => false
  }

  /** Only what happens to the number `k` changes. */
  ghost predicate Elsewhere(live: map<nat, Place>, live': map<nat, Place>, k: nat)
  {
    forall j :: j != k ==> (j in live' <==> j in live) && (j in live ==> live'[j] == live[j])
  }

  lemma OthersKeep(s: State, live': map<nat, Place>, k: nat, l: nat)
    requires Owned(s) && Elsewhere(s.live, live', k)
    requires k in s.live ==> forall m: nat :: Of(s.live[k], m) ==> m == l
    ensures forall m :: 0 <= m < |s.listeners| && m != l ==> ListenerOk(s.listeners[m], m, live')
  {
    forall m | 0 <= m < |s.listeners| && m != l
      ensures ListenerOk(s.listeners[m], m, live')
    {
      var x := s.listeners[m];
      assert ListenerOk(x, m, s.live);
      forall id | id in x.sessions
        ensures x.sessions[id] in live' && live'[x.sessions[id]] == Session(m, id)
      {
        assert Of(s.live[x.sessions[id]], m);
      }
      if x.stage.Reserved? {
        assert Of(s.live[x.stage.number], m);
      }
    }
  }

  lemma AllKeep(s: State, live': map<nat, Place>, k: nat)
    requires Owned(s) && Elsewhere(s.live, live', k)
    requires k in s.live ==> s.live[k].Udp? || s.live[k].Connection? || s.live[k].Ending?
    ensures forall m :: 0 <= m < |s.listeners| ==> ListenerOk(s.listeners[m], m, live')
  {
    OthersKeep(s, live', k, |s.listeners|);
  }

  lemma UdpGrows(udp: map<string, nat>, live: map<nat, Place>, id: string, k: nat)
    requires UdpOk(udp, live) && k !in live
    ensures UdpOk(udp[id := k], live[k := Udp(id)])
  {
  }

  lemma UdpShrinks(udp: map<string, nat>, live: map<nat, Place>, id: string)
    requires UdpOk(udp, live) && id in udp
    ensures UdpOk(udp - {id}, live - {udp[id]})
    ensures udp[id] in live && live[udp[id]].Udp?
  {
  }

  lemma UdpAcceptKeeps(limit: Limit, s: State, id: string)
    requires Inv(limit, s) && Enabled(limit, s, UdpAccept(id))
    ensures Inv(limit, Apply(limit, s, UdpAccept(id)))
  {
    hide ListenerOk, UdpOk, Counted, Numbered;
    TakeKeeps(limit, s, Udp(id));
    UdpGrows(s.udp, s.live, id, s.c.accepted + 1);
    AllKeep(s, Take(s, Udp(id)).live, s.c.accepted + 1);
  }

  lemma UdpEndKeeps(limit: Limit, s: State, id: string)
    requires Inv(limit, s) && Enabled(limit, s, UdpEnd(id))
    ensures Inv(limit, Apply(limit, s, UdpEnd(id)))
  {
    hide ListenerOk, UdpOk, Counted, Numbered;
    UdpShrinks(s.udp, s.live, id);
    ReleaseKeeps(limit, s.c, s.live, s.udp[id]);
    AllKeep(s, s.live - {s.udp[id]}, s.udp[id]);
  }

  lemma ConnAcceptKeeps(limit: Limit, s: State)
    requires Inv(limit, s) && Enabled(limit, s, ConnAccept)
    ensures Inv(limit, Apply(limit, s, ConnAccept))
  {
    hide ListenerOk, Counted, Numbered;
    TakeKeeps(limit, s, Connection);
    AllKeep(s, Take(s, Connection).live, s.c.accepted + 1);
  }

  lemma EndKeeps(limit: Limit, s: State, e: Step)
    requires Inv(limit, s) && Enabled(limit, s, e)
    requires e.ConnEnd? || e.Finish?
    ensures Inv(limit, Apply(limit, s, e))
  {
    hide ListenerOk, Counted, Numbered;
    ReleaseKeeps(limit, s.c, s.live, e.number);
    AllKeep(s, s.live - {e.number}, e.number);
  }

  lemma SlotKeeps(limit: Limit, s: State, e: Step)
    requires Inv(limit, s) && Enabled(limit, s, e)
    requires e.Check? || e.Reserve?
    ensures Inv(limit, Apply(limit, s, e))
  {
    var s', l := Apply(limit, s, e), e.l;
    assert ListenerOk(s.listeners[l], l, s.live);
    if e.Reserve? && !RejectNew(limit, s.c.accepted) {
      TakeKeeps(limit, s, Held(l));
      OthersKeep(s, s'.live, s.c.accepted + 1, l);
    }
    assert ListenerOk(s'.listeners[l], l, s'.live);
  }

  /** Only the reader loop puts sessions in its listener's map, so the session it looked for is still
      absent when it inserts. */
  lemma SessionKeeps(limit: Limit, s: State, e: Step)
    requires Inv(limit, s) && Enabled(limit, s, e)
    requires e.Insert? || e.Delete?
    ensures Inv(limit, Apply(limit, s, e)) && !Refunds(s, e)
  {
    var s', l := Apply(limit, s, e), e.l;
    var x := s.listeners[l];
    assert ListenerOk(x, l, s.live);
    OthersKeep(s, s'.live, if e.Insert? then x.stage.number else x.sessions[e.id], l);
    assert s'.live.Keys == s.live.Keys;
    assert ListenerOk(s'.listeners[l], l, s'.live);
  }

  lemma StepKeeps(limit: Limit, s: State, e: Step)
    requires Inv(limit, s) && Enabled(limit, s, e)
    ensures Inv(limit, Apply(limit, s, e)) && !Refunds(s, e)
  {
    hide Inv, Enabled, Apply;
    match e
    case UdpAccept(id) => UdpAcceptKeeps(limit, s, id);
    case UdpEnd(id) => UdpEndKeeps(limit, s, id);
    case ConnAccept => ConnAcceptKeeps(limit, s);
    case ConnEnd(_) => EndKeeps(limit, s, e);
    case Finish(_) => EndKeeps(limit, s, e);
    case Check(_, _) => SlotKeeps(limit, s, e);
    case Reserve(_) => SlotKeeps(limit, s, e);
    case _ => SessionKeeps(limit, s, e);
  }

  predicate Possible(limit: Limit, s: State, es: seq<Step>)
    decreases es
  {
    es == [] || (Enabled(limit, s, es[0]) && Possible(limit, Apply(limit, s, es[0]), es[1..]))
  }

  function Run(limit: Limit, s: State, es: seq<Step>): State
    requires Possible(limit, s, es)
    decreases es
  {
    if es == [] then s else Run(limit, Apply(limit, s, es[0]), es[1..])
  }

  /** Some step of the run takes the refund branch. */
  predicate RunRefunds(limit: Limit, s: State, es: seq<Step>)
    requires Possible(limit, s, es)
    decreases es
  {
    es != [] && (Refunds(s, es[0]) || RunRefunds(limit, Apply(limit, s, es[0]), es[1..]))
  }

  lemma {:induction false} RunKeeps(limit: Limit, s: State, es: seq<Step>)
    requires Inv(limit, s) && Possible(limit, s, es)
    ensures Inv(limit, Run(limit, s, es)) && !RunRefunds(limit, s, es)
    decreases es
  {
    hide Inv, Enabled, Apply, Refunds;
    if es != [] {
      StepKeeps(limit, s, es[0]);
      RunKeeps(limit, Apply(limit, s, es[0]), es[1..]);
    }
  }

  /** `shared` listeners with one connection each, no call yet. */
  function Start(shared: nat): State
  {
    State(Counters(0, 0, false, 0), map[], seq(shared, _ => Listener(map[], Idle)), map[], [])
  }

  /** Every interleaving: the numbers handed out are 1, 2, ... with none left out or repeated, the limit
      holds, no reservation is ever taken back, and the done channel is closed exactly when the last
      of the configured calls has finished, once. */
  lemma EveryRunIsSafe(limit: Limit, shared: nat, es: seq<Step>)
    requires Possible(limit, Start(shared), es)
    ensures !RunRefunds(limit, Start(shared), es)
    ensures
      var s := Run(limit, Start(shared), es);
      && s.numbers == seq(s.c.accepted, i => i + 1)
      && s.c.finished <= s.c.accepted
      && (limit.Some? && 0 < limit.value ==>
            && s.c.accepted <= limit.value
            && (s.c.done <==> s.c.finished == limit.value))
      && (limit.Some? && limit.value <= 0 ==> s.c.accepted == 0 && !s.c.done)
      && (limit.None? ==> !s.c.done)
      && s.c.closes == (if s.c.done then 1 else 0)
  {
    hide Enabled, Apply, Refunds, Owned, Possible, Run, Start;
    StartInv(limit, shared);
    RunKeeps(limit, Start(shared), es);
  }

  // ---------- every limit is reached ----------

  /** Whoever a number belongs to has it. */
  ghost predicate PlaceOk(s: State, k: nat)
    requires k in s.live
  {
    match s.live[k]
    case Udp(id) => id in s.udp && s.udp[id] == k
    case Session(l, id) => l < |s.listeners| && id in s.listeners[l].sessions && s.listeners[l].sessions[id] == k
    case Held(l) => l < |s.listeners| && s.listeners[l].stage.Reserved? && s.listeners[l].stage.number == k
    case Connection => true
    case Ending => true
  }

  ghost predicate Placed(s: State)
  {
    forall k :: k in s.live ==> PlaceOk(s, k)
  }

  lemma StepPlaced(limit: Limit, s: State, e: Step)
    requires Inv(limit, s) && Placed(s) && Enabled(limit, s, e)
    ensures Placed(Apply(limit, s, e))
  {
    hide Inv, Enabled, Apply, PlaceOk;
    var s' := Apply(limit, s, e);
    forall k | k in s'.live
      ensures PlaceOk(s', k)
    {
      if e.UdpAccept? || e.UdpEnd? || e.ConnAccept? || e.ConnEnd? || e.Finish? {
        CallPlaced(limit, s, e, k);
      } else {
        ListenerPlaced(limit, s, e, k);
      }
    }
  }

  lemma CallPlaced(limit: Limit, s: State, e: Step, k: nat)
    requires Placed(s) && Enabled(limit, s, e) && k in Apply(limit, s, e).live
    requires e.UdpAccept? || e.UdpEnd? || e.ConnAccept? || e.ConnEnd? || e.Finish?
    ensures PlaceOk(Apply(limit, s, e), k)
  {
    hide RejectNew, TakeOne, FinishOne;
    if k in s.live {
      assert PlaceOk(s, k);
    }
  }

  lemma ListenerPlaced(limit: Limit, s: State, e: Step, k: nat)
    requires Inv(limit, s) && Placed(s) && Enabled(limit, s, e) && k in Apply(limit, s, e).live
    requires e.Check? || e.Reserve? || e.Insert? || e.Delete?
    ensures PlaceOk(Apply(limit, s, e), k)
  {
    hide RejectNew, TakeOne, Counted, Numbered, UdpOk, Refund;
    assert ListenerOk(s.listeners[e.l], e.l, s.live);
    if k in s.live {
      assert PlaceOk(s, k);
    }
  }

  /** A run that ends in a sound state. */
  ghost predicate Reaches(limit: Limit, s: State, es: seq<Step>, s': State)
  {
    Possible(limit, s, es) && Run(limit, s, es) == s' && Inv(limit, s') && Placed(s')
  }

  lemma {:induction false} RunPlaced(limit: Limit, s: State, es: seq<Step>)
    requires Inv(limit, s) && Placed(s) && Possible(limit, s, es)
    ensures Reaches(limit, s, es, Run(limit, s, es))
    decreases es
  {
    hide Inv, Placed, Enabled, Apply;
    if es != [] {
      StepKeeps(limit, s, es[0]);
      StepPlaced(limit, s, es[0]);
      RunPlaced(limit, Apply(limit, s, es[0]), es[1..]);
    }
  }

  lemma {:induction false} RunSnoc(limit: Limit, s: State, es: seq<Step>, e: Step)
    requires Possible(limit, s, es) && Enabled(limit, Run(limit, s, es), e)
    ensures Possible(limit, s, es + [e]) && Run(limit, s, es + [e]) == Apply(limit, Run(limit, s, es), e)
    decreases es
  {
    hide Enabled, Apply;
    if es == [] {
      assert es + [e] == [e] && [e][1..] == [];
    } else {
      assert (es + [e])[1..] == es[1..] + [e];
      RunSnoc(limit, Apply(limit, s, es[0]), es[1..], e);
    }
  }

  /** One more step of a run. */
  lemma Extend(limit: Limit, s: State, es: seq<Step>, s1: State, e: Step) returns (s2: State)
    requires Reaches(limit, s, es, s1) && Enabled(limit, s1, e)
    ensures s2 == Apply(limit, s1, e) && Reaches(limit, s, es + [e], s2)
  {
    hide Inv, Placed, Enabled, Apply;
    s2 := Apply(limit, s1, e);
    StepKeeps(limit, s1, e);
    StepPlaced(limit, s1, e);
    RunSnoc(limit, s, es, e);
  }

  /** The step that takes the call with number k nearer to its end. */
  function Nearer(s: State, k: nat): Step
    requires k in s.live
  {
    match s.live[k]
    case Udp(id) => UdpEnd(id)
    case Session(l, id) => Delete(l, id)
    case Held(l) => Insert(l)
    case Connection => ConnEnd(k)
    case Ending => Finish(k)
  }

  function StepsLeft(p: Place): nat
  {
    match p
    case Held(_) => 2
    case Session(_, _) => 1
    case _ => 0
  }

  lemma NearerMoves(limit: Limit, s: State, k: nat)
    requires Inv(limit, s) && k in s.live && PlaceOk(s, k)
    ensures Enabled(limit, s, Nearer(s, k))
    ensures var s' := Apply(limit, s, Nearer(s, k));
            && s'.c.accepted == s.c.accepted
            && (if StepsLeft(s.live[k]) == 0 then s'.live.Keys == s.live.Keys - {k}
                else s'.live.Keys == s.live.Keys && StepsLeft(s'.live[k]) < StepsLeft(s.live[k]))
  {
    hide Counted, Numbered, UdpOk;
    if s.live[k].Held? {
      var l := s.live[k].l;
      assert ListenerOk(s.listeners[l], l, s.live);
    }
  }

  /** Any call in progress can end. */
  lemma EndOne(limit: Limit, s: State, es: seq<Step>, s1: State, k: nat) returns (es': seq<Step>, s2: State)
    requires Reaches(limit, s, es, s1) && k in s1.live
    ensures es <= es' && Reaches(limit, s, es', s2) && s2.c.accepted == s1.c.accepted && |s2.live| == |s1.live| - 1
    decreases StepsLeft(s1.live[k])
  {
    hide Inv, Possible, Run, Apply, Enabled, PlaceOk;
    assert PlaceOk(s1, k);
    NearerMoves(limit, s1, k);
    var e := Nearer(s1, k);
    var u := Extend(limit, s, es, s1, e);
    if StepsLeft(s1.live[k]) == 0 {
      assert |s1.live.Keys - {k}| == |s1.live.Keys| - 1;
      return es + [e], u;
    }
    assert |u.live.Keys| == |s1.live.Keys|;
    es', s2 := EndOne(limit, s, es + [e], u, k);
  }

  lemma EndAll(limit: Limit, s: State, es: seq<Step>, s1: State) returns (es': seq<Step>, s2: State)
    requires Reaches(limit, s, es, s1)
    ensures es <= es' && Reaches(limit, s, es', s2) && s2.c.accepted == s1.c.accepted && |s2.live| == 0
    decreases |s1.live|
  {
    hide Reaches;
    if |s1.live| == 0 {
      return es, s1;
    }
    var k :| k in s1.live;
    var es1, u := EndOne(limit, s, es, s1, k);
    es', s2 := EndAll(limit, s, es1, u);
  }

  /** While the limit is not reached another call is accepted. */
  lemma AcceptUpTo(limit: Limit, s: State, es: seq<Step>, s1: State, n: nat) returns (es': seq<Step>, s2: State)
    requires Reaches(limit, s, es, s1) && s1.c.accepted <= n && (limit.Some? ==> n <= limit.value)
    ensures es <= es' && Reaches(limit, s, es', s2) && s2.c.accepted == n
    decreases n - s1.c.accepted
  {
    hide Reaches;
    if s1.c.accepted == n {
      return es, s1;
    }
    var u := Extend(limit, s, es, s1, ConnAccept);
    es', s2 := AcceptUpTo(limit, s, es + [ConnAccept], u, n);
  }

  /** No run is stuck: whatever listeners and calls did so far, it can go on until exactly the configured number of
      calls was accepted and has finished, and then the done channel is closed, once. */
  lemma EveryRunCanFinish(limit: Limit, shared: nat, es: seq<Step>) returns (es': seq<Step>)
    requires Possible(limit, Start(shared), es) && limit.Some? && limit.value > 0
    ensures es <= es' && Possible(limit, Start(shared), es')
    ensures Run(limit, Start(shared), es').c == Counters(limit.value, limit.value, true, 1)
  {
    hide Possible, Run, Placed, Numbered, Owned;
    StartInv(limit, shared);
    assert Placed(Start(shared)) by { StartPlaced(shared); }
    RunPlaced(limit, Start(shared), es);
    var es1, s1 := AcceptUpTo(limit, Start(shared), es, Run(limit, Start(shared), es), limit.value);
    var s2;
    es', s2 := EndAll(limit, Start(shared), es1, s1);
  }

  lemma StartPlaced(shared: nat)
    ensures Placed(Start(shared))
  {
  }

  lemma RunOfThree(limit: Limit, s: State, e: Step, e': Step, e'': Step)
    requires Enabled(limit, s, e) && Enabled(limit, Apply(limit, s, e), e')
    requires Enabled(limit, Apply(limit, Apply(limit, s, e), e'), e'')
    ensures Possible(limit, s, [e, e', e''])
    ensures Run(limit, s, [e, e', e'']) == Apply(limit, Apply(limit, Apply(limit, s, e), e'), e'')
  {
    hide Enabled, Apply;
    var es := [e, e', e''];
    assert es[1..] == [e', e''] && es[1..][1..] == [e''] && [e''][1..] == [];
    var s1 := Apply(limit, s, e);
    var s2 := Apply(limit, s1, e');
    assert Possible(limit, s2, [e'']) && Run(limit, s2, [e'']) == Apply(limit, s2, e'');
    assert Possible(limit, s1, es[1..]) && Run(limit, s1, es[1..]) == Apply(limit, s2, e'');
  }

  /** Below the limit every kind of listener accepts: a UDP call without a session, a connection of its own, and a call
      new to the idle reader loop of a shared connection, which gets the next number and a session. */
  lemma AcceptsBelowLimit(limit: Limit, s: State, l: nat, id: string)
    requires limit.None? || s.c.accepted < limit.value
    ensures Enabled(limit, s, ConnAccept) && (id !in s.udp ==> Enabled(limit, s, UdpAccept(id)))
    ensures l < |s.listeners| && s.listeners[l].stage.Idle? && id !in s.listeners[l].sessions ==>
              && Possible(limit, s, [Check(l, id), Reserve(l), Insert(l)])
              && var s' := Run(limit, s, [Check(l, id), Reserve(l), Insert(l)]);
                 && s'.c.accepted == s.c.accepted + 1 && |s'.listeners| == |s.listeners|
                 && s'.listeners[l].sessions == s.listeners[l].sessions[id := s.c.accepted + 1]
  {
    hide Possible, Run;
    if l < |s.listeners| && s.listeners[l].stage.Idle? && id !in s.listeners[l].sessions {
      RunOfThree(limit, s, Check(l, id), Reserve(l), Insert(l));
    }
  }

  predicate HasSession(s: State, l: int, id: string)
  {
    0 <= l < |s.listeners| && id in s.listeners[l].sessions
  }

  /** No two calls in progress share a number, whichever listeners they came from. */
  lemma NumbersAreDistinct(limit: Limit, shared: nat, es: seq<Step>)
    requires Possible(limit, Start(shared), es)
    ensures
      var s := Run(limit, Start(shared), es);
      && (forall a, b :: a in s.udp && b in s.udp && s.udp[a] == s.udp[b] ==> a == b)
      && (forall a, l, b :: a in s.udp && HasSession(s, l, b) ==> s.udp[a] != s.listeners[l].sessions[b])
      && (forall l, a, m, b :: HasSession(s, l, a) && HasSession(s, m, b) ==>
            s.listeners[l].sessions[a] == s.listeners[m].sessions[b] ==> l == m && a == b)
  {
    hide Enabled, Apply, Refunds, Possible, Run, Start;
    StartInv(limit, shared);
    RunKeeps(limit, Start(shared), es);
  }

  lemma StartInv(limit: Limit, shared: nat)
    ensures Inv(limit, Start(shared))
  {
  }
}
