/**
 A whole call: its sends and recvs in any order the scenario's jumps may give,
 and the deferred releases at its end. The theorems over whole runs are about
 this value model; the class `SipMachine.Call`, whose fields the scenario
 interpreter changes step by step, refines it.
 */
module SipCall {
  import opened Common
  import opened SipReceive
  import opened SipStartLine
  import opened SipOwnership
  import opened SipFinals
  import opened SipTrace
  import opened SipSettled

  datatype Command =
    | Send(bytes: Bytes, parsed: Option<Parsed>, retrans: nat, ok: bool)
    | Recv(cmd: RecvCmd, udp: bool, t0: int, timeout: int, toMain: bool, passes: seq<Pass>)

  datatype State = State(d: Dialog, own: Own, lastRetrans: nat, trace: seq<Event>)

  const START := State(Dialog(Txn("", "", 0), [], [], ""), Own([], multiset{}, multiset{}, []), 0, [])

  /** Whether this send is stored as the ACK to replay. */
  predicate StoresAck(d: Dialog, parsed: Option<Parsed>)
  {
    && parsed.Some? && !EqualFold(parsed.value.meth, "INVITE")
    && EqualFold(parsed.value.meth, "ACK") && d.inviteBranch != ""
  }

  /** The dialog after a send: a part of the transaction that the message lacks keeps its old value. */
  function AfterSend(d: Dialog, bytes: Bytes, parsed: Option<Parsed>): Dialog
  {
    if parsed.None? then d.(lastSent := bytes)
    else
      var p := parsed.value;
      var branch := if p.branch.Some? then p.branch.value else d.txn.branch;
      var txn := if p.cseq.Some? then Txn(branch, p.cseq.value.meth, p.cseq.value.num) else d.txn.(branch := branch);
      Dialog(txn, bytes,
             if StoresAck(d, parsed) then bytes else d.inviteAck,
             if EqualFold(p.meth, "INVITE") then branch else d.inviteBranch)
  }

  function WaitOf(s: State, c: Command): Wait
    requires c.Recv?
  {
    Wait(c.cmd, if c.udp then s.lastRetrans else 0, c.t0, c.timeout, c.toMain)
  }

  function OutcomeOf(s: State, c: Command): (Outcome, Own, seq<Event>)
    requires c.Recv?
  {
    LoopRun(s.d, WaitOf(s, c), s.own, false, c.passes)
  }

  /** One command; the flag says whether the call goes on. */
  function Do(s: State, c: Command): (bool, State)
  {
    match c
    case Send(bytes, parsed, retrans, ok) =>
      if !ok then (false, s)
      else (true, s.(d := AfterSend(s.d, bytes, parsed), lastRetrans := retrans,
                     trace := s.trace + [ScenarioSend(bytes, parsed, StoresAck(s.d, parsed))]))
    case Recv(cmd, udp, _, _, toMain, _) =>
      var (out, own, events) := OutcomeOf(s, c);
      var t := s.trace + [RecvBegin(cmd, toMain, udp)] + events;
      match out
      case Matched(m) =>
        (true, s.(own := own.(deferred := own.deferred + [m]), trace := t + [RecvDone(cmd.recvResp != "")],
                  lastRetrans := if cmd.recvResp != "" then 0 else s.lastRetrans))
      case Failed(e) => (e == ToMain || cmd.optional, s.(own := own, trace := t))
      case Waiting => (false, s.(own := own, trace := t))
  }

  /** A run of a call: it may stop after any command (an action or an error can end the call). */
  function Run(s: State, cs: seq<Command>): State
    decreases |cs|
  {
    if cs == [] then s
    else
      var (more, s') := Do(s, cs[0]);
      if more then Run(s', cs[1..]) else s'
  }

  /** The deferred functions of the call's end. */
  function Exit(own: Own): Own
  {
    own.(pending := [], deferred := [], released := own.released + multiset(own.deferred) + multiset(own.pending))
  }

  // ---------- ownership over whole runs ----------

  lemma DoOwns(s: State, c: Command)
    requires Linear(s.own, multiset{}) && NoBye(s.own.pending)
    ensures var s' := Do(s, c).1; Linear(s'.own, multiset{}) && NoBye(s'.own.pending)
  {
    hide LoopRun, NoBye, Linear, AfterSend;
    if c.Recv? {
      LoopOwns(s.d, WaitOf(s, c), s.own, false, c.passes);
      var (out, own, _) := OutcomeOf(s, c);
      if out.Matched? {
        DeferOwns(own, out.m);
      }
    }
  }

  lemma DeferOwns(own: Own, m: Msg)
    requires Linear(own, multiset{m})
    ensures Linear(own.(deferred := own.deferred + [m]), multiset{})
  {
  }

  lemma {:induction false} RunOwns(s: State, cs: seq<Command>)
    requires Linear(s.own, multiset{}) && NoBye(s.own.pending)
    ensures var s' := Run(s, cs); Linear(s'.own, multiset{}) && NoBye(s'.own.pending)
    decreases |cs|
  {
    hide Linear, NoBye, Do;
    if cs != [] {
      DoOwns(s, cs[0]);
      if Do(s, cs[0]).0 {
        RunOwns(Do(s, cs[0]).1, cs[1..]);
      }
    }
  }

  /** In every run each message taken from the mailbox is in exactly one place, and when the call ends,
      wherever it ends, each has been released exactly once. */
  lemma EveryMessageReleasedOnce(cs: seq<Command>)
    ensures var own := Run(START, cs).own;
            && Linear(own, multiset{})
            && Exit(own).released == own.taken
            && (forall m :: own.taken[m] == 1 ==>
                  multiset(own.pending)[m] + multiset(own.deferred)[m] + own.released[m] == 1 && Exit(own).released[m] == 1)
  {
    hide Run;
    RunOwns(START, cs);
  }

  // ---------- the trace of whole runs ----------

  ghost predicate Tracked(s: State)
  {
    var w := Watch(FRESH, s.trace);
    && w.ok
    && (w.quiet ==> s.lastRetrans == 0)
    && (s.d.lastSent != [] ==> w.last == Some(s.d.lastSent))
    && (s.d.inviteAck != [] ==> w.lastAck == Some(s.d.inviteAck))
  }

  lemma WatchOne(t: seq<Event>, e: Event)
    ensures Watch(FRESH, t + [e]) == Next(Watch(FRESH, t), e)
  {
    WatchOf(FRESH, t, [e]);
    assert [e][1..] == [];
  }

  lemma RecvTracked(s: State, c: Command)
    requires Tracked(s) && c.Recv?
    ensures Tracked(Do(s, c).1)
  {
    hide LoopRun, Next;
    var wt := WaitOf(s, c);
    var t := s.trace + [RecvBegin(c.cmd, c.toMain, c.udp)];
    var (out, own, events) := OutcomeOf(s, c);
    BeginTracked(s, c);
    LoopWatched(Watch(FRESH, t), s.d, wt, s.own, false, c.passes);
    WatchOf(FRESH, t, events);
    DoneTracked(t + events, c.cmd.recvResp != "");
  }

  lemma BeginTracked(s: State, c: Command)
    requires Tracked(s) && c.Recv?
    ensures Agrees(Watch(FRESH, s.trace + [RecvBegin(c.cmd, c.toMain, c.udp)]), s.d, WaitOf(s, c), s.own.pending, false)
    ensures SameSends(Watch(FRESH, s.trace + [RecvBegin(c.cmd, c.toMain, c.udp)]), Watch(FRESH, s.trace))
  {
    WatchOne(s.trace, RecvBegin(c.cmd, c.toMain, c.udp));
  }

  lemma DoneTracked(t: seq<Event>, response: bool)
    ensures var w, v := Watch(FRESH, t), Watch(FRESH, t + [RecvDone(response)]);
            v == w.(quiet := w.quiet || response)
  {
    WatchOne(t, RecvDone(response));
  }

  lemma SendTracked(s: State, c: Command)
    requires Tracked(s) && c.Send?
    ensures Tracked(Do(s, c).1)
  {
    WatchOne(s.trace, ScenarioSend(c.bytes, c.parsed, StoresAck(s.d, c.parsed)));
  }

  lemma {:induction false} RunTracked(s: State, cs: seq<Command>)
    requires Tracked(s)
    ensures Tracked(Run(s, cs))
    decreases |cs|
  {
    hide Tracked, Do;
    if cs != [] {
      if cs[0].Send? {
        SendTracked(s, cs[0]);
      } else {
        RecvTracked(s, cs[0]);
      }
      if Do(s, cs[0]).0 {
        RunTracked(Do(s, cs[0]).1, cs[1..]);
      }
    }
  }

  /** No run of any call breaks a promise of the monitor. */
  lemma EveryRunKeepsItsPromises(cs: seq<Command>)
    ensures Watch(FRESH, Run(START, cs).trace).ok
  {
    RunTracked(START, cs);
  }

  // ---------- a waiting final response ----------

  /** The recv c takes a final response of the transaction, or ends the call because of one. */
  ghost predicate Settles(s: State, c: Command)
    requires c.Recv?
  {
    var out := OutcomeOf(s, c).0;
    (out.Matched? && FinalNow(out.m, s.d.txn)) || out == Failed(FinalAbort)
  }

  ghost predicate SettlesWithin(s: State, cs: seq<Command>)
    requires forall i :: 0 <= i < |cs| ==> cs[i].Recv?
    decreases |cs|
  {
    cs != [] && (Settles(s, cs[0]) || (Do(s, cs[0]).0 && SettlesWithin(Do(s, cs[0]).1, cs[1..])))
  }

  lemma StaysIn(p: seq<Msg>, i: nat, txn: Txn)
    requires FinalWaits(p, txn) && i < |p| && !FinalNow(p[i], txn)
    ensures FinalWaits(Without(p, i), txn) && FinalWaits(p[i..], txn) == FinalWaits(p[i + 1..], txn)
  {
    hide FinalNow;
    var m :| m in p && FinalNow(m, txn);
    assert m in multiset(p) && m in Without(p, i);
    assert p[i..] == [p[i]] + p[i + 1..];
  }

  lemma {:induction false} FirstFinalTail(p: seq<Msg>, j: nat, txn: Txn)
    requires FinalWaits(p, txn) && j <= FirstFinal(p, txn)
    ensures FinalWaits(p[j..], txn)
  {
    hide FinalNow;
    var f := FirstFinal(p, txn);
    var m :| m in p && FinalNow(m, txn);
    assert f < |p|;
    assert p[j..][f - j] == p[f];
  }

  lemma OptionalKeepsFinal(s: State, c: Command)
    requires c.Recv? && !c.toMain && c.cmd.optional && FinalWaits(s.own.pending, s.d.txn) && !Settles(s, c)
    ensures var (out, own, events) := OutcomeOf(s, c);
            FinalWaits(own.pending, s.d.txn) && own.taken == s.own.taken && Silent(events)
  {
    hide LoopRun, FinalNow, Matches;
    assert HasFinal(s.own.pending) by { WaitingIsFinal(s.own.pending, s.d.txn); }
    OptionalDecided(s.d, WaitOf(s, c), s.own, c.passes);
    var out := OutcomeOf(s, c).0;
    if out.Matched? {
      StaysIn(s.own.pending, FirstMatch(s.own.pending, c.cmd, s.d.txn), s.d.txn);
    }
  }

  lemma MandatoryKeepsFinal(s: State, c: Command)
    requires c.Recv? && !c.toMain && !c.cmd.optional && FinalWaits(s.own.pending, s.d.txn) && !Settles(s, c)
    ensures var (out, own, events) := OutcomeOf(s, c);
            FinalWaits(own.pending, s.d.txn) && own.taken == s.own.taken && Silent(events)
  {
    hide LoopRun, FinalNow, Matches;
    MandatoryDecided(s.d, WaitOf(s, c), s.own, c.passes);
    var (out, own, events) := OutcomeOf(s, c);
    var p := s.own.pending;
    if out.Matched? {
      var i := FirstMatch(p, c.cmd, s.d.txn);
      FirstFinalTail(p, i, s.d.txn);
      StaysIn(p, i, s.d.txn);
    } else {
      FirstFinalTail(p, |p| - |own.pending|, s.d.txn);
    }
  }

  /** The events from position n on are silent. */
  ghost predicate SilentFrom(t: seq<Event>, n: nat)
  {
    n <= |t| && Silent(t[n..])
  }

  /** What a recv that does not settle leaves: the response, the dialog, and a silent trace. */
  lemma RecvKeepsFinal(s: State, c: Command)
    requires c.Recv? && !c.toMain && FinalWaits(s.own.pending, s.d.txn) && !Settles(s, c)
    ensures var s' := Do(s, c).1;
            && FinalWaits(s'.own.pending, s.d.txn) && s'.own.taken == s.own.taken && s'.d == s.d
            && s.trace <= s'.trace && SilentFrom(s'.trace, |s.trace|)
  {
    hide LoopRun, FinalNow, Settles, FinalWaits;
    if c.cmd.optional {
      OptionalKeepsFinal(s, c);
    } else {
      MandatoryKeepsFinal(s, c);
    }
    var events := OutcomeOf(s, c).2;
    var s' := Do(s, c).1;
    var n := |s.trace|;
    assert s'.trace[n..] == [RecvBegin(c.cmd, c.toMain, c.udp)] + events
        || s'.trace[n..] == [RecvBegin(c.cmd, c.toMain, c.udp)] + events + [RecvDone(c.cmd.recvResp != "")];
  }

  lemma SilentMore(a: seq<Event>, b: seq<Event>, n: nat)
    requires a <= b && SilentFrom(a, n) && SilentFrom(b, |a|)
    ensures SilentFrom(b, n)
  {
    assert b[n..] == a[n..] + b[|a|..];
  }

  /** Once a final response of the current transaction waits in the queue, any run of recvs without a
      send and without the _unexp.main label leaves it waiting, reads nothing from the network and
      retransmits nothing, until a recv takes such a response or a mandatory recv aborts on it. */
  lemma {:induction false} FinalIsNeverIgnored(s: State, cs: seq<Command>)
    requires forall i :: 0 <= i < |cs| ==> cs[i].Recv? && !cs[i].toMain
    requires FinalWaits(s.own.pending, s.d.txn)
    ensures SettlesWithin(s, cs)
            || (var s' := Run(s, cs);
                && FinalWaits(s'.own.pending, s.d.txn) && s'.own.taken == s.own.taken && s'.d == s.d
                && s.trace <= s'.trace && SilentFrom(s'.trace, |s.trace|))
    decreases |cs|
  {
    hide Do, Settles, FinalWaits, SilentFrom;
    if cs == [] {
      assert SilentFrom(s.trace, |s.trace|) by { NothingSilent(s.trace); }
    } else if !Settles(s, cs[0]) {
      RecvKeepsFinal(s, cs[0]);
      var s1 := Do(s, cs[0]).1;
      if Do(s, cs[0]).0 {
        FinalIsNeverIgnored(s1, cs[1..]);
        if !SettlesWithin(s1, cs[1..]) {
          SilentMore(s1.trace, Run(s1, cs[1..]).trace, |s.trace|);
        }
      }
    }
  }

  lemma NothingSilent(t: seq<Event>)
    ensures SilentFrom(t, |t|)
  {
  }

  // ---------- no retransmission after a final response ----------

  ghost predicate PlainCommand(c: Command)
  {
    c.Recv? ==> Plain(c.cmd, c.toMain) && PlainPasses(c.passes)
  }

  ghost predicate SettledState(s: State)
  {
    && NoneAfterFinal(false, s.trace) && AllWellFormed(s.own.pending)
    && Calm(Settled(false, s.trace), s.lastRetrans, s.own.pending, s.d.txn)
  }

  lemma SettledOne(t: seq<Event>, e: Event)
    ensures Settled(false, t + [e]) == SettledBy(Settled(false, t), e)
    ensures NoneAfterFinal(false, t + [e]) <==> NoneAfterFinal(false, t) && (e.Retransmit? ==> !Settled(false, t))
  {
    SettledOf(false, t, [e]);
    assert [e][1..] == [];
  }

  lemma DoSettles(s: State, c: Command)
    requires SettledState(s) && PlainCommand(c)
    ensures var (more, s') := Do(s, c);
            NoneAfterFinal(false, s'.trace) && (more ==> SettledState(s'))
  {
    hide LoopRun, Plain, AllWellFormed, PlainPasses;
    match c
    case Send(bytes, parsed, _, _) =>
      SettledOne(s.trace, ScenarioSend(bytes, parsed, StoresAck(s.d, parsed)));
    case Recv(cmd, udp, _, _, toMain, passes) =>
      var t := s.trace + [RecvBegin(cmd, toMain, udp)];
      SettledOne(s.trace, RecvBegin(cmd, toMain, udp));
      LoopSettles(Settled(false, t), s.d, WaitOf(s, c), s.own, false, passes, s.lastRetrans);
      var (out, own, events) := OutcomeOf(s, c);
      SettledOf(false, t, events);
      SettledOne(t + events, RecvDone(cmd.recvResp != ""));
  }

  lemma {:induction false} RunSettles(s: State, cs: seq<Command>)
    requires SettledState(s) && forall i :: 0 <= i < |cs| ==> PlainCommand(cs[i])
    ensures NoneAfterFinal(false, Run(s, cs).trace)
    decreases |cs|
  {
    hide Do, PlainCommand;
    if cs != [] {
      DoSettles(s, cs[0]);
      if Do(s, cs[0]).0 {
        RunSettles(Do(s, cs[0]).1, cs[1..]);
      }
    }
  }

  /** An INVITE, and the final response to it with the given status line. */
  const INVITE := Parsed("INVITE", Some("b"), Some(CSeq(1, "INVITE")))

  function FinalFor(line: string): Msg
    requires ParseStart(line).Response?
  {
    Msg(0, line, "", ParseStart(line).status, Some("b"), Some(CSeq(1, "INVITE")))
  }

  function Expiry(retrans: nat): Pass
  {
    Pass(1, NetError(DeadlineExceeded), 1 + retrans, false, true)
  }

  /** The INVITE, the recv that gets the final response, and the same recv again, whose wait runs out once. */
  function Scenario(cmd: RecvCmd, toMain: bool, line: string, retrans: nat, timeout: nat): seq<Command>
    requires ParseStart(line).Response?
  {
    [Send([73], Some(INVITE), retrans, true),
     Recv(cmd, true, 0, timeout, toMain, [Pass(0, Arrived(FinalFor(line)), 0, false, true)]),
     Recv(cmd, true, 1, timeout, toMain, [Expiry(retrans)])]
  }

  lemma RunThree(s: State, cs: seq<Command>)
    requires |cs| == 3
    requires Do(s, cs[0]).0 && Do(Do(s, cs[0]).1, cs[1]).0
    ensures Run(s, cs) == Do(Do(Do(s, cs[0]).1, cs[1]).1, cs[2]).1
  {
    hide Do;
    var s1 := Do(s, cs[0]).1;
    var s2 := Do(s1, cs[1]).1;
    assert cs[1..][1..] == [cs[2]] && [cs[2]][1..] == [];
    assert Run(s1, cs[1..]) == Run(s2, [cs[2]]);
    assert Run(s2, [cs[2]]) == Do(s2, cs[2]).1;
  }

  /** The recv that times out retransmits whatever came before it. */
  lemma ExpiryRetransmits(s: State, cmd: RecvCmd, retrans: nat, timeout: nat, toMain: bool)
    requires 0 < retrans < timeout && s.lastRetrans == retrans && s.own.pending == [] && s.d.lastSent != []
    ensures var c := Recv(cmd, true, 1, timeout, toMain, [Expiry(retrans)]);
            Do(s, c).1.trace == s.trace + [RecvBegin(cmd, toMain, true), LoopPass([], true, false), Retransmit(s.d.lastSent)]
  {
    var c := Recv(cmd, true, 1, timeout, toMain, [Expiry(retrans)]);
    var st := PassStep(s.d, WaitOf(s, c), s.own, false, Expiry(retrans));
    assert st == Step(None, s.own, false, [LoopPass([], true, false), Retransmit(s.d.lastSent)]);
    assert c.passes[1..] == [] && st.events + [] == st.events;
    assert LoopRun(s.d, WaitOf(s, c), s.own, false, []) == (Waiting, s.own, []);
    assert LoopRun(s.d, WaitOf(s, c), s.own, false, c.passes) == (Waiting, s.own, st.events);
  }

  /** The final response gets past the recv. */
  ghost predicate LetsThrough(cmd: RecvCmd, toMain: bool, line: string)
  {
    && FinalLine(line)
    && if Matches(FinalFor(line), cmd, Txn("b", "INVITE", 1)) then cmd.recvResp == "" else toMain
  }

  /** What follows the read of a final response that gets past a recv. */
  ghost function PassedBy(matched: bool, m: Msg): seq<Event>
  {
    if matched then [Took(m, true), RecvDone(false)] else [Unmatched(m, true, true)]
  }

  /** The recv ends, and the call goes on with the timer still armed. */
  lemma FinalPasses(s: State, cmd: RecvCmd, toMain: bool, line: string, retrans: nat, timeout: nat)
    requires LetsThrough(cmd, toMain, line)
    requires s.d.txn == Txn("b", "INVITE", 1) && s.own.pending == [] && s.lastRetrans == retrans
    ensures var c := Recv(cmd, true, 0, timeout, toMain, [Pass(0, Arrived(FinalFor(line)), 0, false, true)]);
            var (more, s') := Do(s, c);
            && more && s'.own.pending == [] && s'.lastRetrans == retrans && s'.d == s.d
            && s'.trace == s.trace + [RecvBegin(cmd, toMain, true)]
                           + ([LoopPass([], true, true)] + PassedBy(Matches(FinalFor(line), cmd, s.d.txn), FinalFor(line)))
  {
    hide Matches, ParseStart, FinalLine;
    LineFacts(line);
    var m := FinalFor(line);
    var c := Recv(cmd, true, 0, timeout, toMain, [Pass(0, Arrived(m), 0, false, true)]);
    FoldInvite();
    assert FinalNow(m, s.d.txn);
    var st := PassStep(s.d, WaitOf(s, c), s.own, false, c.passes[0]);
    if Matches(m, cmd, s.d.txn) {
      assert st.out == Some(Matched(m)) && st.events == [LoopPass([], true, true)] + [Took(m, true)];
      assert Do(s, c).1.trace == s.trace + [RecvBegin(cmd, toMain, true)] + ([LoopPass([], true, true)] + PassedBy(true, m));
    } else {
      assert FateOf(s.d, cmd, m, false, true) == Fate(Diverted, false, false, []);
      assert st.out == Some(Failed(ToMain)) && st.events == [LoopPass([], true, true)] + PassedBy(false, m);
      assert Do(s, c).1.trace == s.trace + [RecvBegin(cmd, toMain, true)] + ([LoopPass([], true, true)] + PassedBy(false, m));
    }
  }

  /** A retransmission right after a final response breaks the promise. */
  lemma LateResend(t: seq<Event>, b: Bytes, begin: Event)
    requires Settled(false, t) && begin.RecvBegin?
    ensures !NoneAfterFinal(false, t + [begin, LoopPass([], true, false), Retransmit(b)])
  {
    var rest := [begin, LoopPass([], true, false), Retransmit(b)];
    SettledOf(false, t, rest);
    assert rest[1..] == [LoopPass([], true, false), Retransmit(b)] && rest[1..][1..] == [Retransmit(b)];
    assert !NoneAfterFinal(true, rest[1..][1..]);
    assert !NoneAfterFinal(true, rest[1..]);
  }

  /** A recv that lets a final response through: for every retransmission interval the INVITE goes out again
      after that response. */
  lemma RetransmitsAfterFinal(cmd: RecvCmd, toMain: bool, line: string, retrans: nat, timeout: nat)
    requires LetsThrough(cmd, toMain, line) && 0 < retrans < timeout
    ensures !NoneAfterFinal(false, Run(START, Scenario(cmd, toMain, line, retrans, timeout)).trace)
  {
    hide LoopRun, NoneAfterFinal, ParseStart, FinalLine, Matches;
    LineFacts(line);
    var cs := Scenario(cmd, toMain, line, retrans, timeout);
    var s1 := Do(START, cs[0]).1;
    FoldInvite();
    assert s1.d.txn == Txn("b", "INVITE", 1);
    FinalPasses(s1, cmd, toMain, line, retrans, timeout);
    var s2 := Do(s1, cs[1]).1;
    ExpiryRetransmits(s2, cmd, retrans, timeout, toMain);
    RunThree(START, cs);
    FinalSettles(s2.trace, s1.trace + [RecvBegin(cmd, toMain, true)], Matches(FinalFor(line), cmd, s1.d.txn), FinalFor(line));
    LateResend(s2.trace, s2.d.lastSent, RecvBegin(cmd, toMain, true));
  }

  lemma FoldInvite()
    ensures EqualFold("INVITE", "INVITE") && EqualFold("b", "b")
  {
  }

  lemma FinalSettles(t: seq<Event>, t1: seq<Event>, matched: bool, m: Msg)
    requires t == t1 + ([LoopPass([], true, true)] + PassedBy(matched, m))
    ensures Settled(false, t)
  {
    var t2 := t1 + [LoopPass([], true, true)];
    SettledOne(t1, LoopPass([], true, true));
    if matched {
      SettledOne(t2, Took(m, true));
      SettledOne(t2 + [Took(m, true)], RecvDone(false));
      assert t == t2 + [Took(m, true)] + [RecvDone(false)];
    } else {
      SettledOne(t2, Unmatched(m, true, true));
      assert t == t2 + [Unmatched(m, true, true)];
    }
  }

  lemma LineFacts(line: string)
    requires FinalLine(line)
    ensures ParseStart(line).Response? && ParseStart(line).status >= 200
    ensures WellFormed(FinalFor(line))
  {
  }

  /** A recv that is not plain lets some final response through. */
  lemma NotPlainLets(cmd: RecvCmd, toMain: bool) returns (line: string)
    requires !Plain(cmd, toMain)
    ensures LetsThrough(cmd, toMain, line)
  {
    hide ParseStart, FinalLine;
    match cmd.regex
    case None =>
      FoldKeepsEmpty(cmd.recvReq);
      line := StatusLine('4', '8', if cmd.want == Some(486) then '7' else '6');
      StatusLineParses('4', '8', if cmd.want == Some(486) then '7' else '6');
    case Some(re) =>
      if toMain && !forall l :: FinalLine(l) ==> re(l) {
        line :| FinalLine(line) && !re(line);
      } else {
        line :| FinalLine(line) && re(line);
      }
      LineFacts(line);
  }

  /** A call whose recvs are all of the given kinds. */
  ghost predicate Drawn(cs: seq<Command>, kinds: seq<(RecvCmd, bool)>)
  {
    forall i :: 0 <= i < |cs| && cs[i].Recv? ==> (cs[i].cmd, cs[i].toMain) in kinds && PlainPasses(cs[i].passes)
  }

  /** Section 17.1.1.2 of RFC 3261 over whole calls: with recvs of these kinds nothing is ever retransmitted
      between a final response and the next send, if and only if all the kinds are plain. */
  lemma FinalStopsRetransmission(kinds: seq<(RecvCmd, bool)>)
    ensures (forall k :: 0 <= k < |kinds| ==> Plain(kinds[k].0, kinds[k].1)) <==>
            (forall cs :: Drawn(cs, kinds) ==> NoneAfterFinal(false, Run(START, cs).trace))
  {
    hide Plain, PlainPasses, NoneAfterFinal, Run, Do;
    if forall k :: 0 <= k < |kinds| ==> Plain(kinds[k].0, kinds[k].1) {
      forall cs: seq<Command> | Drawn(cs, kinds)
        ensures NoneAfterFinal(false, Run(START, cs).trace)
      {
        forall i | 0 <= i < |cs|
          ensures PlainCommand(cs[i])
        {
          if cs[i].Recv? {
            var k :| 0 <= k < |kinds| && kinds[k] == (cs[i].cmd, cs[i].toMain);
          }
        }
        StartSettled();
        RunSettles(START, cs);
      }
    } else {
      var k :| 0 <= k < |kinds| && !Plain(kinds[k].0, kinds[k].1);
      var line := NotPlainLets(kinds[k].0, kinds[k].1);
      ScenarioDrawn(kinds, k, line);
      RetransmitsAfterFinal(kinds[k].0, kinds[k].1, line, 1, 2);
    }
  }

  lemma StartSettled()
    ensures SettledState(START)
  {
  }

  lemma ScenarioDrawn(kinds: seq<(RecvCmd, bool)>, k: nat, line: string)
    requires k < |kinds| && FinalLine(line)
    ensures Drawn(Scenario(kinds[k].0, kinds[k].1, line, 1, 2), kinds)
  {
    hide ParseStart, FinalLine, WellFormed;
    LineFacts(line);
    assert kinds[k] == (kinds[k].0, kinds[k].1);
  }
}
