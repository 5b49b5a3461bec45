/**
 What a call answers of its own accord: 200 OK to a BYE that no recv wanted
 (section 15.1.2 of RFC 3261) and the stored ACK to a 200 that comes again
 (section 13.2.2.4). What is owed is read off the trace alone.
 */
module SipAnswers {
  import opened Common
  import opened SipReceive
  import opened SipOwnership
  import opened SipCall

  // ---------- the dialog, read off the trace ----------

  predicate SentAs(e: Event, meth: string)
  {
    e.ScenarioSend? && e.parsed.Some? && EqualFold(e.parsed.value.meth, meth)
  }

  /** The branch of the last message sent that had one. */
  function LastBranch(t: seq<Event>): string
  {
    if t == [] then ""
    else
      var n := |t| - 1;
      if t[n].ScenarioSend? && t[n].parsed.Some? && t[n].parsed.value.branch.Some? then t[n].parsed.value.branch.value
      else LastBranch(t[..n])
  }

  /** The CSeq of the last message sent that had one. */
  function LastCSeq(t: seq<Event>): CSeq
  {
    if t == [] then CSeq(0, "")
    else
      var n := |t| - 1;
      if t[n].ScenarioSend? && t[n].parsed.Some? && t[n].parsed.value.cseq.Some? then t[n].parsed.value.cseq.value
      else LastCSeq(t[..n])
  }

  function LastBytes(t: seq<Event>): Bytes
  {
    if t == [] then [] else if t[|t| - 1].ScenarioSend? then t[|t| - 1].bytes else LastBytes(t[..|t| - 1])
  }

  /** The branch that the last INVITE went out with. */
  function InviteBranch(t: seq<Event>): string
  {
    if t == [] then "" else if SentAs(t[|t| - 1], "INVITE") then LastBranch(t) else InviteBranch(t[..|t| - 1])
  }

  /** The last ACK sent after an INVITE with a branch. */
  function StoredAck(t: seq<Event>): Bytes
  {
    if t == [] then []
    else
      var n := |t| - 1;
      if SentAs(t[n], "ACK") && InviteBranch(t[..n]) != "" then t[n].bytes else StoredAck(t[..n])
  }

  function Talked(t: seq<Event>): Dialog
  {
    Dialog(Txn(LastBranch(t), LastCSeq(t).meth, LastCSeq(t).num), LastBytes(t), StoredAck(t), InviteBranch(t))
  }

  lemma TalkedOne(t: seq<Event>, e: Event)
    ensures Talked(t + [e]) == if e.ScenarioSend? then AfterSend(Talked(t), e.bytes, e.parsed) else Talked(t)
  {
    assert (t + [e])[..|t|] == t;
    assert !(SentAs(e, "INVITE") && SentAs(e, "ACK"));
  }

  ghost predicate NoSends(es: seq<Event>)
  {
    forall i :: 0 <= i < |es| ==> !es[i].ScenarioSend?
  }

  lemma {:induction false} TalkedOn(t: seq<Event>, es: seq<Event>)
    requires NoSends(es)
    ensures Talked(t + es) == Talked(t)
  {
    hide Talked;
    if es == [] {
      assert t + es == t;
    } else {
      var n := |es| - 1;
      TalkedOn(t, es[..n]);
      assert t + es == (t + es[..n]) + [es[n]];
      TalkedOne(t + es[..n], es[n]);
    }
  }

  // ---------- what is owed ----------

  /** A response that belongs to another transaction than the current one. */
  predicate OtherTransaction(m: Msg, txn: Txn)
  {
    && m.status > 0 && txn.branch != "" && m.branch.Some?
    && (Lower(m.branch.value) == Lower(txn.branch) ==>
          txn.meth != "" && m.cseq.Some? && Lower(m.cseq.value.meth) != Lower(txn.meth))
  }

  /** The 200 of the INVITE, come again after its ACK. */
  predicate WantsAck(d: Dialog, m: Msg)
  {
    && m.status == 200 && d.inviteAck != [] && d.inviteBranch != "" && OtherTransaction(m, d.txn)
    && Lower(m.branch.value) == Lower(d.inviteBranch)
  }

  /** What a message that its recv did not want is answered with. */
  function Answer(d: Dialog, m: Msg): seq<Event>
  {
    if m.meth == "BYE" && m.status == 0 then [Reply(m)]
    else if WantsAck(d, m) then [AckResend(d.inviteAck)]
    else []
  }

  /** The answers owed for the unwanted messages of a trace, in order. */
  function Owed(t: seq<Event>): seq<Event>
  {
    if t == [] then []
    else
      var n := |t| - 1;
      Owed(t[..n]) + if t[n].Unmatched? then Answer(Talked(t[..n]), t[n].m) else []
  }

  /** The answers sent in a trace, in order. */
  function Given(t: seq<Event>): seq<Event>
  {
    if t == [] then []
    else
      var n := |t| - 1;
      Given(t[..n]) + if t[n].Reply? || t[n].AckResend? then [t[n]] else []
  }

  /** The answers owed for events of one recv. */
  function OwedBy(d: Dialog, t: seq<Event>): seq<Event>
  {
    if t == [] then []
    else
      var n := |t| - 1;
      OwedBy(d, t[..n]) + if t[n].Unmatched? then Answer(d, t[n].m) else []
  }

  lemma {:induction false} OwedOn(t: seq<Event>, es: seq<Event>)
    requires NoSends(es)
    ensures Owed(t + es) == Owed(t) + OwedBy(Talked(t), es)
  {
    hide Talked, Answer;
    if es == [] {
      assert t + es == t;
    } else {
      var n := |es| - 1;
      OwedOn(t, es[..n]);
      TalkedOn(t, es[..n]);
      assert (t + es)[..|t + es| - 1] == t + es[..n];
    }
  }

  lemma {:induction false} OwedByOf(d: Dialog, a: seq<Event>, b: seq<Event>)
    ensures OwedBy(d, a + b) == OwedBy(d, a) + OwedBy(d, b)
  {
    hide Answer;
    if b == [] {
      assert a + b == a;
    } else {
      var n := |b| - 1;
      OwedByOf(d, a, b[..n]);
      assert (a + b)[..|a| + n] == a + b[..n] && (a + b)[|a| + n] == b[n];
    }
  }

  lemma {:induction false} GivenOf(a: seq<Event>, b: seq<Event>)
    ensures Given(a + b) == Given(a) + Given(b)
  {
    if b == [] {
      assert a + b == a;
    } else {
      GivenOf(a, b[..|b| - 1]);
      assert (a + b)[..|a + b| - 1] == a + b[..|b| - 1];
    }
  }

  // ---------- one recv ----------

  /** The callback sends what is owed, whatever the recv waits for and wherever the message comes from. */
  lemma FateAnswers(d: Dialog, cmd: RecvCmd, m: Msg, fromPending: bool, toMain: bool)
    requires !Matches(m, cmd, d.txn) && !(fromPending && cmd.optional)
    ensures FateOf(d, cmd, m, fromPending, toMain).sends == Answer(d, m)
  {
  }

  ghost predicate Square(d: Dialog, es: seq<Event>)
  {
    NoSends(es) && Given(es) == OwedBy(d, es)
  }

  lemma SquareOf(d: Dialog, a: seq<Event>, b: seq<Event>)
    requires Square(d, a) && Square(d, b)
    ensures Square(d, a + b)
  {
    hide Given, OwedBy;
    GivenOf(a, b);
    OwedByOf(d, a, b);
  }

  lemma SquareOne(d: Dialog, e: Event)
    requires !e.ScenarioSend? && !e.Unmatched? && !e.Reply? && !e.AckResend?
    ensures Square(d, [e])
  {
    assert [e][..0] == [];
  }

  lemma UnmatchedSquare(d: Dialog, m: Msg, news: bool, final: bool)
    ensures Square(d, [Unmatched(m, news, final)] + Answer(d, m))
  {
    hide WantsAck;
    var e, a := Unmatched(m, news, final), Answer(d, m);
    GivenOf([e], a);
    OwedByOf(d, [e], a);
    assert [e][..0] == [];
    if a != [] {
      assert a[..0] == [];
    }
  }

  lemma JudgeSquare(d: Dialog, wt: Wait, own: Own, finalSeen: bool, m: Msg, fromPending: bool)
    requires fromPending && wt.cmd.optional ==> Matches(m, wt.cmd, d.txn)
    ensures Square(d, Judge(d, wt, own, finalSeen, m, fromPending).events)
  {
    hide Matches, FateOf, Answer, FinalNow;
    if !Matches(m, wt.cmd, d.txn) {
      FateAnswers(d, wt.cmd, m, fromPending, wt.toMain);
      UnmatchedSquare(d, m, !fromPending, FinalNow(m, d.txn));
    } else {
      SquareOne(d, Took(m, !fromPending));
    }
  }

  lemma PassSquare(d: Dialog, wt: Wait, own: Own, finalSeen: bool, pass: Pass)
    requires Linear(own, multiset{}) && NoBye(own.pending)
    ensures Square(d, PassStep(d, wt, own, finalSeen, pass).events)
  {
    hide Judge, Take, Linear, NoBye, Square;
    if pass.now <= wt.t0 + wt.timeout {
      var e := Began(d, wt, own, pass);
      SquareOne(d, e);
      TakeOwns(wt.cmd, d.txn, own, pass.net);
      var (r, own') := Take(wt.cmd, d.txn, own, pass.net);
      if r.Got? {
        JudgeSquare(d, wt, own', finalSeen, r.m, r.fromPending);
        SquareOf(d, [e], Judge(d, wt, own', finalSeen, r.m, r.fromPending).events);
      } else {
        SquareOne(d, Retransmit(d.lastSent));
        SquareOf(d, [e], [Retransmit(d.lastSent)]);
      }
    } else {
      NoneSquare(d);
    }
  }

  lemma NoneSquare(d: Dialog)
    ensures Square(d, [])
  {
  }

  lemma {:induction false} LoopSquare(d: Dialog, wt: Wait, own: Own, finalSeen: bool, passes: seq<Pass>)
    requires Linear(own, multiset{}) && NoBye(own.pending)
    ensures Square(d, LoopRun(d, wt, own, finalSeen, passes).2)
    decreases |passes|
  {
    hide PassStep, Linear, NoBye, Square;
    if passes == [] {
      NoneSquare(d);
    } else {
      PassSquare(d, wt, own, finalSeen, passes[0]);
      PassOwns(d, wt, own, finalSeen, passes[0]);
      var st := PassStep(d, wt, own, finalSeen, passes[0]);
      if st.out.None? {
        LoopSquare(d, wt, st.own, st.finalSeen, passes[1..]);
        SquareOf(d, st.events, LoopRun(d, wt, st.own, st.finalSeen, passes[1..]).2);
      }
    }
  }

  // ---------- which messages were answered ----------

  /** How often message x was answered as a BYE. */
  ghost function Replies(t: seq<Event>, x: Msg): nat
  {
    if t == [] then 0 else Replies(t[..|t| - 1], x) + if t[|t| - 1] == Reply(x) then 1 else 0
  }

  /** How often a recv looked at message x and did not want it. */
  ghost function Looks(t: seq<Event>, x: Msg): nat
  {
    if t == [] then 0 else Looks(t[..|t| - 1], x) + if t[|t| - 1].Unmatched? && t[|t| - 1].m == x then 1 else 0
  }

  lemma {:induction false} RepliesOf(a: seq<Event>, b: seq<Event>, x: Msg)
    ensures Replies(a + b, x) == Replies(a, x) + Replies(b, x)
  {
    if b == [] {
      assert a + b == a;
    } else {
      RepliesOf(a, b[..|b| - 1], x);
      assert (a + b)[..|a + b| - 1] == a + b[..|b| - 1];
    }
  }

  lemma {:induction false} LooksOf(a: seq<Event>, b: seq<Event>, x: Msg)
    ensures Looks(a + b, x) == Looks(a, x) + Looks(b, x)
  {
    if b == [] {
      assert a + b == a;
    } else {
      LooksOf(a, b[..|b| - 1], x);
      assert (a + b)[..|a + b| - 1] == a + b[..|b| - 1];
    }
  }

  lemma CountOne(e: Event, x: Msg)
    ensures Replies([e], x) == if e == Reply(x) then 1 else 0
    ensures Looks([e], x) == if e.Unmatched? && e.m == x then 1 else 0
  {
    assert [e][..0] == [];
  }

  /** What the queue and the pool together hold of message x. */
  ghost function Parked(own: Own, x: Msg): nat
  {
    multiset(own.pending)[x] + own.released[x]
  }

  /** A BYE x was matched or answered as often as it was taken, and nothing but a BYE was answered so; a message
      in the queue or the pool had been looked at. `held` counts x in the matcher's hands, fresh from the
      network. */
  ghost predicate Accounted(own: Own, held: nat, t: seq<Event>, x: Msg)
  {
    && (if IsBye(x) then own.taken[x] == held + multiset(own.deferred)[x] + Replies(t, x) else Replies(t, x) == 0)
    && Parked(own, x) <= Looks(t, x)
  }

  ghost function One(m: Msg, x: Msg): nat
  {
    if m == x then 1 else 0
  }

  lemma TakeCounts(cmd: RecvCmd, txn: Txn, own: Own, net: Net, x: Msg)
    ensures var (r, own') := Take(cmd, txn, own, net);
            && own'.released == own.released && own'.deferred == own.deferred
            && (r.Got? && r.fromPending ==>
                  && r.m in own.pending && own'.taken == own.taken
                  && multiset(own'.pending)[x] + One(r.m, x) == multiset(own.pending)[x])
            && (r.Got? && !r.fromPending ==>
                  own'.pending == own.pending && own'.taken[x] == own.taken[x] + One(r.m, x))
            && (r.NotGot? ==> own' == own)
  {
    hide ReadsNet, FirstMatch;
    var p := own.pending;
    var (r, own') := Take(cmd, txn, own, net);
    if r.Got? && r.fromPending {
      var i := if cmd.optional then FirstMatch(p, cmd, txn) else 0;
      assert (multiset(Without(p, i)) + multiset{p[i]})[x] == multiset(p)[x];
    }
  }

  lemma TakeAccounted(cmd: RecvCmd, txn: Txn, own: Own, net: Net, t: seq<Event>, e: Event, x: Msg)
    requires Accounted(own, 0, t, x) && !e.Reply? && !e.Unmatched?
    ensures var (r, own') := Take(cmd, txn, own, net);
            Accounted(own', if r.Got? && !r.fromPending then One(r.m, x) else 0, t + [e], x)
  {
    hide IsBye, Take, Replies, Looks;
    var (r, own') := Take(cmd, txn, own, net);
    TakeCounts(cmd, txn, own, net, x);
    RepliesOf(t, [e], x);
    LooksOf(t, [e], x);
    CountOne(e, x);
    assert Parked(own', x) <= Looks(t + [e], x);
    assert Replies(t + [e], x) == Replies(t, x);
    assert own'.deferred == own.deferred;
    assert IsBye(x) ==> own'.taken[x] == (if r.Got? && !r.fromPending then One(r.m, x) else 0) + own.taken[x];
  }

  lemma AnswerCounts(d: Dialog, m: Msg, news: bool, final: bool, x: Msg)
    ensures var es := [Unmatched(m, news, final)] + Answer(d, m);
            Replies(es, x) == (if IsBye(m) then One(m, x) else 0) && Looks(es, x) == One(m, x)
  {
    hide WantsAck;
    var e, a := Unmatched(m, news, final), Answer(d, m);
    RepliesOf([e], a, x);
    LooksOf([e], a, x);
    CountOne(e, x);
    if a != [] {
      assert a == [a[0]];
      CountOne(a[0], x);
    }
  }

  /** Where a message goes that is not wanted. */
  lemma JudgeParks(d: Dialog, wt: Wait, own: Own, finalSeen: bool, m: Msg, fromPending: bool, x: Msg)
    requires !Matches(m, wt.cmd, d.txn) && !(fromPending && wt.cmd.optional)
    ensures var st := Judge(d, wt, own, finalSeen, m, fromPending);
            && st.own.taken == own.taken && st.own.deferred == own.deferred && !(st.out.Some? && st.out.value.Matched?)
            && Parked(st.own, x) == Parked(own, x) + One(m, x)
            && st.events == [Unmatched(m, !fromPending, FinalNow(m, d.txn))] + Answer(d, m)
  {
    hide Matches, FateOf, Answer, FinalNow;
    FateAnswers(d, wt.cmd, m, fromPending, wt.toMain);
    FateOwns(d, wt.cmd, m, fromPending, wt.toMain);
    assert multiset(own.pending + [m]) == multiset(own.pending) + multiset{m};
  }

  lemma JudgeAccounted(d: Dialog, wt: Wait, own: Own, finalSeen: bool, m: Msg, fromPending: bool, t: seq<Event>, x: Msg)
    requires fromPending ==> !IsBye(m) && (wt.cmd.optional ==> Matches(m, wt.cmd, d.txn))
    requires Accounted(own, if fromPending then 0 else One(m, x), t, x)
    ensures var st := Judge(d, wt, own, finalSeen, m, fromPending);
            if st.out.Some? && st.out.value.Matched?
            then st.out.value.m == m && Accounted(st.own, One(m, x), t + st.events, x)
            else Accounted(st.own, 0, t + st.events, x)
  {
    hide Matches, Answer, FinalNow, IsBye, Replies, Looks, Parked;
    var st := Judge(d, wt, own, finalSeen, m, fromPending);
    if Matches(m, wt.cmd, d.txn) {
      QuietAccounted(own, t, Took(m, !fromPending), if fromPending then 0 else One(m, x), x);
    } else {
      JudgeParks(d, wt, own, finalSeen, m, fromPending, x);
      AnswerCounts(d, m, !fromPending, FinalNow(m, d.txn), x);
      RepliesOf(t, st.events, x);
      LooksOf(t, st.events, x);
    }
  }

  ghost function HeldOf(out: Option<Outcome>, x: Msg): nat
  {
    if out.Some? && out.value.Matched? then One(out.value.m, x) else 0
  }

  lemma PassAccounted(d: Dialog, wt: Wait, own: Own, finalSeen: bool, pass: Pass, t: seq<Event>, x: Msg)
    requires Accounted(own, 0, t, x) && Linear(own, multiset{}) && NoBye(own.pending)
    ensures var st := PassStep(d, wt, own, finalSeen, pass);
            Accounted(st.own, HeldOf(st.out, x), t + st.events, x)
  {
    hide Judge, Take, Linear, Matches, IsBye, Accounted;
    var st := PassStep(d, wt, own, finalSeen, pass);
    if pass.now > wt.t0 + wt.timeout {
      assert t + st.events == t;
    } else {
      var e := Began(d, wt, own, pass);
      TakeOwns(wt.cmd, d.txn, own, pass.net);
      TakeCounts(wt.cmd, d.txn, own, pass.net, x);
      TakeAccounted(wt.cmd, d.txn, own, pass.net, t, e, x);
      var (r, own') := Take(wt.cmd, d.txn, own, pass.net);
      if r.Got? {
        JudgeAccounted(d, wt, own', finalSeen, r.m, r.fromPending, t + [e], x);
        assert t + st.events == t + [e] + Judge(d, wt, own', finalSeen, r.m, r.fromPending).events;
      } else if st.events == [e] + [Retransmit(d.lastSent)] {
        QuietAccounted(own', t + [e], Retransmit(d.lastSent), 0, x);
        assert t + st.events == t + [e] + [Retransmit(d.lastSent)];
      }
    }
  }

  lemma QuietAccounted(own: Own, t: seq<Event>, e: Event, held: nat, x: Msg)
    requires Accounted(own, held, t, x) && !e.Reply? && !e.Unmatched?
    ensures Accounted(own, held, t + [e], x)
  {
    RepliesOf(t, [e], x);
    LooksOf(t, [e], x);
    CountOne(e, x);
  }

  lemma {:induction false} LoopAccounted(d: Dialog, wt: Wait, own: Own, finalSeen: bool, passes: seq<Pass>,
                                         t: seq<Event>, x: Msg)
    requires Accounted(own, 0, t, x) && Linear(own, multiset{}) && NoBye(own.pending)
    ensures var r := LoopRun(d, wt, own, finalSeen, passes);
            Accounted(r.1, HeldOf(Some(r.0), x), t + r.2, x)
    decreases |passes|
  {
    hide PassStep, Linear, NoBye, Accounted;
    if passes == [] {
      assert t + [] == t;
    } else {
      PassAccounted(d, wt, own, finalSeen, passes[0], t, x);
      PassOwns(d, wt, own, finalSeen, passes[0]);
      var st := PassStep(d, wt, own, finalSeen, passes[0]);
      if st.out.None? {
        LoopAccounted(d, wt, st.own, st.finalSeen, passes[1..], t + st.events, x);
        var rest := LoopRun(d, wt, st.own, st.finalSeen, passes[1..]).2;
        assert t + (st.events + rest) == t + st.events + rest;
      }
    }
  }

  // ---------- whole runs ----------

  /** The dialog is what the trace tells, and every answer owed was given, once and in order. */
  ghost predicate Paid(s: State)
  {
    && Linear(s.own, multiset{}) && NoBye(s.own.pending)
    && Talked(s.trace) == s.d && Given(s.trace) == Owed(s.trace)
    && forall x :: Accounted(s.own, 0, s.trace, x)
  }

  lemma SendPays(s: State, c: Command)
    requires Paid(s) && c.Send?
    ensures Paid(Do(s, c).1)
  {
    hide Linear, NoBye, AfterSend, Talked, Accounted, StoresAck;
    var e := ScenarioSend(c.bytes, c.parsed, StoresAck(s.d, c.parsed));
    TalkedOne(s.trace, e);
    assert (s.trace + [e])[..|s.trace|] == s.trace;
    forall x
      ensures Accounted(s.own, 0, s.trace + [e], x)
    {
      QuietAccounted(s.own, s.trace, e, 0, x);
    }
  }

  lemma SquareOn(t: seq<Event>, es: seq<Event>)
    requires Given(t) == Owed(t) && Square(Talked(t), es)
    ensures Given(t + es) == Owed(t + es) && Talked(t + es) == Talked(t)
  {
    hide Talked, Given, Owed, OwedBy;
    GivenOf(t, es);
    OwedOn(t, es);
    TalkedOn(t, es);
  }

  lemma MatchedAccounted(own: Own, t: seq<Event>, m: Msg, e: Event, x: Msg)
    requires Accounted(own, One(m, x), t, x) && !e.Reply? && !e.Unmatched?
    ensures Accounted(own.(deferred := own.deferred + [m]), 0, t + [e], x)
  {
    QuietAccounted(own, t, e, One(m, x), x);
    assert multiset(own.deferred + [m]) == multiset(own.deferred) + multiset{m};
  }

  /** The trace of a recv is that of its loop between two quiet events. */
  lemma RecvSquare(s: State, c: Command)
    requires Paid(s) && c.Recv?
    ensures var t := Do(s, c).1.trace; Talked(t) == s.d && Given(t) == Owed(t)
  {
    hide Linear, NoBye, LoopRun, Accounted, Square, Talked, Given, Owed;
    var (out, own, events) := OutcomeOf(s, c);
    var first, last := RecvBegin(c.cmd, c.toMain, c.udp), RecvDone(c.cmd.recvResp != "");
    LoopSquare(s.d, WaitOf(s, c), s.own, false, c.passes);
    SquareOne(s.d, first);
    SquareOne(s.d, last);
    SquareOn(s.trace, [first]);
    SquareOn(s.trace + [first], events);
    SquareOn(s.trace + [first] + events, [last]);
  }

  lemma RecvAccounted(s: State, c: Command, x: Msg)
    requires Paid(s) && c.Recv?
    ensures var s' := Do(s, c).1; Accounted(s'.own, 0, s'.trace, x)
  {
    hide Linear, NoBye, LoopRun, Accounted, Talked, Given, Owed;
    var (out, own, events) := OutcomeOf(s, c);
    var first, last := RecvBegin(c.cmd, c.toMain, c.udp), RecvDone(c.cmd.recvResp != "");
    QuietAccounted(s.own, s.trace, first, 0, x);
    LoopAccounted(s.d, WaitOf(s, c), s.own, false, c.passes, s.trace + [first], x);
    if out.Matched? {
      MatchedAccounted(own, s.trace + [first] + events, out.m, last, x);
    }
  }

  lemma DoPays(s: State, c: Command)
    requires Paid(s)
    ensures Paid(Do(s, c).1)
  {
    hide Linear, NoBye, Accounted, Talked, Given, Owed, Do;
    if c.Send? {
      SendPays(s, c);
    } else {
      var s' := Do(s, c).1;
      DoOwns(s, c);
      RecvSquare(s, c);
      RecvKeepsDialog(s, c);
      forall x
        ensures Accounted(s'.own, 0, s'.trace, x)
      {
        RecvAccounted(s, c, x);
      }
    }
  }

  lemma RecvKeepsDialog(s: State, c: Command)
    requires c.Recv?
    ensures Do(s, c).1.d == s.d
  {
    hide LoopRun;
  }

  lemma {:induction false} RunPays(s: State, cs: seq<Command>)
    requires Paid(s)
    ensures Paid(Run(s, cs))
    decreases |cs|
  {
    hide Paid, Do;
    if cs != [] {
      DoPays(s, cs[0]);
      if Do(s, cs[0]).0 {
        RunPays(Do(s, cs[0]).1, cs[1..]);
      }
    }
  }

  /** In every run the answers given are exactly those owed, in order: 200 OK for each unwanted BYE and the stored
      ACK for each unwanted 200 that comes again. */
  lemma EveryAnswerIsGiven(cs: seq<Command>)
    ensures var t := Run(START, cs).trace; Given(t) == Owed(t) && Talked(t) == Run(START, cs).d
  {
    hide Run;
    StartPaid();
    RunPays(START, cs);
  }

  /** In every run each BYE taken from the mailbox was matched by a recv or answered, and that once. */
  lemma EveryByeIsAnswered(cs: seq<Command>, x: Msg)
    ensures var s := Run(START, cs);
            && (IsBye(x) ==> s.own.taken[x] == multiset(s.own.deferred)[x] + Replies(s.trace, x))
            && (!IsBye(x) ==> Replies(s.trace, x) == 0)
  {
    hide Run;
    StartPaid();
    RunPays(START, cs);
    assert Accounted(Run(START, cs).own, 0, Run(START, cs).trace, x);
  }

  /** No message is dropped unseen: what was taken was matched, or a recv looked at it. */
  lemma NothingDroppedUnseen(cs: seq<Command>, x: Msg)
    ensures var s := Run(START, cs); s.own.taken[x] <= multiset(s.own.deferred)[x] + Looks(s.trace, x)
  {
    hide Run;
    StartPaid();
    RunPays(START, cs);
    var s := Run(START, cs);
    assert Accounted(s.own, 0, s.trace, x);
    assert s.own.taken[x] == multiset(s.own.deferred)[x] + Parked(s.own, x);
  }

  lemma StartPaid()
    ensures Paid(START)
  {
  }
}
