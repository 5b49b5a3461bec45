/**
 What the recvs of a call make of the messages they look at: which they take,
 which wait for a later recv and in which order, and which are dropped. All of
 it is read off the trace.
 */
module SipVerdicts {
  import opened Common
  import opened SipReceive
  import opened SipOwnership
  import opened SipCall
  import opened SipAnswers

  /** The recv that a trace stands in. */
  function Current(t: seq<Event>): (r: Option<Event>)
    ensures r.Some? ==> r.value.RecvBegin?
  {
    if t == [] then None else if t[|t| - 1].RecvBegin? then Some(t[|t| - 1]) else Current(t[..|t| - 1])
  }

  /** What a recv waits for: a start line that its regexp takes, a request by its method, or a response by its status
      code that belongs to the last CSeq sent, as far as both are known. */
  ghost predicate Fits(m: Msg, cmd: RecvCmd, last: CSeq)
  {
    if cmd.regex.Some? then cmd.regex.value(m.startLine)
    else if cmd.recvReq != "" then Lower(m.meth) == Lower(cmd.recvReq)
    else
      && cmd.recvResp != "" && cmd.want == Some(m.status)
      && (last.meth != "" && m.cseq.Some? ==>
            m.cseq.value.num == last.num && Lower(m.cseq.value.meth) == Lower(last.meth))
  }

  /** Whether a new message that its recv does not want is dropped at once: an answered BYE, a response of another
      transaction, a provisional one, anything if there is the label, and a final one that ends the call. */
  ghost predicate Leaves(txn: Txn, toMain: bool, optional: bool, m: Msg)
  {
    || (m.meth == "BYE" && m.status == 0) || OtherTransaction(m, txn) || 0 < m.status < 200
    || toMain || (!optional && m.status >= 200)
  }

  function RemoveFirst(q: seq<Msg>, m: Msg): seq<Msg>
  {
    if q == [] then [] else if q[0] == m then q[1..] else [q[0]] + RemoveFirst(q[1..], m)
  }

  ghost function QueueBy(t: seq<Event>, q: seq<Msg>, e: Event): seq<Msg>
  {
    match e
    case Unmatched(m, news, _) =>
      if !news then RemoveFirst(q, m)
      else if Current(t).Some? && Leaves(Talked(t).txn, Current(t).value.toMain, Current(t).value.cmd.optional, m) then q
      else q + [m]
    case Took(m, news) => if news then q else RemoveFirst(q, m)
    case _ => q
  }

  /** The messages that wait after a trace: those put off, in the order they came, but those taken or dropped since. */
  ghost function Queue(t: seq<Event>): seq<Msg>
  {
    if t == [] then [] else QueueBy(t[..|t| - 1], Queue(t[..|t| - 1]), t[|t| - 1])
  }

  /** Whether the event is right after the trace: a recv takes what it waits for and nothing else, and passes begin with
      the queue that the trace tells. */
  ghost predicate Right(t: seq<Event>, e: Event)
  {
    match e
    case LoopPass(p, _, _) => p == Queue(t)
    case Unmatched(m, _, _) => Current(t).Some? && !Fits(m, Current(t).value.cmd, LastCSeq(t))
    case Took(m, _) => Current(t).Some? && Fits(m, Current(t).value.cmd, LastCSeq(t))
    case _ => true
  }

  ghost predicate AllRight(t: seq<Event>)
  {
    t != [] ==> AllRight(t[..|t| - 1]) && Right(t[..|t| - 1], t[|t| - 1])
  }

  lemma OneMore(t: seq<Event>, e: Event)
    ensures AllRight(t + [e]) <==> AllRight(t) && Right(t, e)
    ensures Queue(t + [e]) == QueueBy(t, Queue(t), e)
    ensures Current(t + [e]) == if e.RecvBegin? then Some(e) else Current(t)
  {
    hide Right, QueueBy;
    assert (t + [e])[..|t|] == t;
  }

  // ---------- inside one recv ----------

  /** A trace that stands in the recv `wt`, with the queue `p`. */
  ghost predicate Within(t: seq<Event>, d: Dialog, wt: Wait, p: seq<Msg>)
  {
    && AllRight(t) && Talked(t) == d && Queue(t) == p
    && Current(t).Some?
    && Current(t).value.cmd == wt.cmd && Current(t).value.toMain == wt.toMain
  }

  lemma FitsIs(t: seq<Event>, d: Dialog, wt: Wait, p: seq<Msg>, m: Msg)
    requires Within(t, d, wt, p)
    ensures Fits(m, wt.cmd, LastCSeq(t)) <==> Matches(m, wt.cmd, d.txn)
  {
    hide AllRight, Queue, Lower;
  }

  /** Events that say nothing about messages. */
  lemma Quiet(t: seq<Event>, d: Dialog, wt: Wait, p: seq<Msg>, e: Event)
    requires Within(t, d, wt, p) && (e.Retransmit? || e.Reply? || e.AckResend? || (e.LoopPass? && e.pending == p))
    ensures Within(t + [e], d, wt, p)
  {
    hide AllRight, Queue, Talked;
    OneMore(t, e);
    TalkedOne(t, e);
  }

  lemma {:induction false} RemoveFirstAt(p: seq<Msg>, i: nat)
    requires i < |p| && forall j :: 0 <= j < i ==> p[j] != p[i]
    ensures RemoveFirst(p, p[i]) == Without(p, i)
  {
    if i > 0 {
      assert p[1..][i - 1] == p[i] && forall j :: 0 <= j < i - 1 ==> p[1..][j] == p[j + 1];
      RemoveFirstAt(p[1..], i - 1);
      assert Without(p, i) == [p[0]] + Without(p[1..], i - 1);
    } else {
      assert Without(p, 0) == p[1..];
    }
  }

  /** What the recv does with the queue and a message in its hands; `p` is the queue before it took the message. */
  lemma TookRight(t: seq<Event>, d: Dialog, wt: Wait, p: seq<Msg>, m: Msg, news: bool)
    requires Within(t, d, wt, p) && Matches(m, wt.cmd, d.txn)
    ensures Within(t + [Took(m, news)], d, wt, if news then p else RemoveFirst(p, m))
  {
    hide AllRight, Queue, Talked, Fits, Matches;
    FitsIs(t, d, wt, p, m);
    OneMore(t, Took(m, news));
    TalkedOne(t, Took(m, news));
  }

  lemma UnmatchedRight(t: seq<Event>, d: Dialog, wt: Wait, p: seq<Msg>, m: Msg, news: bool, final: bool)
    requires Within(t, d, wt, p) && !Matches(m, wt.cmd, d.txn)
    ensures Within(t + [Unmatched(m, news, final)], d, wt,
                   if !news then RemoveFirst(p, m)
                   else if Leaves(d.txn, wt.toMain, wt.cmd.optional, m) then p else p + [m])
  {
    hide AllRight, Queue, Talked, Fits, Matches, Leaves;
    FitsIs(t, d, wt, p, m);
    OneMore(t, Unmatched(m, news, final));
    TalkedOne(t, Unmatched(m, news, final));
  }

  /** The callback keeps what does not leave. */
  lemma FateKeeps(d: Dialog, cmd: RecvCmd, m: Msg, fromPending: bool, toMain: bool)
    requires !Matches(m, cmd, d.txn) && !(fromPending && cmd.optional)
    ensures FateOf(d, cmd, m, fromPending, toMain).keep <==> !fromPending && !Leaves(d.txn, toMain, cmd.optional, m)
  {
  }

  /** The answer, if there is one, changes nothing. */
  lemma AnswerQuiet(t: seq<Event>, d: Dialog, wt: Wait, p: seq<Msg>, m: Msg)
    requires Within(t, d, wt, p)
    ensures Within(t + Answer(d, m), d, wt, p)
  {
    hide Within, WantsAck;
    var a := Answer(d, m);
    if a == [] {
      assert t + a == t;
    } else {
      assert a == [a[0]];
      Quiet(t, d, wt, p, a[0]);
    }
  }

  lemma JudgeRight(t: seq<Event>, d: Dialog, wt: Wait, own: Own, finalSeen: bool, m: Msg, fromPending: bool, p: seq<Msg>)
    requires Within(t, d, wt, p) && own.pending == (if fromPending then RemoveFirst(p, m) else p)
    requires fromPending && wt.cmd.optional ==> Matches(m, wt.cmd, d.txn)
    ensures var st := Judge(d, wt, own, finalSeen, m, fromPending);
            Within(t + st.events, d, wt, st.own.pending)
  {
    hide Within, Matches, FateOf, Answer, FinalNow, Leaves, RemoveFirst;
    var st := Judge(d, wt, own, finalSeen, m, fromPending);
    if Matches(m, wt.cmd, d.txn) {
      TookRight(t, d, wt, p, m, !fromPending);
    } else {
      var e := Unmatched(m, !fromPending, FinalNow(m, d.txn));
      UnmatchedRight(t, d, wt, p, m, !fromPending, FinalNow(m, d.txn));
      FateKeeps(d, wt.cmd, m, fromPending, wt.toMain);
      FateAnswers(d, wt.cmd, m, fromPending, wt.toMain);
      AnswerQuiet(t + [e], d, wt, st.own.pending, m);
      assert t + st.events == t + [e] + Answer(d, m);
    }
  }

  /** Taking from the queue takes the first message of its kind. */
  lemma TakeRemoves(cmd: RecvCmd, txn: Txn, own: Own, net: Net)
    ensures var (r, own') := Take(cmd, txn, own, net);
            && own'.pending == (if r.Got? && r.fromPending then RemoveFirst(own.pending, r.m) else own.pending)
            && (r.Got? && r.fromPending && cmd.optional ==> Matches(r.m, cmd, txn))
  {
    hide Matches, HasFinal, RemoveFirst;
    var p := own.pending;
    var i := if cmd.optional then FirstMatch(p, cmd, txn) else 0;
    if i < |p| {
      assert forall j :: 0 <= j < i ==> p[j] != p[i];
      RemoveFirstAt(p, i);
    }
  }

  lemma PassRight(t: seq<Event>, d: Dialog, wt: Wait, own: Own, finalSeen: bool, pass: Pass)
    requires Within(t, d, wt, own.pending)
    ensures var st := PassStep(d, wt, own, finalSeen, pass);
            Within(t + st.events, d, wt, st.own.pending)
  {
    hide Within, Judge, Take, Matches, RemoveFirst;
    var st := PassStep(d, wt, own, finalSeen, pass);
    if pass.now > wt.t0 + wt.timeout {
      assert t + st.events == t;
    } else {
      var e := Began(d, wt, own, pass);
      Quiet(t, d, wt, own.pending, e);
      TakeRemoves(wt.cmd, d.txn, own, pass.net);
      var (r, own') := Take(wt.cmd, d.txn, own, pass.net);
      if r.Got? {
        JudgeRight(t + [e], d, wt, own', finalSeen, r.m, r.fromPending, own.pending);
        assert t + st.events == t + [e] + Judge(d, wt, own', finalSeen, r.m, r.fromPending).events;
      } else if st.events == [e] + [Retransmit(d.lastSent)] {
        Quiet(t + [e], d, wt, own.pending, Retransmit(d.lastSent));
        assert t + st.events == t + [e] + [Retransmit(d.lastSent)];
      }
    }
  }

  lemma {:induction false} LoopRight(t: seq<Event>, d: Dialog, wt: Wait, own: Own, finalSeen: bool, passes: seq<Pass>)
    requires Within(t, d, wt, own.pending)
    ensures var r := LoopRun(d, wt, own, finalSeen, passes);
            Within(t + r.2, d, wt, r.1.pending)
    decreases |passes|
  {
    hide PassStep, Within;
    if passes == [] {
      assert t + [] == t;
    } else {
      PassRight(t, d, wt, own, finalSeen, passes[0]);
      var st := PassStep(d, wt, own, finalSeen, passes[0]);
      if st.out.None? {
        LoopRight(t + st.events, d, wt, st.own, st.finalSeen, passes[1..]);
        var rest := LoopRun(d, wt, st.own, st.finalSeen, passes[1..]).2;
        assert t + (st.events + rest) == t + st.events + rest;
      }
    }
  }

  // ---------- whole runs ----------

  ghost predicate Told(s: State)
  {
    AllRight(s.trace) && Talked(s.trace) == s.d && Queue(s.trace) == s.own.pending
  }

  lemma SendTold(s: State, c: Command)
    requires Told(s) && c.Send?
    ensures Told(Do(s, c).1)
  {
    hide AllRight, Queue, Talked, AfterSend, StoresAck;
    var e := ScenarioSend(c.bytes, c.parsed, StoresAck(s.d, c.parsed));
    OneMore(s.trace, e);
    TalkedOne(s.trace, e);
  }

  lemma BeginWithin(s: State, c: Command)
    requires Told(s) && c.Recv?
    ensures Within(s.trace + [RecvBegin(c.cmd, c.toMain, c.udp)], s.d, WaitOf(s, c), s.own.pending)
  {
    hide AllRight, Queue, Talked;
    var e := RecvBegin(c.cmd, c.toMain, c.udp);
    OneMore(s.trace, e);
    TalkedOne(s.trace, e);
  }

  lemma RecvTold(s: State, c: Command)
    requires Told(s) && c.Recv?
    ensures Told(Do(s, c).1)
  {
    hide AllRight, Queue, Talked, LoopRun;
    var begin, done := RecvBegin(c.cmd, c.toMain, c.udp), RecvDone(c.cmd.recvResp != "");
    var (out, own, events) := OutcomeOf(s, c);
    BeginWithin(s, c);
    LoopRight(s.trace + [begin], s.d, WaitOf(s, c), s.own, false, c.passes);
    OneMore(s.trace + [begin] + events, done);
    TalkedOne(s.trace + [begin] + events, done);
  }

  lemma {:induction false} RunTold(s: State, cs: seq<Command>)
    requires Told(s)
    ensures Told(Run(s, cs))
    decreases |cs|
  {
    hide Told, Do;
    if cs != [] {
      if cs[0].Send? {
        SendTold(s, cs[0]);
      } else {
        RecvTold(s, cs[0]);
      }
      if Do(s, cs[0]).0 {
        RunTold(Do(s, cs[0]).1, cs[1..]);
      }
    }
  }

  /** In every run a recv takes exactly what it waits for, and the queue is exactly what the trace tells: the messages put
      off, in the order they came, without those taken or dropped since. */
  lemma EveryVerdictIsRight(cs: seq<Command>)
    ensures var s := Run(START, cs); AllRight(s.trace) && Queue(s.trace) == s.own.pending
  {
    hide Run;
    RunTold(START, cs);
  }

  /** What can wait: never a provisional response, never a BYE. */
  lemma {:induction false} OnlyThese(t: seq<Event>)
    requires AllRight(t)
    ensures forall m :: m in Queue(t) ==> !(0 < m.status < 200) && !(m.meth == "BYE" && m.status == 0)
  {
    hide Right;
    if t != [] {
      var n := |t| - 1;
      OnlyThese(t[..n]);
      if t[n].Unmatched? || t[n].Took? {
        RemoveFirstIn(Queue(t[..n]), t[n].m);
        InRecv(t, n);
      }
    }
  }

  lemma InRecv(t: seq<Event>, n: nat)
    requires AllRight(t) && n == |t| - 1 && (t[n].Unmatched? || t[n].Took?)
    ensures Current(t[..n]).Some?
  {
  }

  lemma {:induction false} RemoveFirstIn(q: seq<Msg>, m: Msg)
    ensures forall x :: x in RemoveFirst(q, m) ==> x in q
  {
    if q != [] {
      RemoveFirstIn(q[1..], m);
    }
  }

  // ---------- how a call goes on ----------

  /** A call goes on after a send that worked, a match, an optional recv that failed, and a message sent to the label; it
      ends after anything else. */
  lemma CallGoesOn(s: State, c: Command, cs: seq<Command>)
    ensures var goesOn := if c.Send? then c.ok
                          else
                            var out := OutcomeOf(s, c).0;
                            out.Matched? || (out.Failed? && (c.cmd.optional || out.e == ToMain));
            Run(s, [c] + cs) == if goesOn then Run(Do(s, c).1, cs) else Do(s, c).1
  {
    hide LoopRun, AfterSend;
    assert ([c] + cs)[1..] == cs;
  }
}
