/** No retransmission between a final response of the transaction and the next send. */
module SipSettled {
  import opened Common
  import opened SipReceive
  import opened SipStartLine
  import opened Text
  import opened SipFinals
  import opened SipTrace

  /** Whether a final response of the current transaction has been read, after one more event. */
  predicate SettledBy(b: bool, e: Event)
  {
    match e
    case ScenarioSend(_, _, _) => false
    case LoopPass(_, _, final) => b || final
    case _ => b
  }

  predicate Settled(b: bool, t: seq<Event>)
    decreases |t|
  {
    if t == [] then b else Settled(SettledBy(b, t[0]), t[1..])
  }

  /** No retransmission between a final response of the transaction and the next send. */
  predicate NoneAfterFinal(b: bool, t: seq<Event>)
    decreases |t|
  {
    t != [] ==> (t[0].Retransmit? ==> !b) && NoneAfterFinal(SettledBy(b, t[0]), t[1..])
  }

  lemma {:induction false} SettledOf(b: bool, s: seq<Event>, t: seq<Event>)
    ensures Settled(b, s + t) == Settled(Settled(b, s), t)
    ensures NoneAfterFinal(b, s + t) <==> NoneAfterFinal(b, s) && NoneAfterFinal(Settled(b, s), t)
    decreases |s|
  {
    if s == [] {
      assert s + t == t;
    } else {
      assert (s + t)[1..] == s[1..] + t;
      SettledOf(SettledBy(b, s[0]), s[1..], t);
    }
  }

  /** What the parser gives: method and status are those of the start line. */
  ghost predicate WellFormed(m: Msg)
  {
    && Parses(m.startLine)
    && match ParseStart(m.startLine)
       case Response(status) => m.status == status && m.meth == ""
       case Request(meth) => m.status == 0 && m.meth == meth
       case Invalid => false
  }

  ghost predicate AllWellFormed(p: seq<Msg>)
  {
    forall m :: m in p ==> WellFormed(m)
  }

  /** The recvs that keep the promise. There is no _unexp.main label, or the recv's regexp takes the status
      line of every final response; and a regexp that takes such a line belongs to a recv that names a
      response. */
  ghost predicate Plain(cmd: RecvCmd, toMain: bool)
  {
    match cmd.regex
    case None => !toMain
    case Some(re) =>
      && (toMain ==> forall line :: FinalLine(line) ==> re(line))
      && (cmd.recvResp == "" ==> forall line :: FinalLine(line) ==> !re(line))
  }

  /** A regexp for requests is plain: without the label, one that takes no line beginning with the version. */
  lemma RequestPatternIsPlain(cmd: RecvCmd)
    requires cmd.regex.Some? && forall line :: IsStatusLine(line) ==> !cmd.regex.value(line)
    ensures Plain(cmd, false)
  {
    forall line | FinalLine(line)
      ensures !cmd.regex.value(line)
    {
      assert IsStatusLine(line);
    }
  }

  /** So is one that takes every status line on one line, if the recv names a response, with the label too. */
  lemma StatusPatternIsPlain(cmd: RecvCmd, toMain: bool)
    requires cmd.regex.Some? && cmd.recvResp != ""
    requires forall line :: IsStatusLine(line) && '\n' !in line ==> cmd.regex.value(line)
    ensures Plain(cmd, toMain)
  {
    forall line | FinalLine(line)
      ensures cmd.regex.value(line)
    {
      assert IsStatusLine(line);
    }
  }

  ghost predicate PlainPasses(passes: seq<Pass>)
  {
    forall i :: 0 <= i < |passes| && passes[i].net.Arrived? ==> WellFormed(passes[i].net.m)
  }

  /** With a final response read, nothing is left to retransmit or the response still waits. */
  ghost predicate Calm(b: bool, retrans: nat, p: seq<Msg>, txn: Txn)
  {
    b ==> retrans == 0 || FinalWaits(p, txn)
  }

  lemma FoldKeepsEmpty(s: string)
    ensures Lower(s) == "" <==> s == ""
  {
  }

  /** A final response has the start line of one. */
  lemma FinalHasLine(m: Msg)
    requires WellFormed(m) && m.status >= 200
    ensures FinalLine(m.startLine) && m.meth == ""
  {
  }

  /** Only a recv that names a response can match a final response. */
  lemma FinalNeedsResponse(m: Msg, cmd: RecvCmd, txn: Txn, toMain: bool)
    requires Matches(m, cmd, txn) && m.status >= 200 && WellFormed(m) && Plain(cmd, toMain)
    ensures cmd.recvResp != ""
  {
    hide FinalLine, WellFormed;
    FinalHasLine(m);
    FoldKeepsEmpty(cmd.recvReq);
  }

  /** A final response that such a recv does not want is not sent to the label. */
  lemma NotToMain(m: Msg, cmd: RecvCmd, txn: Txn, toMain: bool)
    requires !Matches(m, cmd, txn) && m.status >= 200 && WellFormed(m) && Plain(cmd, toMain)
    ensures !toMain
  {
    hide FinalLine, WellFormed;
    FinalHasLine(m);
  }

  lemma JudgeSettles(b: bool, d: Dialog, wt: Wait, own: Own, finalSeen: bool, m: Msg, fromPending: bool, r: nat)
    requires Plain(wt.cmd, wt.toMain) && WellFormed(m) && AllWellFormed(own.pending)
    requires fromPending && wt.cmd.optional ==> Matches(m, wt.cmd, d.txn)
    requires b ==> r == 0 || FinalNow(m, d.txn) || FinalWaits(own.pending, d.txn)
    ensures var st := Judge(d, wt, own, finalSeen, m, fromPending);
            && NoneAfterFinal(b, st.events) && Settled(b, st.events) == b && AllWellFormed(st.own.pending)
            && (Calm(b, r, st.own.pending, d.txn)
                || (st.out == Some(Matched(m)) && wt.cmd.recvResp != "")
                || (st.out == Some(Failed(FinalAbort)) && !wt.cmd.optional))
  {
    hide Plain, WellFormed;
    if Matches(m, wt.cmd, d.txn) {
      if FinalNow(m, d.txn) {
        FinalNeedsResponse(m, wt.cmd, d.txn, wt.toMain);
      }
    } else {
      UnmatchedEvents(b, d, wt, own, finalSeen, m, fromPending);
      UnmatchedSettles(b, d, wt, own, finalSeen, m, fromPending, r);
    }
  }

  lemma UnmatchedEvents(b: bool, d: Dialog, wt: Wait, own: Own, finalSeen: bool, m: Msg, fromPending: bool)
    requires !Matches(m, wt.cmd, d.txn)
    ensures var st := Judge(d, wt, own, finalSeen, m, fromPending);
            NoneAfterFinal(b, st.events) && Settled(b, st.events) == b
  {
    hide Matches, FateOf, IsBye, FinalNow, ResponseMatches;
    var f := FateOf(d, wt.cmd, m, fromPending, wt.toMain);
    FateSends(d, wt.cmd, m, fromPending, wt.toMain);
    SettledOf(b, [Unmatched(m, !fromPending, FinalNow(m, d.txn))], f.sends);
    assert f.sends == [] || f.sends[1..] == [];
  }

  lemma UnmatchedSettles(b: bool, d: Dialog, wt: Wait, own: Own, finalSeen: bool, m: Msg, fromPending: bool, r: nat)
    requires Plain(wt.cmd, wt.toMain) && WellFormed(m) && AllWellFormed(own.pending)
    requires !Matches(m, wt.cmd, d.txn) && !(fromPending && wt.cmd.optional)
    requires b ==> r == 0 || FinalNow(m, d.txn) || FinalWaits(own.pending, d.txn)
    ensures var st := Judge(d, wt, own, finalSeen, m, fromPending);
            && AllWellFormed(st.own.pending)
            && (Calm(b, r, st.own.pending, d.txn) || (st.out == Some(Failed(FinalAbort)) && !wt.cmd.optional))
  {
    hide Matches, FateOf, FinalNow, ResponseMatches, WellFormed, Plain, Judge;
    JudgePending(d, wt, own, finalSeen, m, fromPending);
    assert m in own.pending + [m];
    if FinalNow(m, d.txn) {
      FinalStatus(m, d.txn);
      NotToMain(m, wt.cmd, d.txn, wt.toMain);
      FinalFate(d, wt.cmd, m, fromPending);
    } else if FinalWaits(own.pending, d.txn) {
      var x :| x in own.pending && FinalNow(x, d.txn);
      assert x in own.pending + [m];
    }
  }

  /** The queue after a message that did not match. */
  lemma JudgePending(d: Dialog, wt: Wait, own: Own, finalSeen: bool, m: Msg, fromPending: bool)
    requires !Matches(m, wt.cmd, d.txn)
    ensures var st, f := Judge(d, wt, own, finalSeen, m, fromPending), FateOf(d, wt.cmd, m, fromPending, wt.toMain);
            && st.own.pending == (if f.keep then own.pending + [m] else own.pending)
            && (f.result == Aborted ==> st.out == Some(Failed(FinalAbort)))
  {
    hide Matches, FateOf, FinalNow;
  }

  lemma FinalStatus(m: Msg, txn: Txn)
    requires FinalNow(m, txn)
    ensures m.status >= 200
  {
  }

  /** An unmatched final response is kept by an optional recv and aborts a mandatory one. */
  lemma FinalFate(d: Dialog, cmd: RecvCmd, m: Msg, fromPending: bool)
    ensures FinalNow(m, d.txn) && !(fromPending && cmd.optional) ==>
              var f := FateOf(d, cmd, m, fromPending, false);
              if cmd.optional then f.result == Kept && f.keep else f.result == Aborted
  {
  }

  lemma PassSettles(b: bool, d: Dialog, wt: Wait, own: Own, finalSeen: bool, pass: Pass, r: nat)
    requires Plain(wt.cmd, wt.toMain) && AllWellFormed(own.pending) && wt.retrans <= r
    requires pass.net.Arrived? ==> WellFormed(pass.net.m)
    requires Calm(b, r, own.pending, d.txn)
    ensures var st := PassStep(d, wt, own, finalSeen, pass);
            var b' := Settled(b, st.events);
            && NoneAfterFinal(b, st.events) && AllWellFormed(st.own.pending)
            && (Calm(b', r, st.own.pending, d.txn)
                || (st.out.Some? && st.out.value.Matched? && wt.cmd.recvResp != "")
                || (st.out == Some(Failed(FinalAbort)) && !wt.cmd.optional))
  {
    hide Judge, Matches, FinalNow, Plain, WellFormed;
    if pass.now <= wt.t0 + wt.timeout {
      var e := Began(d, wt, own, pass);
      var (got, own') := Take(wt.cmd, d.txn, own, pass.net);
      assert [e][1..] == [];
      assert Settled(b, [e]) == (b || e.final);
      TakeSettles(b, d, wt, own, pass, r);
      if got.Got? {
        JudgeSettles(b || e.final, d, wt, own', finalSeen, got.m, got.fromPending, r);
        SettledOf(b, [e], Judge(d, wt, own', finalSeen, got.m, got.fromPending).events);
      } else {
        SettledOf(b, [e], [Retransmit(d.lastSent)]);
        assert [Retransmit(d.lastSent)][1..] == [];
      }
    }
  }

  lemma TakeSettles(b: bool, d: Dialog, wt: Wait, own: Own, pass: Pass, r: nat)
    requires AllWellFormed(own.pending) && Calm(b, r, own.pending, d.txn)
    requires pass.net.Arrived? ==> WellFormed(pass.net.m)
    ensures var e := Began(d, wt, own, pass);
            var (got, own') := Take(wt.cmd, d.txn, own, pass.net);
            && AllWellFormed(own'.pending)
            && (got.Got? ==>
                  && WellFormed(got.m)
                  && (got.fromPending && wt.cmd.optional ==> Matches(got.m, wt.cmd, d.txn))
                  && (b || e.final ==> r == 0 || FinalNow(got.m, d.txn) || FinalWaits(own'.pending, d.txn)))
            && (got.NotGot? ==> Calm(b || e.final, r, own'.pending, d.txn))
            && (got.NotGot? && got.e == DeadlineExceeded && b ==> e.net && r == 0)
  {
    hide Matches, FinalNow, WellFormed, FirstMatch, HasFinal;
    var p := own.pending;
    if FinalWaits(p, d.txn) {
      WaitingIsFinal(p, d.txn);
      assert p != [];
    }
    if !ReadsNet(p, wt.cmd, d.txn) {
      var i := if wt.cmd.optional then FirstMatch(p, wt.cmd, d.txn) else 0;
      if i < |p| {
        assert p[i] in p;
        if FinalWaits(p, d.txn) {
          TakenOrWaits(p, i, d.txn);
        }
      }
    }
  }

  lemma {:induction false} LoopSettles(b: bool, d: Dialog, wt: Wait, own: Own, finalSeen: bool, passes: seq<Pass>, r: nat)
    requires Plain(wt.cmd, wt.toMain) && AllWellFormed(own.pending) && wt.retrans <= r && PlainPasses(passes)
    requires Calm(b, r, own.pending, d.txn)
    ensures var (out, own', t) := LoopRun(d, wt, own, finalSeen, passes);
            && NoneAfterFinal(b, t) && AllWellFormed(own'.pending)
            && (Calm(Settled(b, t), r, own'.pending, d.txn)
                || (out.Matched? && wt.cmd.recvResp != "")
                || (out == Failed(FinalAbort) && !wt.cmd.optional))
    decreases |passes|
  {
    hide PassStep, Calm, AllWellFormed, Plain;
    if passes != [] {
      PassSettles(b, d, wt, own, finalSeen, passes[0], r);
      var st := PassStep(d, wt, own, finalSeen, passes[0]);
      if st.out.None? {
        LoopSettles(Settled(b, st.events), d, wt, st.own, st.finalSeen, passes[1..], r);
        SettledOf(b, st.events, LoopRun(d, wt, st.own, st.finalSeen, passes[1..]).2);
      }
    }
  }
}
