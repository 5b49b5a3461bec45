/** A final response that waits in the queue decides the recvs that follow it. */
module SipFinals {
  import opened Common
  import opened SipReceive

  ghost predicate FinalWaits(p: seq<Msg>, txn: Txn)
  {
    exists m :: m in p && FinalNow(m, txn)
  }

  /** A final response that is taken out of the queue, or still waits in it. */
  lemma TakenOrWaits(p: seq<Msg>, i: nat, txn: Txn)
    requires FinalWaits(p, txn) && i < |p|
    ensures FinalNow(p[i], txn) || FinalWaits(Without(p, i), txn)
  {
    hide FinalNow;
    var m :| m in p && FinalNow(m, txn);
    assert m in multiset(p);
    if m != p[i] {
      assert m in multiset(Without(p, i));
    }
  }

  lemma WaitingIsFinal(p: seq<Msg>, txn: Txn)
    requires FinalWaits(p, txn)
    ensures HasFinal(p)
  {
  }

  ghost predicate Silent(events: seq<Event>)
  {
    forall i :: 0 <= i < |events| ==> !events[i].Retransmit? && (events[i].LoopPass? ==> !events[i].net)
  }

  /** An optional recv whose queue holds a final response ends in its first pass, without the network:
      it takes the first wanted message out of the queue, or leaves the queue as it is. */
  lemma OptionalDecided(d: Dialog, wt: Wait, own: Own, passes: seq<Pass>)
    requires wt.cmd.optional && HasFinal(own.pending)
    ensures var (out, own', events) := LoopRun(d, wt, own, false, passes);
            var i := FirstMatch(own.pending, wt.cmd, d.txn);
            && own'.taken == own.taken && own'.released == own.released && own'.deferred == own.deferred
            && Silent(events)
            && (out.Matched? ==> i < |own.pending| && out.m == own.pending[i] && own'.pending == Without(own.pending, i))
            && (!out.Matched? ==> own' == own && (out == Waiting || out == Failed(DeadlineExceeded)
                                                  || (out == Failed(OptionalMismatch) && i == |own.pending|)))
  {
    if passes != [] {
      var st := PassStep(d, wt, own, false, passes[0]);
      assert st.out.Some?;
    }
  }

  /** How a mandatory recv ends when a final response of the transaction waits at position f: the queue
      is consumed from the front, without the network, up to the first wanted message or to that response. */
  ghost predicate MandatoryEnd(p: seq<Msg>, cmd: RecvCmd, txn: Txn, out: Outcome, rest: seq<Msg>)
  {
    var f, i := FirstFinal(p, txn), FirstMatch(p, cmd, txn);
    if out.Matched? then i < |p| && i <= f && out.m == p[i] && rest == p[i + 1..]
    else if out == Failed(FinalAbort) then f < i && f < |p| && rest == p[f + 1..]
    else
      && (out == Waiting || out == Failed(DeadlineExceeded))
      && |rest| <= |p| && |p| - |rest| <= f && |p| - |rest| <= i && rest == p[|p| - |rest|..]
  }

  /** After the deadline a pass only ends the recv. */
  lemma LatePass(d: Dialog, wt: Wait, own: Own, finalSeen: bool, pass: Pass)
    requires pass.now > wt.t0 + wt.timeout
    ensures PassStep(d, wt, own, finalSeen, pass) == Step(Some(Failed(DeadlineExceeded)), own, finalSeen, [])
  {
  }

  /** One pass of such a recv looks at the head of the queue only. */
  lemma MandatoryPass(d: Dialog, wt: Wait, own: Own, pass: Pass)
    requires !wt.cmd.optional && !wt.toMain && own.pending != [] && pass.now <= wt.t0 + wt.timeout
    ensures var st := PassStep(d, wt, own, false, pass);
            var m := own.pending[0];
            && st.own.taken == own.taken && st.own.deferred == own.deferred
            && st.own.pending == own.pending[1..]
            && Silent(st.events)
            && st.out == (if Matches(m, wt.cmd, d.txn) then Some(Matched(m))
                          else if FinalNow(m, d.txn) then Some(Failed(FinalAbort))
                          else None)
            && (!FinalNow(m, d.txn) ==> !st.finalSeen)
  {
    hide Matches, FinalNow, FateOf, FirstMatch;
    var m := own.pending[0];
    var own1 := own.(pending := own.pending[1..]);
    assert Without(own.pending, 0) == own.pending[1..];
    assert Take(wt.cmd, d.txn, own, pass.net) == (Got(m, true), own1);
    HeadJudged(d, wt, own1, m);
    var j := Judge(d, wt, own1, false, m, true);
    assert PassStep(d, wt, own, false, pass) == j.(events := [Began(d, wt, own, pass)] + j.events);
  }

  /** The head of the queue in the hands of a mandatory recv without the label. */
  lemma HeadJudged(d: Dialog, wt: Wait, own: Own, m: Msg)
    requires !wt.cmd.optional && !wt.toMain
    ensures var st := Judge(d, wt, own, false, m, true);
            && st.own.taken == own.taken && st.own.deferred == own.deferred && st.own.pending == own.pending
            && Silent(st.events)
            && st.out == (if Matches(m, wt.cmd, d.txn) then Some(Matched(m))
                          else if FinalNow(m, d.txn) then Some(Failed(FinalAbort))
                          else None)
            && (!FinalNow(m, d.txn) ==> !st.finalSeen)
  {
    hide Matches, FateOf, FinalNow;
    if !Matches(m, wt.cmd, d.txn) {
      HeadFate(d, wt.cmd, m);
    }
  }

  lemma HeadFate(d: Dialog, cmd: RecvCmd, m: Msg)
    requires !cmd.optional && !Matches(m, cmd, d.txn)
    ensures var f := FateOf(d, cmd, m, true, false);
            && !f.keep && !f.free && Silent(f.sends)
            && f.result == if FinalNow(m, d.txn) then Aborted else Kept
  {
  }

  lemma FirstsOfTail(p: seq<Msg>, cmd: RecvCmd, txn: Txn)
    requires p != [] && !Matches(p[0], cmd, txn) && !FinalNow(p[0], txn)
    ensures FirstMatch(p, cmd, txn) == 1 + FirstMatch(p[1..], cmd, txn)
    ensures FirstFinal(p, txn) == 1 + FirstFinal(p[1..], txn)
  {
    hide Matches, FinalNow;
  }

  /** Skipping an unwanted head does not change where the recv ends. */
  lemma MandatoryEndCons(p: seq<Msg>, cmd: RecvCmd, txn: Txn, out: Outcome, rest: seq<Msg>)
    requires p != [] && !Matches(p[0], cmd, txn) && !FinalNow(p[0], txn)
    requires MandatoryEnd(p[1..], cmd, txn, out, rest)
    ensures MandatoryEnd(p, cmd, txn, out, rest)
  {
    hide Matches, FinalNow, FirstMatch, FirstFinal;
    FirstsOfTail(p, cmd, txn);
    var q, n := p[1..], |p| - |rest|;
    assert forall k :: 0 <= k < |q| ==> q[k] == p[k + 1] && q[k + 1..] == p[k + 2..];
    assert 1 <= n <= |p| ==> q[n - 1..] == p[n..];
  }

  /** The recv may stop before it looks at the queue, and the head may end it. */
  lemma MandatoryEndNow(p: seq<Msg>, cmd: RecvCmd, txn: Txn)
    ensures MandatoryEnd(p, cmd, txn, Waiting, p) && MandatoryEnd(p, cmd, txn, Failed(DeadlineExceeded), p)
    ensures p != [] && Matches(p[0], cmd, txn) ==> MandatoryEnd(p, cmd, txn, Matched(p[0]), p[1..])
    ensures p != [] && !Matches(p[0], cmd, txn) && FinalNow(p[0], txn) ==>
              MandatoryEnd(p, cmd, txn, Failed(FinalAbort), p[1..])
  {
    hide Matches, FinalNow;
  }

  lemma FinalInTail(p: seq<Msg>, txn: Txn)
    requires FinalWaits(p, txn)
    ensures p != [] && (!FinalNow(p[0], txn) ==> FinalWaits(p[1..], txn))
  {
    hide FinalNow;
    var m :| m in p && FinalNow(m, txn);
    assert p == [p[0]] + p[1..];
  }

  lemma {:induction false} MandatoryDecided(d: Dialog, wt: Wait, own: Own, passes: seq<Pass>)
    requires !wt.cmd.optional && !wt.toMain && FinalWaits(own.pending, d.txn)
    ensures var (out, own', events) := LoopRun(d, wt, own, false, passes);
            && own'.taken == own.taken && own'.deferred == own.deferred
            && Silent(events)
            && MandatoryEnd(own.pending, wt.cmd, d.txn, out, own'.pending)
    decreases |passes|
  {
    hide PassStep, Matches, FinalNow, FinalWaits, MandatoryEnd;
    var p := own.pending;
    MandatoryEndNow(p, wt.cmd, d.txn);
    FinalInTail(p, d.txn);
    if passes != [] && passes[0].now > wt.t0 + wt.timeout {
      LatePass(d, wt, own, false, passes[0]);
    } else if passes != [] {
      MandatoryPass(d, wt, own, passes[0]);
      var st := PassStep(d, wt, own, false, passes[0]);
      if st.out.None? {
        MandatoryDecided(d, wt, st.own, passes[1..]);
        var rest := LoopRun(d, wt, st.own, false, passes[1..]);
        MandatoryEndCons(p, wt.cmd, d.txn, rest.0, rest.1.pending);
      }
    }
  }
}
