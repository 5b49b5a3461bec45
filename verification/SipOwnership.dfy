/** Who owns a pooled message during one recv. */
module SipOwnership {
  import opened Common
  import opened SipReceive

  /** Every message taken is in exactly one place, `held` being the ones in the matcher's hands. */
  ghost predicate Linear(own: Own, held: multiset<Msg>)
  {
    own.taken == held + multiset(own.pending) + own.released + multiset(own.deferred)
  }

  /** No BYE waits in the queue: each one that a recv does not want is answered and dropped. */
  ghost predicate NoBye(p: seq<Msg>)
  {
    forall m :: m in p ==> !IsBye(m)
  }

  ghost function Held(o: Option<Outcome>): multiset<Msg>
  {
    if o.Some? && o.value.Matched? then multiset{o.value.m} else multiset{}
  }

  lemma TakeOwns(cmd: RecvCmd, txn: Txn, own: Own, net: Net)
    requires Linear(own, multiset{}) && NoBye(own.pending)
    ensures var (r, own') := Take(cmd, txn, own, net);
            && Linear(own', if r.Got? then multiset{r.m} else multiset{})
            && NoBye(own'.pending)
            && (r.Got? && r.fromPending && cmd.optional ==> Matches(r.m, cmd, txn))
  {
  }

  /** Without an error a message fresh from the network changes hands once; otherwise it stays in hand. */
  lemma FateOwns(d: Dialog, cmd: RecvCmd, m: Msg, fromPending: bool, toMain: bool)
    requires !Matches(m, cmd, d.txn)
    ensures var f := FateOf(d, cmd, m, fromPending, toMain);
            && !(f.keep && f.free)
            && (f.result != Kept ==> !f.keep && !f.free)
            && (f.result == Kept && !fromPending ==> f.keep || f.free)
            && (fromPending && !cmd.optional ==> !f.keep && !f.free)
            && (f.keep ==> !IsBye(m))
  {
  }

  lemma DisposeOwns(own: Own, m: Msg, f: Fate)
    requires Linear(own, multiset{m}) && !(f.keep && f.free)
    ensures Linear(Dispose(own, m, f), if f.keep || f.free then multiset{} else multiset{m})
  {
    if f.keep {
      assert multiset(own.pending + [m]) == multiset(own.pending) + multiset{m};
    }
  }

  lemma PutOwns(own: Own, m: Msg)
    requires Linear(own, multiset{m})
    ensures Linear(Put(own, m), multiset{})
  {
  }

  lemma JudgeOwns(d: Dialog, wt: Wait, own: Own, finalSeen: bool, m: Msg, fromPending: bool)
    requires Linear(own, multiset{m}) && NoBye(own.pending)
    requires fromPending && wt.cmd.optional ==> Matches(m, wt.cmd, d.txn)
    ensures var st := Judge(d, wt, own, finalSeen, m, fromPending);
            Linear(st.own, Held(st.out)) && NoBye(st.own.pending)
  {
    hide Linear, Matches, FateOf;
    if !Matches(m, wt.cmd, d.txn) {
      var f := FateOf(d, wt.cmd, m, fromPending, wt.toMain);
      FateOwns(d, wt.cmd, m, fromPending, wt.toMain);
      DisposeOwns(own, m, f);
      if !f.keep && !f.free {
        PutOwns(Dispose(own, m, f), m);
      }
    }
  }

  lemma PassOwns(d: Dialog, wt: Wait, own: Own, finalSeen: bool, pass: Pass)
    requires Linear(own, multiset{}) && NoBye(own.pending)
    ensures var st := PassStep(d, wt, own, finalSeen, pass);
            Linear(st.own, Held(st.out)) && NoBye(st.own.pending)
  {
    hide Take, Judge, Linear, NoBye;
    TakeOwns(wt.cmd, d.txn, own, pass.net);
    var (r, own') := Take(wt.cmd, d.txn, own, pass.net);
    if r.Got? {
      JudgeOwns(d, wt, own', finalSeen, r.m, r.fromPending);
    }
  }

  lemma {:induction false} LoopOwns(d: Dialog, wt: Wait, own: Own, finalSeen: bool, passes: seq<Pass>)
    requires Linear(own, multiset{}) && NoBye(own.pending)
    ensures var r := LoopRun(d, wt, own, finalSeen, passes);
            Linear(r.1, Held(Some(r.0))) && NoBye(r.1.pending)
    decreases |passes|
  {
    if passes != [] {
      PassOwns(d, wt, own, finalSeen, passes[0]);
      var st := PassStep(d, wt, own, finalSeen, passes[0]);
      if st.out.None? {
        LoopOwns(d, wt, st.own, st.finalSeen, passes[1..]);
      }
    }
  }
}
