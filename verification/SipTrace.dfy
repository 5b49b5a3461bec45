/** What one recv sends and in which order: the retransmission bound, the trace monitor, progress. */
module SipTrace {
  import opened Common
  import opened SipReceive

  /** Facts about the clock and the contexts given to the network read: readings never go back,
      and a read that ends by a deadline while the caller's context is live ended because the
      retransmission interval or the whole wait was over. */
  ghost predicate Timely(wt: Wait, passes: seq<Pass>)
  {
    && (forall i :: 0 <= i < |passes| ==> passes[i].now <= passes[i].after)
    && (forall i, j :: 0 <= i < j < |passes| ==> passes[i].after <= passes[j].now)
    && (forall i :: 0 <= i < |passes| && passes[i].net == NetError(DeadlineExceeded) && !passes[i].ctxDone
          ==> passes[i].after >= passes[i].now + wt.retrans || passes[i].after >= wt.t0 + wt.timeout)
  }

  ghost function Retransmissions(events: seq<Event>): nat
  {
    if events == [] then 0 else (if events[0].Retransmit? then 1 else 0) + Retransmissions(events[1..])
  }

  lemma {:induction false} RetransmissionsOf(a: seq<Event>, b: seq<Event>)
    ensures Retransmissions(a + b) == Retransmissions(a) + Retransmissions(b)
  {
    if a == [] {
      assert a + b == b;
    } else {
      assert (a + b)[1..] == a[1..] + b;
      RetransmissionsOf(a[1..], b);
    }
  }

  /** A pass retransmits at most once, at the end of its events, and only inside the wait. */
  lemma PassResends(d: Dialog, wt: Wait, own: Own, finalSeen: bool, pass: Pass)
    ensures var st := PassStep(d, wt, own, finalSeen, pass);
            && Retransmissions(st.events) <= 1
            && (Retransmissions(st.events) == 1 ==>
                  && wt.retrans > 0 && pass.net == NetError(DeadlineExceeded) && !pass.ctxDone
                  && pass.after < wt.t0 + wt.timeout)
  {
    if pass.now <= wt.t0 + wt.timeout {
      var began := [Began(d, wt, own, pass)];
      var (r, own') := Take(wt.cmd, d.txn, own, pass.net);
      if r.Got? {
        JudgeQuiet(d, wt, own', finalSeen, r.m, r.fromPending);
        RetransmissionsOf(began, Judge(d, wt, own', finalSeen, r.m, r.fromPending).events);
      } else {
        RetransmissionsOf(began, [Retransmit(d.lastSent)]);
      }
    }
  }

  lemma JudgeQuiet(d: Dialog, wt: Wait, own: Own, finalSeen: bool, m: Msg, fromPending: bool)
    ensures Retransmissions(Judge(d, wt, own, finalSeen, m, fromPending).events) == 0
  {
    if !Matches(m, wt.cmd, d.txn) {
      RetransmissionsOf([Unmatched(m, !fromPending, FinalNow(m, d.txn))], FateOf(d, wt.cmd, m, fromPending, wt.toMain).sends);
    }
  }

  /** k retransmissions in one recv take k intervals, all inside the wait. */
  lemma {:induction false} LoopResends(d: Dialog, wt: Wait, own: Own, finalSeen: bool, passes: seq<Pass>, lo: int)
    requires Timely(wt, passes)
    requires forall i :: 0 <= i < |passes| ==> lo <= passes[i].now
    ensures var k := Retransmissions(LoopRun(d, wt, own, finalSeen, passes).2);
            k > 0 ==> wt.retrans > 0 && lo + k * wt.retrans < wt.t0 + wt.timeout
    decreases |passes|
  {
    hide PassStep, Retransmissions, Timely;
    if passes == [] {
      assert Retransmissions([]) == 0 by { NoRetransmissions(); }
    } else {
      PassResends(d, wt, own, finalSeen, passes[0]);
      PassLasts(wt, passes);
      var st := PassStep(d, wt, own, finalSeen, passes[0]);
      var k0 := Retransmissions(st.events);
      if st.out.None? {
        var lo' := if k0 == 1 then passes[0].after else lo;
        LoopResends(d, wt, st.own, st.finalSeen, passes[1..], lo');
        var rest := LoopRun(d, wt, st.own, st.finalSeen, passes[1..]).2;
        RetransmissionsOf(st.events, rest);
        OneInterval(Retransmissions(rest), wt.retrans);
      } else {
        OneInterval(0, wt.retrans);
      }
    }
  }

  lemma NoRetransmissions()
    ensures Retransmissions([]) == 0
  {
  }

  lemma OneInterval(k: nat, retrans: nat)
    ensures (k + 1) * retrans == k * retrans + retrans && 0 * retrans == 0
  {
  }

  /** The next pass and those after it. */
  lemma PassLasts(wt: Wait, passes: seq<Pass>)
    requires Timely(wt, passes) && passes != []
    ensures Timely(wt, passes[1..])
    ensures forall i :: 0 <= i < |passes[1..]| ==> passes[0].after <= passes[1..][i].now
    ensures passes[0].now <= passes[0].after
    ensures passes[0].net == NetError(DeadlineExceeded) && !passes[0].ctxDone ==>
              passes[0].after >= passes[0].now + wt.retrans || passes[0].after >= wt.t0 + wt.timeout
  {
  }

  /** Within one recv, k retransmissions imply k * retrans < timeout. */
  lemma RetransmissionBound(d: Dialog, wt: Wait, own: Own, passes: seq<Pass>)
    requires Timely(wt, passes)
    requires forall i :: 0 <= i < |passes| ==> wt.t0 <= passes[i].now
    ensures var k := Retransmissions(LoopRun(d, wt, own, false, passes).2);
            k > 0 ==> k * wt.retrans < wt.timeout
  {
    LoopResends(d, wt, own, false, passes, wt.t0);
  }

  // ---------- what every run promises about its trace ----------

  /** A monitor that reads the trace of a call; `ok` falls on the first broken promise. `left` bounds the
      queue of the next pass of a mandatory recv, so network reads cannot be put off; `looked` says that the
      recv has looked at a message, which an optional one does once. */
  datatype Monitor = Monitor(last: Option<Bytes>, lastAck: Option<Bytes>, quiet: bool, udp: bool,
                             finalSeen: bool, mandatory: bool, looked: bool, left: Option<nat>, ok: bool)

  function Next(w: Monitor, e: Event): Monitor
  {
    match e
    case ScenarioSend(b, _, ack) => w.(last := Some(b), quiet := false, lastAck := if ack then Some(b) else w.lastAck)
    case RecvBegin(cmd, _, udp) =>
      w.(udp := udp, finalSeen := false, mandatory := !cmd.optional, looked := false, left := None)
    case LoopPass(p, net, _) =>
      var fits := w.left.Some? ==> |p| <= w.left.value;
      w.(ok := w.ok && (if w.mandatory then (net <==> p == []) && fits else net ==> !HasFinal(p)),
         left := Some(if net || p == [] then 1 else |p| - 1))
    case Unmatched(_, _, final) =>
      w.(ok := w.ok && (w.mandatory || !w.looked), looked := true, finalSeen := w.finalSeen || final)
    case Took(_, _) => w.(ok := w.ok && (w.mandatory || !w.looked), looked := true)
    case Retransmit(b) => w.(ok := w.ok && w.udp && w.last == Some(b) && !w.quiet && !w.finalSeen)
    case Reply(m) => w.(ok := w.ok && IsBye(m))
    case AckResend(b) => w.(ok := w.ok && w.lastAck == Some(b))
    case RecvDone(response) => w.(quiet := w.quiet || response)
  }

  function Watch(w: Monitor, t: seq<Event>): Monitor
    decreases |t|
  {
    if t == [] then w else Watch(Next(w, t[0]), t[1..])
  }

  const FRESH := Monitor(None, None, false, false, false, false, false, None, true)

  lemma {:induction false} WatchOf(w: Monitor, a: seq<Event>, b: seq<Event>)
    ensures Watch(w, a + b) == Watch(Watch(w, a), b)
    decreases |a|
  {
    if a == [] {
      assert a + b == b;
    } else {
      assert (a + b)[1..] == a[1..] + b;
      WatchOf(Next(w, a[0]), a[1..], b);
    }
  }

  /** The monitor agrees with the state of a recv at the top of its loop. */
  ghost predicate Agrees(w: Monitor, d: Dialog, wt: Wait, p: seq<Msg>, finalSeen: bool)
  {
    && w.ok && w.mandatory == !wt.cmd.optional && w.finalSeen == finalSeen
    && (w.mandatory && w.left.Some? ==> |p| <= w.left.value)
    && (wt.retrans > 0 ==> !w.quiet && w.udp) && (!w.mandatory ==> !w.looked)
    && (d.lastSent != [] ==> w.last == Some(d.lastSent))
    && (d.inviteAck != [] ==> w.lastAck == Some(d.inviteAck))
  }

  ghost predicate SameSends(w: Monitor, v: Monitor)
  {
    w.last == v.last && w.quiet == v.quiet && w.lastAck == v.lastAck
  }

  /** The callback sends nothing, a reply to a BYE, or the stored ACK. */
  lemma FateSends(d: Dialog, cmd: RecvCmd, m: Msg, fromPending: bool, toMain: bool)
    ensures var f := FateOf(d, cmd, m, fromPending, toMain);
            && (f.sends == [] || (f.sends == [Reply(m)] && IsBye(m))
                || (f.sends == [AckResend(d.inviteAck)] && d.inviteAck != []))
            && (f.keep ==> !fromPending || cmd.optional)
  {
  }

  lemma WatchSends(w: Monitor, d: Dialog, m: Msg, sends: seq<Event>)
    requires sends == [] || (sends == [Reply(m)] && IsBye(m))
             || (sends == [AckResend(d.inviteAck)] && d.inviteAck != [])
    requires d.inviteAck != [] ==> w.lastAck == Some(d.inviteAck)
    ensures Watch(w, sends) == w
  {
    if sends != [] {
      assert sends[1..] == [];
    }
  }

  lemma JudgeWatched(w: Monitor, d: Dialog, wt: Wait, own: Own, finalSeen: bool, m: Msg, fromPending: bool)
    requires w.ok && w.finalSeen == finalSeen && w.mandatory == !wt.cmd.optional && (!w.mandatory ==> !w.looked)
    requires (d.inviteAck != [] ==> w.lastAck == Some(d.inviteAck))
    ensures var st := Judge(d, wt, own, finalSeen, m, fromPending);
            var v := Watch(w, st.events);
            && v.ok && SameSends(v, w) && v.mandatory == w.mandatory && v.left == w.left && v.udp == w.udp
            && (st.out.None? ==> v.mandatory)
            && (st.out.None? ==> v.finalSeen == st.finalSeen)
            && |st.own.pending| <= |own.pending| + (if fromPending && !wt.cmd.optional then 0 else 1)
  {
    hide Matches, FateOf, IsBye, FinalNow;
    if !Matches(m, wt.cmd, d.txn) {
      var final, sends := Unmatched(m, !fromPending, FinalNow(m, d.txn)), FateOf(d, wt.cmd, m, fromPending, wt.toMain).sends;
      FateSends(d, wt.cmd, m, fromPending, wt.toMain);
      WatchOf(w, [final], sends);
      assert Watch(w, [final]) == Next(w, final);
      WatchSends(Next(w, final), d, m, sends);
    }
  }

  lemma PassWatched(w: Monitor, d: Dialog, wt: Wait, own: Own, finalSeen: bool, pass: Pass)
    requires Agrees(w, d, wt, own.pending, finalSeen)
    ensures var st := PassStep(d, wt, own, finalSeen, pass);
            var v := Watch(w, st.events);
            && v.ok && SameSends(v, w)
            && (st.out.None? ==> Agrees(v, d, wt, st.own.pending, st.finalSeen))
  {
    hide Judge;
    if pass.now <= wt.t0 + wt.timeout {
      var e := Began(d, wt, own, pass);
      var v := Next(w, e);
      assert Watch(w, [e]) == v;
      var (r, own') := Take(wt.cmd, d.txn, own, pass.net);
      if r.Got? {
        JudgeWatched(v, d, wt, own', finalSeen, r.m, r.fromPending);
        WatchOf(w, [e], Judge(d, wt, own', finalSeen, r.m, r.fromPending).events);
      } else {
        WatchOf(w, [e], [Retransmit(d.lastSent)]);
        assert Watch(v, [Retransmit(d.lastSent)]) == Next(v, Retransmit(d.lastSent));
      }
    }
  }

  lemma {:induction false} LoopWatched(w: Monitor, d: Dialog, wt: Wait, own: Own, finalSeen: bool, passes: seq<Pass>)
    requires Agrees(w, d, wt, own.pending, finalSeen)
    ensures var v := Watch(w, LoopRun(d, wt, own, finalSeen, passes).2);
            v.ok && SameSends(v, w)
    decreases |passes|
  {
    hide PassStep;
    if passes != [] {
      PassWatched(w, d, wt, own, finalSeen, passes[0]);
      var st := PassStep(d, wt, own, finalSeen, passes[0]);
      if st.out.None? {
        var v := Watch(w, st.events);
        LoopWatched(v, d, wt, st.own, st.finalSeen, passes[1..]);
        WatchOf(w, st.events, LoopRun(d, wt, st.own, st.finalSeen, passes[1..]).2);
      }
    }
  }

  // ---------- progress ----------

  ghost function Passes(t: seq<Event>): nat
  {
    if t == [] then 0 else (if t[0].LoopPass? then 1 else 0) + Passes(t[1..])
  }

  ghost function NetReads(t: seq<Event>): nat
  {
    if t == [] then 0 else (if t[0].LoopPass? && t[0].net then 1 else 0) + NetReads(t[1..])
  }

  lemma {:induction false} PassesOf(a: seq<Event>, b: seq<Event>)
    ensures Passes(a + b) == Passes(a) + Passes(b) && NetReads(a + b) == NetReads(a) + NetReads(b)
  {
    if a == [] {
      assert a + b == b;
    } else {
      assert (a + b)[1..] == a[1..] + b;
      PassesOf(a[1..], b);
    }
  }

  lemma JudgePasses(d: Dialog, wt: Wait, own: Own, finalSeen: bool, m: Msg, fromPending: bool)
    ensures var st := Judge(d, wt, own, finalSeen, m, fromPending);
            && Passes(st.events) == NetReads(st.events) == 0
            && |st.own.pending| <= |own.pending| + (if fromPending && !wt.cmd.optional then 0 else 1)
  {
    hide Matches, FateOf, IsBye, FinalNow;
    if !Matches(m, wt.cmd, d.txn) {
      var final, sends := Unmatched(m, !fromPending, FinalNow(m, d.txn)), FateOf(d, wt.cmd, m, fromPending, wt.toMain).sends;
      FateSends(d, wt.cmd, m, fromPending, wt.toMain);
      PassesOf([final], sends);
      assert sends == [] || sends[1..] == [];
    }
  }

  lemma PassProgress(d: Dialog, wt: Wait, own: Own, finalSeen: bool, pass: Pass)
    requires !wt.cmd.optional
    ensures var st := PassStep(d, wt, own, finalSeen, pass);
            && Passes(st.events) + |st.own.pending| <= |own.pending| + 2 * NetReads(st.events)
  {
    hide Judge;
    if pass.now <= wt.t0 + wt.timeout {
      var e := Began(d, wt, own, pass);
      var (r, own') := Take(wt.cmd, d.txn, own, pass.net);
      assert [e][1..] == [];
      if r.Got? {
        JudgePasses(d, wt, own', finalSeen, r.m, r.fromPending);
        PassesOf([e], Judge(d, wt, own', finalSeen, r.m, r.fromPending).events);
      } else {
        PassesOf([e], [Retransmit(d.lastSent)]);
      }
    }
  }

  /** A mandatory recv cannot spin: every pass uses up a queued message or reads the network, and a
      network read queues at most one message. */
  lemma {:induction false} MandatoryProgress(d: Dialog, wt: Wait, own: Own, finalSeen: bool, passes: seq<Pass>)
    requires !wt.cmd.optional
    ensures var t := LoopRun(d, wt, own, finalSeen, passes).2;
            Passes(t) <= |own.pending| + 2 * NetReads(t)
    decreases |passes|
  {
    hide PassStep;
    if passes != [] {
      PassProgress(d, wt, own, finalSeen, passes[0]);
      var st := PassStep(d, wt, own, finalSeen, passes[0]);
      if st.out.None? {
        MandatoryProgress(d, wt, st.own, st.finalSeen, passes[1..]);
        PassesOf(st.events, LoopRun(d, wt, st.own, st.finalSeen, passes[1..]).2);
      }
    }
  }
}
