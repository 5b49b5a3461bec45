/**
 The receive machine as the scenario interpreter runs it: fields updated in
 place by loops and callbacks. Every method is proved against the value model
 of `SipReceive` and `SipCall`, so the theorems there hold of it.
 */
module SipMachine {
  import opened Common
  import opened SipReceive
  import opened SipFinals
  import opened SipCall

  lemma DisposeIs(own: Own, m: Msg, f: Fate, own': Own)
    requires own'.taken == own.taken && own'.deferred == own.deferred
    requires own'.pending == (if f.keep then own.pending + [m] else own.pending)
    requires own'.released == (if f.free then own.released + multiset{m} else own.released)
    ensures own' == Dispose(own, m, f)
  {
  }

  lemma LoopStep(d: Dialog, wt: Wait, own: Own, finalSeen: bool, passes: seq<Pass>, i: nat)
    requires i < |passes|
    ensures var st := PassStep(d, wt, own, finalSeen, passes[i]);
            var r := LoopRun(d, wt, own, finalSeen, passes[i..]);
            match st.out
            case Some(out) => r == (out, st.own, st.events)
            case None => var rest := LoopRun(d, wt, st.own, st.finalSeen, passes[i + 1..]);
                         r == (rest.0, rest.1, st.events + rest.2)
  {
    hide PassStep;
    assert passes[i..][0] == passes[i] && passes[i..][1..] == passes[i + 1..];
  }

  lemma LoopEnd(d: Dialog, wt: Wait, own: Own, finalSeen: bool)
    ensures LoopRun(d, wt, own, finalSeen, []) == (Waiting, own, [])
  {
  }

  /** What is left of a loop after its next pass. */
  lemma LoopLeft(whole: (Outcome, Own, seq<Event>), done: seq<Event>, events: seq<Event>,
                 r: (Outcome, Own, seq<Event>), rest: (Outcome, Own, seq<Event>))
    requires whole == (r.0, r.1, done + r.2) && r == (rest.0, rest.1, events + rest.2)
    ensures whole == (rest.0, rest.1, (done + events) + rest.2)
  {
    assert done + (events + rest.2) == (done + events) + rest.2;
  }

  lemma PassGot(d: Dialog, wt: Wait, own: Own, finalSeen: bool, pass: Pass, m: Msg, fromPending: bool, own': Own)
    requires pass.now <= wt.t0 + wt.timeout && Take(wt.cmd, d.txn, own, pass.net) == (Got(m, fromPending), own')
    ensures var j := Judge(d, wt, own', finalSeen, m, fromPending);
            PassStep(d, wt, own, finalSeen, pass) == j.(events := [Began(d, wt, own, pass)] + j.events)
  {
    hide Take, Judge, Began;
  }

  lemma PassMissed(d: Dialog, wt: Wait, own: Own, finalSeen: bool, pass: Pass, e: Error, own': Own)
    requires pass.now <= wt.t0 + wt.timeout && Take(wt.cmd, d.txn, own, pass.net) == (NotGot(e), own')
    ensures PassStep(d, wt, own, finalSeen, pass) ==
            if Resends(d, wt, finalSeen, pass, e) then
              Step(if pass.sendOk then None else Some(Failed(SendFailed)), own', finalSeen,
                   [Began(d, wt, own, pass)] + [Retransmit(d.lastSent)])
            else Step(Some(Failed(e)), own', finalSeen, [Began(d, wt, own, pass)])
  {
    hide Take, Judge, Began;
  }

  lemma RecvEffect(s: State, c: Command, out: Outcome, own: Own, events: seq<Event>)
    requires c.Recv? && OutcomeOf(s, c) == (out, own, events)
    ensures var t := s.trace + [RecvBegin(c.cmd, c.toMain, c.udp)] + events;
            match out
            case Matched(m) =>
              Do(s, c) == (true, State(s.d, Own(own.pending, own.taken, own.released, own.deferred + [m]),
                                       if c.cmd.recvResp != "" then 0 else s.lastRetrans, t + [RecvDone(c.cmd.recvResp != "")]))
            case Failed(e) => Do(s, c) == (e == ToMain || c.cmd.optional, State(s.d, own, s.lastRetrans, t))
            case Waiting => Do(s, c) == (false, State(s.d, own, s.lastRetrans, t))
  {
    hide LoopRun;
  }

  lemma RecvIs(s: State, c: Command)
    requires c.Recv?
    ensures OutcomeOf(s, c) == LoopRun(s.d, WaitOf(s, c), s.own, false, c.passes)
  {
    hide LoopRun;
  }

  lemma NoneHasFinal()
    ensures !HasFinal([])
  {
  }

  class Call {
    var pending: seq<Msg>
    var deferred: seq<Msg>
    var lastSent: Bytes
    var txn: Txn
    var lastRetrans: nat
    var inviteAck: Bytes
    var inviteBranch: string

    ghost var taken: multiset<Msg>
    ghost var released: multiset<Msg>
    ghost var trace: seq<Event>

    ghost function Owned(): Own
      reads this
    {
      Own(pending, taken, released, deferred)
    }

    ghost function Talk(): Dialog
      reads this
    {
      Dialog(txn, lastSent, inviteAck, inviteBranch)
    }

    ghost function View(): State
      reads this
    {
      State(Talk(), Owned(), lastRetrans, trace)
    }

    constructor ()
      ensures View() == START
    {
      pending, deferred, lastSent, inviteAck, inviteBranch := [], [], [], [], "";
      txn, lastRetrans := Txn("", "", 0), 0;
      taken, released, trace := multiset{}, multiset{}, [];
    }

    /** The pool takes the message back. */
    ghost method PutMessage(m: Msg)
      modifies this`released
      ensures released == old(released) + multiset{m}
    {
      released := released + multiset{m};
    }

    ghost method Log(e: Event)
      modifies this`trace
      ensures trace == old(trace) + [e]
    {
      trace := trace + [e];
    }

    /** The first wanted message of the queue, and whether a final response stands before it. */
    method ScanPending(cmd: RecvCmd) returns (i: nat, hasFinal: bool)
      ensures i == FirstMatch(pending, cmd, txn)
      ensures i == |pending| ==> hasFinal == HasFinal(pending)
    {
      hide Matches, FirstMatch;
      hasFinal := false;
      i := 0;
      while i < |pending|
        invariant 0 <= i <= |pending|
        invariant forall j :: 0 <= j < i ==> !Matches(pending[j], cmd, txn)
        invariant hasFinal <==> exists j :: 0 <= j < i && pending[j].status >= 200
      {
        if Matches(pending[i], cmd, txn) {
          return;
        }
        if pending[i].status >= 200 {
          hasFinal := true;
        }
        i := i + 1;
      }
    }

    method ReceiveWithPending(cmd: RecvCmd, net: Net) returns (r: Received)
      modifies this`pending, this`taken
      ensures (r, Owned()) == Take(cmd, txn, old(Owned()), net)
    {
      hide Matches, FirstMatch, HasFinal;
      if |pending| > 0 {
        if cmd.optional {
          var i, hasFinal := ScanPending(cmd);
          if i < |pending| {
            r := Got(pending[i], true);
            pending := pending[..i] + pending[i + 1..];
            return;
          }
          if hasFinal {
            return NotGot(OptionalMismatch);
          }
        } else {
          r := Got(pending[0], true);
          pending := pending[1..];
          assert pending == Without(old(pending), 0);
          return;
        }
      }
      assert pending == [] ==> FirstMatch(pending, cmd, txn) == 0;
      assert !HasFinal([]) by { NoneHasFinal(); }
      match net
      case Arrived(m) =>
        taken := taken + multiset{m};
        r := Got(m, false);
      case NetError(e) =>
        r := NotGot(e);
    }

    /** Re-sends the stored ACK for a retransmitted 200 of the INVITE. */
    method ReplayAck(m: Msg)
      modifies this`trace
      ensures trace == old(trace) + AckFor(Talk(), m)
    {
      if m.status == 200 && |inviteAck| > 0 && inviteBranch != "" {
        if m.branch.Some? && EqualFold(m.branch.value, inviteBranch) {
          Log(AckResend(inviteAck));
        }
      }
    }

    /** The callback for a message that the recv did not match. */
    method Stash(cmd: RecvCmd, m: Msg, fromPending: bool, toMain: bool) returns (r: StashResult)
      modifies this`pending, this`released, this`trace
      ensures var f := FateOf(Talk(), cmd, m, fromPending, toMain);
              && r == f.result
              && pending == (if f.keep then old(pending) + [m] else old(pending))
              && released == (if f.free then old(released) + multiset{m} else old(released))
              && trace == old(trace) + f.sends
    {
      hide ResponseMatches, AckFor;
      var notWaitingForBye :=
        match cmd.regex
        case Some(re) => !re(m.startLine)
        case None => cmd.recvReq != "BYE";
      if m.meth == "BYE" && m.status == 0 && notWaitingForBye {
        Log(Reply(m));
        if !fromPending {
          PutMessage(m);
        }
        return Kept;
      }
      if fromPending {
        if cmd.optional {
          pending := pending + [m];
          return Kept;
        }
        if m.status > 0 && !ResponseMatches(m, txn) {
          ReplayAck(m);
          return Kept;
        }
        if m.status >= 200 && !toMain && ResponseMatches(m, txn) {
          return Aborted;
        }
        return Kept;
      }
      if m.status > 0 && !ResponseMatches(m, txn) {
        ReplayAck(m);
        PutMessage(m);
        return Kept;
      }
      if 0 < m.status < 200 && ResponseMatches(m, txn) {
        PutMessage(m);
        return Kept;
      }
      if toMain {
        return Diverted;
      }
      if !cmd.optional && m.status >= 200 && ResponseMatches(m, txn) {
        return Aborted;
      }
      pending := pending + [m];
      return Kept;
    }

    /** The call of the callback from the matcher. */
    method HandOver(wt: Wait, m: Msg, fromPending: bool) returns (r: StashResult)
      modifies this`pending, this`released, this`trace
      ensures var f := FateOf(Talk(), wt.cmd, m, fromPending, wt.toMain);
              && r == f.result
              && Owned() == Dispose(old(Owned()), m, f)
              && trace == old(trace) + ([Unmatched(m, !fromPending, FinalNow(m, txn))] + f.sends)
    {
      hide FateOf, Dispose, FinalNow;
      ghost var f := FateOf(Talk(), wt.cmd, m, fromPending, wt.toMain);
      Log(Unmatched(m, !fromPending, FinalNow(m, txn)));
      r := Stash(wt.cmd, m, fromPending, wt.toMain);
      DisposeIs(old(Owned()), m, f, Owned());
    }

    /** One message in the matcher's hands: how the recv ends, or None if the loop goes on. */
    method Examine(wt: Wait, m: Msg, fromPending: bool, finalSeen: bool) returns (out: Option<Outcome>, final: bool)
      modifies this`pending, this`released, this`trace
      ensures var st := Judge(Talk(), wt, old(Owned()), finalSeen, m, fromPending);
              && out == st.out && final == st.finalSeen
              && Owned() == st.own && trace == old(trace) + st.events
    {
      hide FateOf, Matches, ResponseMatches, Dispose;
      final := finalSeen;
      if Matches(m, wt.cmd, txn) {
        Log(Took(m, !fromPending));
        return Some(Matched(m)), final;
      }
      var status, current := m.status, ResponseMatches(m, txn);
      var stashed := HandOver(wt, m, fromPending);
      if stashed != Kept {
        PutMessage(m);
        return Some(Failed(if stashed == Diverted then ToMain else FinalAbort)), final;
      }
      if status >= 200 && current {
        final := true;
      }
      if wt.cmd.optional {
        return Some(Failed(OptionalMismatch)), final;
      }
      if fromPending {
        PutMessage(m);
      }
      return None, final;
    }

    /** One pass of the matcher's loop. */
    method OnePass(wt: Wait, pass: Pass, finalSeen: bool) returns (out: Option<Outcome>, final: bool)
      modifies this`pending, this`taken, this`released, this`trace
      ensures var st := PassStep(Talk(), wt, old(Owned()), finalSeen, pass);
              && out == st.out && final == st.finalSeen
              && Owned() == st.own && trace == old(trace) + st.events
    {
      hide PassStep, Judge, Take, Began;
      ghost var d, own := Talk(), Owned();
      final := finalSeen;
      if pass.now > wt.t0 + wt.timeout {
        LatePass(d, wt, own, finalSeen, pass);
        return Some(Failed(DeadlineExceeded)), final;
      }
      ghost var e := Began(d, wt, own, pass);
      Log(e);
      var got := ReceiveWithPending(wt.cmd, pass.net);
      if got.Got? {
        PassGot(d, wt, own, finalSeen, pass, got.m, got.fromPending, Owned());
        ghost var st := Judge(d, wt, Owned(), finalSeen, got.m, got.fromPending);
        out, final := Examine(wt, got.m, got.fromPending, finalSeen);
        assert trace == old(trace) + ([e] + st.events);
        return;
      }
      PassMissed(d, wt, own, finalSeen, pass, got.e, Owned());
      if got.e == DeadlineExceeded && wt.retrans > 0 && !finalSeen && |lastSent| > 0
         && pass.after < wt.t0 + wt.timeout && !pass.ctxDone {
        Log(Retransmit(lastSent));
        assert trace == old(trace) + ([e] + [Retransmit(lastSent)]);
        return if pass.sendOk then None else Some(Failed(SendFailed)), final;
      }
      return Some(Failed(got.e)), final;
    }

    method WaitForMatch(wt: Wait, passes: seq<Pass>) returns (out: Outcome)
      modifies this`pending, this`taken, this`released, this`trace
      ensures var r := LoopRun(Talk(), wt, old(Owned()), false, passes);
              out == r.0 && Owned() == r.1 && trace == old(trace) + r.2
    {
      hide PassStep, LoopRun;
      var finalSeen := false;
      var i := 0;
      ghost var d := Talk();
      ghost var whole := LoopRun(d, wt, Owned(), false, passes);
      ghost var done: seq<Event> := [];
      assert passes[0..] == passes && whole.2 == done + whole.2;
      while i < |passes|
        invariant 0 <= i <= |passes|
        invariant trace == old(trace) + done
        invariant var rest := LoopRun(d, wt, Owned(), finalSeen, passes[i..]);
                  whole == (rest.0, rest.1, done + rest.2)
      {
        ghost var own := Owned();
        ghost var st, r := PassStep(d, wt, own, finalSeen, passes[i]), LoopRun(d, wt, own, finalSeen, passes[i..]);
        LoopStep(d, wt, own, finalSeen, passes, i);
        var step, final := OnePass(wt, passes[i], finalSeen);
        if step.Some? {
          assert trace == old(trace) + (done + st.events);
          return step.value;
        }
        LoopLeft(whole, done, st.events, r, LoopRun(d, wt, st.own, st.finalSeen, passes[i + 1..]));
        done := done + st.events;
        finalSeen := final;
        i := i + 1;
      }
      LoopEnd(d, wt, Owned(), finalSeen);
      assert passes[i..] == [] && done + [] == done;
      return Waiting;
    }

    /** Caches the parts of a sent message that later matching needs. */
    method Remember(bytes: Bytes, parsed: Option<Parsed>)
      modifies this`lastSent, this`txn, this`inviteAck, this`inviteBranch
      ensures Talk() == AfterSend(old(Talk()), bytes, parsed)
    {
      hide EqualFold;
      lastSent := bytes;
      if parsed.Some? {
        var p := parsed.value;
        if p.branch.Some? {
          txn := txn.(branch := p.branch.value);
        }
        if p.cseq.Some? {
          txn := txn.(meth := p.cseq.value.meth, cseq := p.cseq.value.num);
        }
        if EqualFold(p.meth, "INVITE") {
          inviteBranch := txn.branch;
        } else if EqualFold(p.meth, "ACK") && inviteBranch != "" {
          inviteAck := bytes;
        }
      }
    }

    /** The send command. */
    method ExecuteSend(bytes: Bytes, parsed: Option<Parsed>, retrans: nat, ok: bool) returns (more: bool)
      modifies this`lastSent, this`lastRetrans, this`txn, this`inviteAck, this`inviteBranch, this`trace
      ensures (more, View()) == Do(old(View()), Send(bytes, parsed, retrans, ok))
    {
      hide StoresAck, AfterSend;
      if !ok {
        return false;
      }
      Log(ScenarioSend(bytes, parsed, StoresAck(Talk(), parsed)));
      Remember(bytes, parsed);
      lastRetrans := retrans;
      return true;
    }

    /** The recv command. */
    method ExecuteRecv(cmd: RecvCmd, udp: bool, t0: int, timeout: int, toMain: bool, passes: seq<Pass>)
      returns (more: bool)
      modifies this`pending, this`deferred, this`lastRetrans, this`taken, this`released, this`trace
      ensures (more, View()) == Do(old(View()), Recv(cmd, udp, t0, timeout, toMain, passes))
    {
      hide LoopRun, Do, OutcomeOf;
      ghost var s, c := View(), Recv(cmd, udp, t0, timeout, toMain, passes);
      ghost var (o, own, events) := OutcomeOf(s, c);
      Log(RecvBegin(cmd, toMain, udp));
      assert Owned() == s.own && Talk() == s.d;
      var out := WaitForMatch(Wait(cmd, if udp then lastRetrans else 0, t0, timeout, toMain), passes);
      assert out == o && Owned() == own && trace == s.trace + [RecvBegin(cmd, toMain, udp)] + events by { RecvIs(s, c); }
      RecvEffect(s, c, o, own, events);
      match out
      case Matched(m) =>
        deferred := deferred + [m];
        if cmd.recvResp != "" && lastRetrans > 0 {
          lastRetrans := 0;
        }
        Log(RecvDone(cmd.recvResp != ""));
        return true;
      case Failed(e) =>
        return e == ToMain || cmd.optional;
      case Waiting =>
        return false;
    }

    /** The deferred functions: matched messages in reverse order, then the queue. */
    method Finish()
      modifies this`pending, this`deferred, this`released
      ensures Owned() == Exit(old(Owned()))
    {
      ReleaseDeferred();
      ReleasePending();
    }

    method ReleaseDeferred()
      modifies this`deferred, this`released
      ensures deferred == [] && released == old(released) + multiset(old(deferred))
    {
      while deferred != []
        invariant released + multiset(deferred) == old(released) + multiset(old(deferred))
      {
        var last := |deferred| - 1;
        assert deferred == deferred[..last] + [deferred[last]];
        PutMessage(deferred[last]);
        deferred := deferred[..last];
      }
    }

    method ReleasePending()
      modifies this`pending, this`released
      ensures pending == [] && released == old(released) + multiset(old(pending))
    {
      var i := 0;
      while i < |pending|
        invariant 0 <= i <= |pending| && pending == old(pending)
        invariant released == old(released) + multiset(pending[..i])
      {
        assert pending[..i + 1] == pending[..i] + [pending[i]];
        PutMessage(pending[i]);
        i := i + 1;
      }
      assert pending[..i] == pending;
      pending := [];
    }
  }
}
