/**
 The receive side of one SIP call: the pending queue, the matcher with its
 retransmission timer, the callback that decides the fate of a message the
 current recv does not want, and the deferred releases of pooled messages.
 Follows sections 13.2.2.4, 15.1.2, 17.1.1.2 and 17.1.3 of RFC 3261.

 The network and the clock are inputs: a recv is given the list of passes its
 loop will make, each with the clock readings and the result of the receive
 call of that pass. A list that runs out leaves the recv waiting.
 */
module SipReceive {
  import opened Common

  datatype CSeq = CSeq(num: int, meth: string)

  /** A message that the scenario sends, as the parser sees it. */
  datatype Parsed = Parsed(meth: string, branch: Option<string>, cseq: Option<CSeq>)

  /** One acquisition of a pooled message: `id` names the acquisition, not the address. */
  datatype Msg = Msg(id: nat, startLine: string, meth: string, status: int,
                     branch: Option<string>, cseq: Option<CSeq>)

  /** A recv command; `want` is the status code at the head of `recvResp`, if there is one. */
  datatype RecvCmd = RecvCmd(optional: bool, regex: Option<string -> bool>,
                             recvReq: string, recvResp: string, want: Option<int>)

  /** Cached branch and CSeq of the last message sent: the current transaction. */
  datatype Txn = Txn(branch: string, meth: string, cseq: int)

  datatype Error = DeadlineExceeded | Canceled | NetFailed | SendFailed
                 | OptionalMismatch | ToMain | FinalAbort

  datatype Net = Arrived(m: Msg) | NetError(e: Error)

  /** One pass of the matcher's loop: the clock at its top, what a network read gives,
      the clock after that read, whether the caller's context is done, whether a send works. */
  datatype Pass = Pass(now: int, net: Net, after: int, ctxDone: bool, sendOk: bool)

  /** What a recv reads but does not change: the current transaction and the stored ACK. */
  datatype Dialog = Dialog(txn: Txn, lastSent: Bytes, inviteAck: Bytes, inviteBranch: string)

  /** Where the pooled messages are. `taken` holds every message read from the network, `released`
      every return to the pool, `deferred` the matched ones, released when the call ends. */
  datatype Own = Own(pending: seq<Msg>, taken: multiset<Msg>, released: multiset<Msg>, deferred: seq<Msg>)

  datatype Received = Got(m: Msg, fromPending: bool) | NotGot(e: Error)

  datatype Outcome = Matched(m: Msg) | Failed(e: Error) | Waiting

  datatype StashResult = Kept | Diverted | Aborted

  /** What the callback does with a message that did not match. */
  datatype Fate = Fate(result: StashResult, keep: bool, free: bool, sends: seq<Event>)

  /** The fixed part of one recv. */
  datatype Wait = Wait(cmd: RecvCmd, retrans: nat, t0: int, timeout: int, toMain: bool)

  /** The effect of one pass: how the recv ends, if it does, and what it leaves behind. */
  datatype Step = Step(out: Option<Outcome>, own: Own, finalSeen: bool, events: seq<Event>)

  datatype Event =
    | ScenarioSend(bytes: Bytes, parsed: Option<Parsed>, ack: bool)
    | RecvBegin(cmd: RecvCmd, toMain: bool, udp: bool)
    | LoopPass(pending: seq<Msg>, net: bool, final: bool)
    | Unmatched(m: Msg, news: bool, final: bool)
    | Took(m: Msg, news: bool)
    | Retransmit(bytes: Bytes)
    | Reply(bye: Msg)
    | AckResend(bytes: Bytes)
    | RecvDone(response: bool)

  // ---------- matching ----------

  predicate MatchRecvCached(m: Msg, cmd: RecvCmd, txn: Txn)
  {
    if cmd.recvReq != "" then EqualFold(m.meth, cmd.recvReq)
    else if cmd.recvResp == "" then false
    else if cmd.want.None? || m.status != cmd.want.value then false
    else if txn.meth == "" || m.cseq.None? then true
    else txn.cseq == m.cseq.value.num && EqualFold(txn.meth, m.cseq.value.meth)
  }

  predicate Matches(m: Msg, cmd: RecvCmd, txn: Txn)
  {
    match cmd.regex
    case Some(re) => re(m.startLine)
    case None => MatchRecvCached(m, cmd, txn)
  }

  predicate ResponseMatches(m: Msg, txn: Txn)
  {
    if txn.branch == "" || m.branch.None? then true
    else if !EqualFold(txn.branch, m.branch.value) then false
    else if txn.meth == "" || m.cseq.None? then true
    else EqualFold(txn.meth, m.cseq.value.meth)
  }

  predicate IsBye(m: Msg)
  {
    m.meth == "BYE" && m.status == 0
  }

  /** A final response of the current transaction. */
  predicate FinalNow(m: Msg, txn: Txn)
  {
    m.status >= 200 && ResponseMatches(m, txn)
  }

  predicate HasFinal(p: seq<Msg>)
  {
    exists i :: 0 <= i < |p| && p[i].status >= 200
  }

  /** Position of the first message that the recv wants, or the length if there is none. */
  function FirstMatch(p: seq<Msg>, cmd: RecvCmd, txn: Txn): (i: nat)
    ensures i <= |p|
    ensures i < |p| ==> Matches(p[i], cmd, txn)
    ensures forall j :: 0 <= j < i ==> !Matches(p[j], cmd, txn)
  {
    if p == [] || Matches(p[0], cmd, txn) then 0 else 1 + FirstMatch(p[1..], cmd, txn)
  }

  /** Position of the first final response of the current transaction, or the length. */
  function FirstFinal(p: seq<Msg>, txn: Txn): (i: nat)
    ensures i <= |p|
    ensures i < |p| ==> FinalNow(p[i], txn)
    ensures forall j :: 0 <= j < i ==> !FinalNow(p[j], txn)
  {
    if p == [] || FinalNow(p[0], txn) then 0 else 1 + FirstFinal(p[1..], txn)
  }

  // ---------- one pass of the matcher ----------

  /** Whether a recv with this pending queue turns to the network. */
  predicate ReadsNet(p: seq<Msg>, cmd: RecvCmd, txn: Txn)
  {
    if cmd.optional then FirstMatch(p, cmd, txn) == |p| && !HasFinal(p) else p == []
  }

  /** A pending message if the recv may use one, the network otherwise. */
  function Take(cmd: RecvCmd, txn: Txn, own: Own, net: Net): (Received, Own)
  {
    var p := own.pending;
    if ReadsNet(p, cmd, txn) then
      match net
      case Arrived(m) => (Got(m, false), own.(taken := own.taken + multiset{m}))
      case NetError(e) => (NotGot(e), own)
    else
      var i := if cmd.optional then FirstMatch(p, cmd, txn) else 0;
      if i < |p| then (Got(p[i], true), own.(pending := Without(p, i)))
      else (NotGot(OptionalMismatch), own)
  }

  /** The stored ACK goes out again for a retransmitted 200 of the INVITE. */
  function AckFor(d: Dialog, m: Msg): seq<Event>
  {
    if m.status == 200 && d.inviteAck != [] && d.inviteBranch != ""
       && m.branch.Some? && EqualFold(m.branch.value, d.inviteBranch)
    then [AckResend(d.inviteAck)] else []
  }

  predicate NotWaitingForBye(cmd: RecvCmd, m: Msg)
  {
    match cmd.regex
    case Some(re) => !re(m.startLine)
    case None => cmd.recvReq != "BYE"
  }

  function FateOf(d: Dialog, cmd: RecvCmd, m: Msg, fromPending: bool, toMain: bool): Fate
  {
    var stale := m.status > 0 && !ResponseMatches(m, d.txn);
    if IsBye(m) && NotWaitingForBye(cmd, m) then Fate(Kept, false, !fromPending, [Reply(m)])
    else if fromPending then
      if cmd.optional then Fate(Kept, true, false, [])
      else if stale then Fate(Kept, false, false, AckFor(d, m))
      else if FinalNow(m, d.txn) && !toMain then Fate(Aborted, false, false, [])
      else Fate(Kept, false, false, [])
    else if stale then Fate(Kept, false, true, AckFor(d, m))
    else if 0 < m.status < 200 then Fate(Kept, false, true, [])
    else if toMain then Fate(Diverted, false, false, [])
    else if !cmd.optional && FinalNow(m, d.txn) then Fate(Aborted, false, false, [])
    else Fate(Kept, true, false, [])
  }

  function Dispose(own: Own, m: Msg, f: Fate): Own
  {
    own.(pending := if f.keep then own.pending + [m] else own.pending,
         released := if f.free then own.released + multiset{m} else own.released)
  }

  function Put(own: Own, m: Msg): Own
  {
    own.(released := own.released + multiset{m})
  }

  /** A message in the matcher's hands. */
  function Judge(d: Dialog, wt: Wait, own: Own, finalSeen: bool, m: Msg, fromPending: bool): Step
  {
    if Matches(m, wt.cmd, d.txn) then Step(Some(Matched(m)), own, finalSeen, [Took(m, !fromPending)])
    else
      var f := FateOf(d, wt.cmd, m, fromPending, wt.toMain);
      var own' := Dispose(own, m, f);
      var events := [Unmatched(m, !fromPending, FinalNow(m, d.txn))] + f.sends;
      if f.result != Kept then
        Step(Some(Failed(if f.result == Diverted then ToMain else FinalAbort)), Put(own', m), finalSeen, events)
      else
        var final := finalSeen || FinalNow(m, d.txn);
        if wt.cmd.optional then Step(Some(Failed(OptionalMismatch)), own', final, events)
        else Step(None, if fromPending then Put(own', m) else own', final, events)
  }

  predicate Resends(d: Dialog, wt: Wait, finalSeen: bool, pass: Pass, e: Error)
  {
    e == DeadlineExceeded && wt.retrans > 0 && !finalSeen && d.lastSent != []
    && pass.after < wt.t0 + wt.timeout && !pass.ctxDone
  }

  /** The event at the top of a pass: the queue it found, whether it reads the network, and whether
      that read gives a final response of the current transaction. */
  function Began(d: Dialog, wt: Wait, own: Own, pass: Pass): Event
  {
    var net := ReadsNet(own.pending, wt.cmd, d.txn);
    LoopPass(own.pending, net, net && pass.net.Arrived? && FinalNow(pass.net.m, d.txn))
  }

  function PassStep(d: Dialog, wt: Wait, own: Own, finalSeen: bool, pass: Pass): Step
  {
    if pass.now > wt.t0 + wt.timeout then Step(Some(Failed(DeadlineExceeded)), own, finalSeen, [])
    else
      var (r, own') := Take(wt.cmd, d.txn, own, pass.net);
      var began := [Began(d, wt, own, pass)];
      match r
      case Got(m, fromPending) =>
        var j := Judge(d, wt, own', finalSeen, m, fromPending);
        j.(events := began + j.events)
      case NotGot(e) =>
        if Resends(d, wt, finalSeen, pass, e) then
          Step(if pass.sendOk then None else Some(Failed(SendFailed)), own', finalSeen,
               began + [Retransmit(d.lastSent)])
        else Step(Some(Failed(e)), own', finalSeen, began)
  }

  /** The whole recv loop. */
  function LoopRun(d: Dialog, wt: Wait, own: Own, finalSeen: bool, passes: seq<Pass>): (r: (Outcome, Own, seq<Event>))
    decreases |passes|
  {
    if passes == [] then (Waiting, own, [])
    else
      var st := PassStep(d, wt, own, finalSeen, passes[0]);
      match st.out
      case Some(out) => (out, st.own, st.events)
      case None =>
        var (out, own', events) := LoopRun(d, wt, st.own, st.finalSeen, passes[1..]);
        (out, own', st.events + events)
  }
}
