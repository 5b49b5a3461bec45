/**
 The pacer of new calls: it spaces the returns of Wait by one period, lets a
 caller that fell behind catch up, and bounds the catch-up burst. Times are in
 nanoseconds; the controller is changed under its lock, one step at a time.
 */
module Rate {
  import opened Common

  const SECOND := 1_000_000_000
  const MAX_BURST := 10

  /** A positive rate stays as it is; any other becomes one call a second. */
  function SanitizeRate(rate: real): (r: real)
    ensures r > 0.0
    ensures rate > 0.0 ==> r == rate
    ensures rate <= 0.0 ==> r == 1.0
  {
    if rate <= 0.0 then 1.0 else rate
  }

  /** Whole nanoseconds per call, never zero: as many as fit a second at this rate, and not one more. */
  function RateToPeriod(rate: real): (p: int)
    ensures p >= 1
    ensures 0.0 < rate <= SECOND as real ==> p as real * rate <= SECOND as real < (p + 1) as real * rate
    ensures rate > SECOND as real ==> p == 1
    ensures rate <= 0.0 ==> p == SECOND
  {
    var r := SanitizeRate(rate);
    QuotientFits(SECOND as real, r);
    var period := (SECOND as real / r).Floor;
    if period <= 0 then 1 else period
  }

  lemma Grows(a: real, b: real, r: real)
    requires r > 0.0
    ensures a < b <==> a * r < b * r
  {
    assert (b - a) * r == b * r - a * r;
  }

  lemma QuotientFits(s: real, r: real)
    requires r > 0.0
    ensures var q := (s / r).Floor;
            q as real * r <= s < (q + 1) as real * r && (s >= r <==> q >= 1)
  {
    var x := s / r;
    var q := x.Floor;
    var up := (q + 1) as real;
    assert x * r == s;
    assert q as real <= x < up;
    Grows(x, q as real, r);
    Grows(x, up, r);
    assert s < up * r;
    Grows(x, 1.0, r);
  }

  /** The instant the next call should fire at: one period on, and at most MAX_BURST periods of arrears. */
  function NextTarget(fire: int, now: int, p: int): int
  {
    (if fire < now - MAX_BURST * p then now - MAX_BURST * p else fire) + p
  }

  datatype Outcome = Stopped | Held | Target(t: int)

  class RateController {
    var rate: real
    var paused: bool
    var stopped: bool
    var nextFire: Option<int>

    ghost predicate Valid()
      reads this
    {
      rate > 0.0
    }

    constructor (r: real, now: int)
      ensures Valid() && rate == SanitizeRate(r) && !paused && !stopped && nextFire == Some(now)
    {
      rate, paused, stopped, nextFire := SanitizeRate(r), false, false, Some(now);
    }

    /** One pass of Wait, up to the point where it sleeps until the target. */
    method Pass(now: int) returns (out: Outcome)
      requires Valid()
      modifies this`nextFire
      ensures Valid()
      ensures out == if stopped then Stopped else if paused then Held
                     else Target(NextTarget(if old(nextFire).Some? then old(nextFire).value else now, now, RateToPeriod(rate)))
      ensures nextFire == if out.Target? then Some(out.t) else old(nextFire)
    {
      if stopped {
        return Stopped;
      }
      if paused {
        return Held;
      }
      var period := RateToPeriod(rate);
      if nextFire.None? {
        nextFire := Some(now);
      }
      var earliest := now - MAX_BURST * period;
      if nextFire.value < earliest {
        nextFire := Some(earliest);
      }
      nextFire := Some(nextFire.value + period);
      return Target(nextFire.value);
    }

    method SetRate(r: real, now: int)
      requires Valid()
      modifies this`rate, this`nextFire
      ensures Valid() && rate == SanitizeRate(r) && nextFire == Some(now)
    {
      rate, nextFire := SanitizeRate(r), Some(now);
    }

    method AdjustRate(delta: real, now: int)
      requires Valid()
      modifies this`rate, this`nextFire
      ensures Valid() && rate == SanitizeRate(old(rate) + delta) && nextFire == Some(now)
    {
      rate, nextFire := SanitizeRate(rate + delta), Some(now);
    }

    method Pause()
      requires Valid()
      modifies this`paused
      ensures Valid() && paused
    {
      paused := true;
    }

    method Resume(now: int)
      requires Valid()
      modifies this`paused, this`nextFire
      ensures Valid() && !paused && nextFire == Some(now)
    {
      paused, nextFire := false, Some(now);
    }

    method Stop()
      requires Valid()
      modifies this`stopped
      ensures Valid() && stopped
    {
      stopped := true;
    }
  }

  // ---------- runs of one caller at a fixed rate ----------

  /** Begin: a pass of Wait computes its target. Return: Wait returns, at once when the target has passed,
      by its timer otherwise. Reset: the schedule restarts (resume, or a rate set to its own value), which
      wakes a sleeping pass. Abandon: the context ends a sleeping pass. */
  datatype Step = Begin(now: int) | Return(at: int) | Reset(now: int) | Abandon(now: int)

  datatype Done = Done(at: int, target: int)

  datatype State = State(fire: int, clock: int, pass: Option<Done>, done: seq<Done>)

  /** The clock never goes back, and a pass that sleeps returns no sooner than its target. */
  predicate Enabled(s: State, e: Step)
  {
    match e
    case Begin(now) => now >= s.clock && s.pass.None?
    case Return(at) =>
      s.pass.Some? && at >= s.clock && (if s.pass.value.target <= s.pass.value.at then at == s.pass.value.at else at >= s.pass.value.target)
    case Reset(now) => now >= s.clock
    case Abandon(now) => now >= s.clock
  }

  function Apply(s: State, e: Step, p: int): State
    requires Enabled(s, e)
  {
    match e
    case Begin(now) =>
      var t := NextTarget(s.fire, now, p);
      s.(fire := t, clock := now, pass := Some(Done(now, t)))
    case Return(at) => s.(clock := at, pass := None, done := s.done + [Done(at, s.pass.value.target)])
    case Reset(now) => s.(fire := now, clock := now, pass := None)
    case Abandon(now) => s.(clock := now, pass := None)
  }

  predicate Possible(s: State, es: seq<Step>, p: int)
    decreases |es|
  {
    es == [] || (Enabled(s, es[0]) && Possible(Apply(s, es[0], p), es[1..], p))
  }

  function Run(s: State, es: seq<Step>, p: int): State
    requires Possible(s, es, p)
    decreases |es|
  {
    if es == [] then s else Run(Apply(s, es[0], p), es[1..], p)
  }

  function Start(now: int): State
  {
    State(now, now, None, [])
  }

  /** A return is no sooner than its target; targets are a period apart; and a target is at most nine
      periods behind the return before it. */
  ghost predicate Spaced(done: seq<Done>, p: int)
  {
    && (forall i :: 0 <= i < |done| ==> done[i].target <= done[i].at)
    && (forall i, j :: 0 <= i < j < |done| && j == i + 1 ==>
          done[i].target + p <= done[j].target && done[i].at - (MAX_BURST - 1) * p <= done[j].target && done[i].at <= done[j].at)
  }

  ghost predicate Inv(s: State, p: int)
  {
    && p >= 1 && Spaced(s.done, p)
    && (s.done != [] ==>
          var last := s.done[|s.done| - 1];
          && last.target <= s.fire && last.at <= s.clock
          && (s.pass.Some? ==>
                && last.target + p <= s.pass.value.target
                && last.at - (MAX_BURST - 1) * p <= s.pass.value.target
                && last.at <= s.pass.value.at))
    && (s.pass.Some? ==> s.fire == s.pass.value.target && s.pass.value.at == s.clock)
  }

  lemma BeginKeeps(s: State, now: int, p: int)
    requires Inv(s, p) && Enabled(s, Begin(now))
    ensures Inv(Apply(s, Begin(now), p), p)
  {
    hide Spaced;
  }

  /** One more return after the last. */
  lemma SpacedNext(done: seq<Done>, d: Done, p: int)
    requires Spaced(done, p) && d.target <= d.at
    requires done != [] ==>
               var last := done[|done| - 1];
               last.target + p <= d.target && last.at - (MAX_BURST - 1) * p <= d.target && last.at <= d.at
    ensures Spaced(done + [d], p)
  {
  }

  lemma ReturnKeeps(s: State, at: int, p: int)
    requires Inv(s, p) && Enabled(s, Return(at))
    ensures Inv(Apply(s, Return(at), p), p)
  {
    hide Spaced;
    SpacedNext(s.done, Done(at, s.pass.value.target), p);
  }

  lemma RestartKeeps(s: State, e: Step, p: int)
    requires Inv(s, p) && Enabled(s, e) && (e.Reset? || e.Abandon?)
    ensures Inv(Apply(s, e, p), p)
  {
    hide Spaced;
    if s.done != [] {
      TargetsPassed(s.done, p);
    }
  }

  lemma TargetsPassed(done: seq<Done>, p: int)
    requires Spaced(done, p) && done != []
    ensures done[|done| - 1].target <= done[|done| - 1].at
  {
  }

  lemma StepKeeps(s: State, e: Step, p: int)
    requires Inv(s, p) && Enabled(s, e)
    ensures Inv(Apply(s, e, p), p)
  {
    hide *;
    match e
    case Begin(now) => BeginKeeps(s, now, p);
    case Return(at) => ReturnKeeps(s, at, p);
    case _ => RestartKeeps(s, e, p);
  }

  lemma {:induction false} RunKeeps(s: State, es: seq<Step>, p: int)
    requires Inv(s, p) && Possible(s, es, p)
    ensures Inv(Run(s, es, p), p)
    decreases |es|
  {
    hide Inv;
    if es != [] {
      StepKeeps(s, es[0], p);
      RunKeeps(Apply(s, es[0], p), es[1..], p);
    }
  }

  lemma {:induction false} TargetsApart(done: seq<Done>, i: nat, j: nat, p: int)
    requires Spaced(done, p) && i <= j < |done|
    ensures done[i].target + (j - i) * p <= done[j].target
    decreases j - i
  {
    if i < j {
      TargetsApart(done, i, j - 1, p);
      assert (j - i) * p == (j - 1 - i) * p + p;
    }
  }

  /** In every run, the returns i..j, n of them, span at least n - 11 periods; and at least n - 10 when
      return i is at most nine periods later than its target, which every return without a timer is. */
  lemma RateBound(now: int, es: seq<Step>, p: int, i: nat, j: nat)
    requires p >= 1 && Possible(Start(now), es, p)
    requires i <= j < |Run(Start(now), es, p).done|
    ensures var done := Run(Start(now), es, p).done;
            var n, w := j - i + 1, done[j].at - done[i].at;
            && (n - MAX_BURST - 1) * p <= w
            && (done[i].at <= done[i].target + (MAX_BURST - 1) * p ==> (n - MAX_BURST) * p <= w)
  {
    hide Possible, Run;
    RunKeeps(Start(now), es, p);
    var done := Run(Start(now), es, p).done;
    TargetsApart(done, i, j, p);
    assert (j - i) * p - (MAX_BURST - 1) * p == (j - i + 1 - MAX_BURST) * p;
    if i < j {
      TargetsApart(done, i + 1, j, p);
      assert (j - i - 1) * p - (MAX_BURST - 1) * p == (j - i + 1 - MAX_BURST - 1) * p;
    }
  }

  lemma {:induction false} RunSnoc(s: State, es: seq<Step>, e: Step, p: int)
    requires Possible(s, es, p) && Enabled(Run(s, es, p), e)
    ensures Possible(s, es + [e], p) && Run(s, es + [e], p) == Apply(Run(s, es, p), e, p)
    decreases |es|
  {
    if es == [] {
      assert es + [e] == [e];
    } else {
      assert (es + [e])[1..] == es[1..] + [e];
      RunSnoc(Apply(s, es[0], p), es[1..], e, p);
    }
  }

  /** A pass that begins when the last one returned, and its return. */
  lemma Again(es: seq<Step>, p: int) returns (es': seq<Step>)
    requires p >= 1 && Possible(Start(0), es, p) && Run(Start(0), es, p).pass.None?
    ensures Possible(Start(0), es', p)
    ensures var s, s' := Run(Start(0), es, p), Run(Start(0), es', p);
            var t := NextTarget(s.fire, s.clock, p);
            var at := if t <= s.clock then s.clock else t;
            s' == State(t, at, None, s.done + [Done(at, t)])
  {
    var s := Run(Start(0), es, p);
    var t := NextTarget(s.fire, s.clock, p);
    RunSnoc(Start(0), es, Begin(s.clock), p);
    var es1 := es + [Begin(s.clock)];
    var back := Return(if t <= s.clock then s.clock else t);
    RunSnoc(Start(0), es1, back, p);
    es' := es1 + [back];
  }

  /** k immediate returns after a return that came `late` after its target. */
  ghost predicate Rushed(es: seq<Step>, p: int, late: int, k: nat)
  {
    && p >= 1 && Possible(Start(0), es, p)
    && var s := Run(Start(0), es, p);
       var base := if late <= MAX_BURST * p then p else p + late - MAX_BURST * p;
       && s.pass.None? && s.clock == p + late && |s.done| == k + 1 && s.done[0] == Done(p + late, p)
       && s.fire == if k == 0 then p else base + k * p
  }

  lemma FirstLate(p: int, late: int) returns (es: seq<Step>)
    requires p >= 1 && late >= 0
    ensures Rushed(es, p, late, 0)
  {
    RunSnoc(Start(0), [], Begin(0), p);
    es := [] + [Begin(0)];
    RunSnoc(Start(0), es, Return(p + late), p);
    es := es + [Return(p + late)];
  }

  /** Up to the ninth, the next return is immediate; the tenth comes within a period. */
  lemma RushStep(es: seq<Step>, p: int, late: int, k: nat) returns (es': seq<Step>)
    requires Rushed(es, p, late, k) && late > (MAX_BURST - 1) * p && k <= 9
    ensures k < 9 ==> Rushed(es', p, late, k + 1)
    ensures Possible(Start(0), es', p)
    ensures var done := Run(Start(0), es', p).done;
            |done| == k + 2 && done[0] == Done(p + late, p) && done[k + 1].at - done[0].at < p
  {
    hide Possible, Run;
    es' := Again(es, p);
    assert (k + 1) * p == k * p + p;
    assert k * p <= 9 * p;
  }

  /** The ten-period bound needs its condition: after any return that a timer made more than nine periods
      late, a run goes on to eleven returns within less than one period. */
  lemma LateTimerBurst(p: int, late: int) returns (es: seq<Step>)
    requires p >= 1 && late > (MAX_BURST - 1) * p
    ensures Possible(Start(0), es, p)
    ensures var done := Run(Start(0), es, p).done;
            |done| == 11 && done[0].at == done[0].target + late && done[10].at - done[0].at < p
  {
    hide Possible, Run, Rushed;
    es := FirstLate(p, late);
    var k := 0;
    while k < 9
      invariant 0 <= k <= 9 && Rushed(es, p, late, k)
    {
      es := RushStep(es, p, late, k);
      k := k + 1;
    }
    es := RushStep(es, p, late, 9);
  }

  // ---------- no drift ----------

  /** The target of the k-th pass, when the passes begin at the given instants. */
  function TargetAt(start: int, nows: seq<int>, p: int, k: nat): int
    requires k < |nows|
  {
    NextTarget(if k == 0 then start else TargetAt(start, nows, p, k - 1), nows[k], p)
  }

  /** The k-th instant of the schedule, k + 1 periods after the start. */
  function Due(start: int, p: int, k: nat): int
  {
    start + (k + 1) * p
  }

  /** MAX_BURST periods after the instant before it. */
  function Latest(start: int, p: int, k: nat): int
  {
    start + (k + MAX_BURST) * p
  }

  ghost predicate Exact(start: int, nows: seq<int>, p: int, k: nat)
    requires k < |nows|
  {
    TargetAt(start, nows, p, k) == Due(start, p, k)
  }

  /** The k-th pass begins at most MAX_BURST periods after the exact target before it. */
  ghost predicate InTime(start: int, nows: seq<int>, p: int, k: nat)
    requires k < |nows|
  {
    nows[k] <= Latest(start, p, k)
  }

  lemma ExactIffInTime(start: int, nows: seq<int>, p: int, k: nat)
    requires p >= 1 && k < |nows| && (k > 0 ==> Exact(start, nows, p, k - 1))
    ensures Exact(start, nows, p, k) <==> InTime(start, nows, p, k)
  {
    assert (k + 1) * p == k * p + p && (k + MAX_BURST) * p == k * p + MAX_BURST * p;
  }

  lemma {:induction false} OnSchedule(start: int, nows: seq<int>, p: int, k: nat)
    requires p >= 1 && k < |nows|
    requires forall i :: 0 <= i <= k ==> InTime(start, nows, p, i)
    ensures Exact(start, nows, p, k)
  {
    hide InTime, Exact;
    if k > 0 {
      OnSchedule(start, nows, p, k - 1);
    }
    ExactIffInTime(start, nows, p, k);
  }

  /** The targets are exactly a period apart from the start, for every pass, if and only if no pass
      begins more than MAX_BURST periods after the target before it. */
  lemma NoDrift(start: int, nows: seq<int>, p: int)
    requires p >= 1
    ensures (forall k :: 0 <= k < |nows| ==> Exact(start, nows, p, k))
            <==> (forall k :: 0 <= k < |nows| ==> InTime(start, nows, p, k))
  {
    hide InTime, Exact;
    if forall k :: 0 <= k < |nows| ==> InTime(start, nows, p, k) {
      forall k | 0 <= k < |nows| ensures Exact(start, nows, p, k) {
        OnSchedule(start, nows, p, k);
      }
    }
    if forall k :: 0 <= k < |nows| ==> Exact(start, nows, p, k) {
      forall k | 0 <= k < |nows| ensures InTime(start, nows, p, k) {
        assert k > 0 ==> Exact(start, nows, p, k - 1);
        ExactIffInTime(start, nows, p, k);
      }
    }
  }

  // ---------- the same over runs ----------

  /** A run in which nothing restarts the schedule or gives a pass up. */
  predicate Steady(es: seq<Step>)
  {
    forall i :: 0 <= i < |es| ==> es[i].Begin? || es[i].Return?
  }

  /** When its passes began. */
  function Begins(es: seq<Step>): seq<int>
  {
    if es == [] then [] else (if es[0].Begin? then [es[0].now] else []) + Begins(es[1..])
  }

  lemma {:induction false} TargetPrefix(start: int, a: seq<int>, b: seq<int>, p: int, k: nat)
    requires k < |a|
    ensures TargetAt(start, a + b, p, k) == TargetAt(start, a, p, k)
  {
    if k > 0 {
      TargetPrefix(start, a, b, p, k - 1);
    }
  }

  /** The passes begun so far had the targets of the recursion. */
  ghost predicate OnTarget(s: State, start: int, nows: seq<int>, p: int)
  {
    && s.fire == (if nows == [] then start else TargetAt(start, nows, p, |nows| - 1))
    && |nows| == |s.done| + (if s.pass.Some? then 1 else 0)
    && (s.pass.Some? ==> s.pass.value.target == s.fire)
    && (forall k :: 0 <= k < |s.done| ==> s.done[k].target == TargetAt(start, nows, p, k))
  }

  lemma BeginOnTarget(s: State, start: int, nows: seq<int>, now: int, p: int)
    requires OnTarget(s, start, nows, p) && Enabled(s, Begin(now))
    ensures OnTarget(Apply(s, Begin(now), p), start, nows + [now], p)
  {
    hide NextTarget;
    forall k | 0 <= k < |nows|
      ensures TargetAt(start, nows + [now], p, k) == TargetAt(start, nows, p, k)
    {
      TargetPrefix(start, nows, [now], p, k);
    }
    assert TargetAt(start, nows + [now], p, |nows|) == NextTarget(s.fire, now, p);
  }

  lemma ReturnOnTarget(s: State, start: int, nows: seq<int>, at: int, p: int)
    requires OnTarget(s, start, nows, p) && Enabled(s, Return(at))
    ensures OnTarget(Apply(s, Return(at), p), start, nows, p)
  {
    hide TargetAt;
  }

  lemma {:induction false} RunOnTarget(s: State, es: seq<Step>, start: int, nows: seq<int>, p: int)
    requires OnTarget(s, start, nows, p) && Possible(s, es, p) && Steady(es)
    ensures OnTarget(Run(s, es, p), start, nows + Begins(es), p)
    decreases |es|
  {
    hide OnTarget, Apply, Enabled;
    if es == [] {
      assert nows + Begins(es) == nows;
    } else {
      var s' := Apply(s, es[0], p);
      match es[0] {
        case Begin(now) =>
          BeginOnTarget(s, start, nows, now, p);
          RunOnTarget(s', es[1..], start, nows + [now], p);
          assert nows + [now] + Begins(es[1..]) == nows + Begins(es);
        case Return(at) =>
          ReturnOnTarget(s, start, nows, at, p);
          RunOnTarget(s', es[1..], start, nows, p);
          assert nows + Begins(es[1..]) == nows + Begins(es);
        case _ =>
          assert false;
      }
    }
  }

  /** In such a run the targets of the returns are exactly the instants of the schedule if and only if no pass
      began more than MAX_BURST periods after the instant before it. */
  lemma SteadyRunsDoNotDrift(now: int, es: seq<Step>, p: int)
    requires p >= 1 && Possible(Start(now), es, p) && Steady(es)
    ensures var done := Run(Start(now), es, p).done;
            && |done| <= |Begins(es)|
            && ((forall k :: 0 <= k < |done| ==> done[k].target == Due(now, p, k))
                <==> (forall k :: 0 <= k < |done| ==> Begins(es)[k] <= Latest(now, p, k)))
  {
    hide TargetAt, Possible, Run, Begins, Due, Latest;
    RunOnTarget(Start(now), es, now, [], p);
    assert [] + Begins(es) == Begins(es);
    var done := Run(Start(now), es, p).done;
    var a, b := Begins(es)[..|done|], Begins(es)[|done|..];
    assert a + b == Begins(es);
    forall k | 0 <= k < |done|
      ensures Exact(now, a, p, k) <==> done[k].target == Due(now, p, k)
      ensures InTime(now, a, p, k) <==> Begins(es)[k] <= Latest(now, p, k)
    {
      TargetPrefix(now, a, b, p, k);
    }
    NoDrift(now, a, p);
  }

  // ---------- calls per second ----------

  lemma Scale(a: real, x: real, y: real)
    requires a >= 0.0 && x <= y
    ensures a * x <= a * y
  {
  }

  /** From periods to calls at a rate. */
  lemma PeriodsAsCalls(a: nat, p: int, w: int, rate: real)
    requires a * p <= w && rate > 0.0 && SECOND as real < (p + 1) as real * rate
    ensures a as real * (SECOND as real - rate) <= w as real * rate
  {
    var x := p as real * rate;
    assert (p + 1) as real * rate == x + rate;
    Scale(a as real, SECOND as real - rate, x);
    assert (a * p) as real * rate == a as real * x;
    Scale(rate, (a * p) as real, w as real);
  }

  /** In every run of a controller with this rate, n returns within w nanoseconds are at most eleven more than the rate
      allows, and ten more when the first is at most nine periods late. The rate is that of the period in
      whole nanoseconds, whose rounding makes a second shorter by at most `rate` nanoseconds. */
  lemma CallsPerSecond(now: int, es: seq<Step>, rate: real, i: nat, j: nat)
    requires 0.0 < rate <= SECOND as real && Possible(Start(now), es, RateToPeriod(rate))
    requires i <= j < |Run(Start(now), es, RateToPeriod(rate)).done|
    ensures var done := Run(Start(now), es, RateToPeriod(rate)).done;
            var n, w := j - i + 1, done[j].at - done[i].at;
            && (n >= 11 ==> (n - 11) as real * (SECOND as real - rate) <= w as real * rate)
            && (n >= 10 && done[i].at <= done[i].target + 9 * RateToPeriod(rate) ==>
                  (n - 10) as real * (SECOND as real - rate) <= w as real * rate)
  {
    hide Possible, Run, RateToPeriod;
    var p := RateToPeriod(rate);
    RateBound(now, es, p, i, j);
    var done := Run(Start(now), es, p).done;
    var n, w := j - i + 1, done[j].at - done[i].at;
    if n >= 11 {
      PeriodsAsCalls(n - 11, p, w, rate);
    }
    if n >= 10 && done[i].at <= done[i].target + 9 * p {
      PeriodsAsCalls(n - 10, p, w, rate);
    }
  }

  lemma ProductDown(k: nat, p: int, rate: real)
    requires rate > 0.0 && p as real * rate <= SECOND as real < (p + 1) as real * rate
    ensures var d := ((k + 1) * p) as real;
            (k + 1) as real * (SECOND as real - rate) < d * rate <= (k + 1) as real * SECOND as real
  {
    var a, x := (k + 1) as real, p as real * rate;
    assert ((k + 1) * p) as real * rate == a * x;
    assert (p + 1) as real * rate == x + rate;
    assert a * (x - (SECOND as real - rate)) > 0.0;
    Scale(a, x, SECOND as real);
  }

  /** In a run without restarts in which no pass began too late, the k-th call is due k + 1 calls' worth of the rate
      after the start, never later and less than k + 1 nanoseconds early. */
  lemma SteadyRate(now: int, es: seq<Step>, rate: real, k: nat)
    requires 0.0 < rate <= SECOND as real && Possible(Start(now), es, RateToPeriod(rate)) && Steady(es)
    requires k < |Run(Start(now), es, RateToPeriod(rate)).done|
    requires var p := RateToPeriod(rate);
             forall i :: 0 <= i < |Run(Start(now), es, p).done| && i < |Begins(es)| ==> Begins(es)[i] <= Latest(now, p, i)
    ensures var done := Run(Start(now), es, RateToPeriod(rate)).done;
            var due := (done[k].target - now) as real;
            && (k + 1) as real * (SECOND as real - rate) < due * rate <= (k + 1) as real * SECOND as real
            && done[k].at >= done[k].target
  {
    hide Possible, Run, RateToPeriod, Begins, Latest;
    var p := RateToPeriod(rate);
    SteadyRunsDoNotDrift(now, es, p);
    RunKeeps(Start(now), es, p);
    var done := Run(Start(now), es, p).done;
    assert done[k].target == Due(now, p, k);
    ProductDown(k, p, rate);
  }
}
