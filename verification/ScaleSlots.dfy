/** The due slots of a stream: t, t + d, t + 2d, ... up to now. */
module ScaleSlots {
  import opened Arith

  /** How many slots are due. */
  function Left(t: int, d: int, now: int): nat
    requires d > 0
  {
    if t > now then 0 else (now - t) / d + 1
  }

  /** The first n slots from t. */
  function Slots(t: int, d: int, n: nat): (r: seq<int>)
    ensures |r| == n
  {
    if n == 0 then [] else Slots(t, d, n - 1) + [t + (n - 1) * d]
  }

  /** One slot fewer after each step. */
  lemma LeftStep(t: int, d: int, now: int)
    requires d > 0 && t <= now
    ensures Left(t, d, now) == Left(t + d, d, now) + 1
  {
    if t + d <= now {
      DivStep(now - t, d);
    } else {
      DivSmall(now - t, d);
    }
  }

  /** The slots of a tick are exactly the instants of the stream's schedule up to now. */
  lemma {:induction false} SlotsAreExact(t: int, d: int, now: int, x: int)
    requires d > 0
    ensures x in Slots(t, d, Left(t, d, now)) <==> t <= x <= now && (x - t) % d == 0
    decreases Left(t, d, now)
  {
    if t <= now {
      LeftStep(t, d, now);
      SlotsAreExact(t + d, d, now, x);
      SlotsCons(t, d, Left(t, d, now));
      DivStep(x - t, d);
      if t <= x < t + d {
        DivSmall(x - t, d);
      }
    }
  }

  lemma {:induction false} SlotsCons(t: int, d: int, n: nat)
    requires n > 0
    ensures Slots(t, d, n) == [t] + Slots(t + d, d, n - 1)
  {
    if n > 1 {
      SlotsCons(t, d, n - 1);
      assert t + (n - 1) * d == (t + d) + (n - 2) * d;
    }
  }

  /** The times recorded for x in a list of (element, time) pairs. */
  function TimesOf<T(==)>(due: seq<T>, times: seq<int>, x: T): seq<int>
    requires |due| == |times|
  {
    if due == [] then []
    else
      var n := |due| - 1;
      TimesOf(due[..n], times[..n], x) + (if due[n] == x then [times[n]] else [])
  }

  lemma TimesOfAdd<T>(due: seq<T>, times: seq<int>, y: T, t: int, x: T)
    requires |due| == |times|
    ensures TimesOf(due + [y], times + [t], x) == TimesOf(due, times, x) + (if y == x then [t] else [])
  {
    assert (due + [y])[..|due|] == due && (times + [t])[..|due|] == times;
  }

  ghost predicate Sorted(s: seq<int>)
  {
    forall i, j :: 0 <= i < j < |s| ==> s[i] <= s[j]
  }
}
