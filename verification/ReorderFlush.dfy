/** In which order a full reorder buffer is recorded. */
module ReorderFlush {
  import opened Common
  import opened Arith
  import opened Wire
  import opened Reorder

  /** How far ahead of the next number another one is. */
  function Ahead(next: Word16, n: Word16): int
  {
    if n > next then n - next else n - next + 0x1_0000
  }

  /** The frames stand as the stream sent them. */
  ghost predicate InStreamOrder(buf: seq<Sample>, next: Word16)
  {
    forall i, j :: 0 <= i < j < |buf| ==> Ahead(next, buf[i].number) < Ahead(next, buf[j].number)
  }

  /** Frames wait on both sides of the wrap from 65535 to 0. */
  ghost predicate Straddles(buf: seq<Sample>, next: Word16)
  {
    (exists x :: x in buf && x.number > next) && (exists y :: y in buf && y.number < next)
  }

  ghost predicate Waits(buf: seq<Sample>, next: Word16)
  {
    Distinct(buf) && forall i :: 0 <= i < |buf| ==> buf[i].number != next
  }

  lemma {:induction false} InsertDistinct(s: Sample, buf: seq<Sample>)
    requires Distinct(buf) && forall i :: 0 <= i < |buf| ==> buf[i].number != s.number
    ensures Distinct(Insert(s, buf))
  {
    if buf != [] && s.number >= buf[0].number {
      InsertDistinct(s, buf[1..]);
      var r := Insert(s, buf[1..]);
      forall x | x in r
        ensures x.number != buf[0].number
      {
        assert x in multiset(r);
      }
    }
  }

  lemma SortMembers(buf: seq<Sample>)
    ensures |Sort(buf)| == |buf|
    ensures forall x :: x in buf ==> x in Sort(buf)
    ensures forall x :: x in Sort(buf) ==> x in buf
  {
    hide Sort;
    var s := Sort(buf);
    assert |multiset(s)| == |multiset(buf)|;
    forall x | x in buf
      ensures x in s
    {
      assert x in multiset(buf) && x in multiset(s);
    }
    forall x | x in s
      ensures x in buf
    {
      assert x in multiset(s) && x in multiset(buf);
    }
  }

  lemma SortStep(buf: seq<Sample>)
    requires buf != []
    ensures Sort(buf) == Insert(buf[0], Sort(buf[1..]))
  {
  }

  lemma {:induction false} SortDistinct(buf: seq<Sample>)
    requires Distinct(buf)
    ensures Distinct(Sort(buf))
    decreases |buf|, 1
  {
    if buf == [] {
      assert Sort(buf) == [];
    } else {
      SortDistinctStep(buf);
    }
  }

  lemma SortDistinctStep(buf: seq<Sample>)
    requires Distinct(buf) && buf != []
    ensures Distinct(Sort(buf))
    decreases |buf|, 0
  {
    hide Sort, Insert;
    var rest := buf[1..];
    SortDistinct(rest);
    SortMembers(rest);
    forall i | 0 <= i < |Sort(rest)|
      ensures Sort(rest)[i].number != buf[0].number
    {
      var x := Sort(rest)[i];
      assert x in rest;
      var j :| 0 <= j < |rest| && rest[j] == x;
      assert buf[j + 1] == x;
    }
    InsertDistinct(buf[0], Sort(rest));
    SortStep(buf);
  }

  /** Numbers in strictly rising order. */
  ghost predicate Strict(s: seq<Sample>)
  {
    forall i, j :: 0 <= i < j < |s| ==> s[i].number < s[j].number
  }

  lemma SortStrict(buf: seq<Sample>)
    requires Distinct(buf)
    ensures Strict(Sort(buf))
  {
    hide Sort;
    SortDistinct(buf);
    SortRises(buf);
  }

  /** For a list in rising order of numbers. */
  lemma StrictOrder(s: seq<Sample>, next: Word16)
    requires Strict(s) && forall i :: 0 <= i < |s| ==> s[i].number != next
    ensures InStreamOrder(s, next) <==> !Straddles(s, next)
  {
    if Straddles(s, next) {
      var x :| x in s && x.number > next;
      var y :| y in s && y.number < next;
      var a :| 0 <= a < |s| && s[a] == x;
      var b :| 0 <= b < |s| && s[b] == y;
      assert b < a;
      assert Ahead(next, s[b].number) > Ahead(next, s[a].number);
    } else {
      forall i, j | 0 <= i < j < |s|
        ensures Ahead(next, s[i].number) < Ahead(next, s[j].number)
      {
        assert s[i] in s && s[j] in s;
      }
    }
  }

  /** A flush records the frames as the stream sent them if and only if they do not straddle the wrap. */
  lemma FlushOrder(buf: seq<Sample>, next: Word16)
    requires Waits(buf, next)
    ensures InStreamOrder(Sort(buf), next) <==> !Straddles(buf, next)
  {
    hide Sort, InStreamOrder, Strict;
    SortMembers(buf);
    SortStrict(buf);
    forall i | 0 <= i < |Sort(buf)|
      ensures Sort(buf)[i].number != next
    {
      assert Sort(buf)[i] in buf;
    }
    StrictOrder(Sort(buf), next);
  }

  /** The frame furthest ahead. */
  ghost predicate Furthest(buf: seq<Sample>, next: Word16, x: Sample)
  {
    x in buf && forall y :: y in buf ==> Ahead(next, y.number) <= Ahead(next, x.number)
  }

  /** And the number it waits for next is the one after the frame furthest ahead, on the same condition. */
  lemma FlushNext(r: Rec)
    requires Waits(r.buf, r.next) && r.buf != []
    ensures (exists x :: Furthest(r.buf, r.next, x) && Flush(r).next == Succ(x.number)) <==> !Straddles(r.buf, r.next)
  {
    hide Sort;
    SortMembers(r.buf);
    SortStrict(r.buf);
    var s, next := Sort(r.buf), r.next;
    var last := s[|s| - 1];
    assert last in s && Flush(r).next == Succ(last.number);
    forall y | y in r.buf
      ensures y.number <= last.number && y.number != next
    {
      assert y in s;
      var b :| 0 <= b < |s| && s[b] == y;
      var c :| 0 <= c < |r.buf| && r.buf[c] == y;
    }
    if Straddles(r.buf, next) {
      var x :| x in r.buf && x.number > next;
      var y :| y in r.buf && y.number < next;
      assert Ahead(next, y.number) > Ahead(next, last.number);
      forall z | z in r.buf && Succ(z.number) == Succ(last.number)
        ensures !Furthest(r.buf, next, z)
      {
        SuccInjective(z.number, last.number);
      }
    } else {
      assert Furthest(r.buf, next, last);
    }
  }

  lemma SuccInjective(a: Word16, b: Word16)
    requires Succ(a) == Succ(b)
    ensures a == b
  {
    SuccIs(a);
    SuccIs(b);
  }

  lemma SuccIs(a: Word16)
    ensures Succ(a) == if a == 0xffff then 0 else a + 1
  {
  }

  // ---------- a lost frame ----------

  /** One frame is lost after the first, and the next ones arrive in order. */
  function Gap(k: nat): seq<nat>
  {
    [0] + seq(k, (i: nat) => i + 2)
  }

  function Waiting(start: Word16, pcm: nat -> Pcm, k: nat): (w: seq<Sample>)
    ensures |w| == k && forall i :: 0 <= i < k ==> w[i] == Sample(Num(start, i + 2), pcm(i + 2))
  {
    seq(k, (i: nat) => Sample(Num(start, i + 2), pcm(i + 2)))
  }

  lemma WaitingWaits(start: Word16, pcm: nat -> Pcm, k: nat)
    requires k <= MAX_WAITING + 1
    ensures Waits(Waiting(start, pcm, k), Num(start, 1))
  {
    hide Num, Waiting;
    var w := Waiting(start, pcm, k);
    forall i, j | 0 <= i < j < k
      ensures w[i].number != w[j].number
    {
      NumInjective(start, i + 2, j + 2);
    }
    forall i | 0 <= i < k
      ensures w[i].number != Num(start, 1)
    {
      NumInjective(start, 1, i + 2);
    }
  }

  lemma ProcessNext(start: Word16, pcm: nat -> Pcm, arr: seq<nat>, i: nat)
    requires Process(start, pcm, arr).have && pcm(i) != []
    ensures Process(start, pcm, arr + [i]) == Push(Process(start, pcm, arr), Num(start, i), pcm(i))
  {
    hide Push;
    assert (arr + [i])[..|arr|] == arr;
  }

  lemma GapStart(start: Word16, pcm: nat -> Pcm)
    requires pcm(0) != []
    ensures Process(start, pcm, Gap(0)) == Rec(true, Num(start, 1), [], pcm(0))
  {
    assert Gap(0) == [0] && [0][..0] == [];
    FirstFrame(start, pcm);
    assert Concat(pcm, 0) + pcm(0) == pcm(0);
    assert Concat(pcm, 1) == pcm(0);
  }

  /** The next frame of the gap joins those that wait. */
  lemma GapNext(start: Word16, pcm: nat -> Pcm, k: nat)
    requires k <= MAX_WAITING && pcm(k + 2) != []
    requires Process(start, pcm, Gap(k)) == Rec(true, Num(start, 1), Waiting(start, pcm, k), pcm(0))
    ensures var r := Rec(true, Num(start, 1), Waiting(start, pcm, k + 1), pcm(0));
            Process(start, pcm, Gap(k + 1)) == if k < MAX_WAITING then r else Flush(r)
  {
    hide Num, Process, Push, Flush, Waiting;
    var w := Waiting(start, pcm, k);
    assert Gap(k + 1) == Gap(k) + [k + 2];
    ProcessNext(start, pcm, Gap(k), k + 2);
    WaitingWaits(start, pcm, k + 1);
    assert Waiting(start, pcm, k + 1) == w + [Sample(Num(start, k + 2), pcm(k + 2))];
    var next := Waiting(start, pcm, k + 1);
    assert next[k].number == Num(start, k + 2) && forall j :: 0 <= j < k ==> next[j] == w[j];
    PushNew(Rec(true, Num(start, 1), w, pcm(0)), Num(start, k + 2), pcm(k + 2));
  }

  lemma {:induction false} GapWaits(start: Word16, pcm: nat -> Pcm, k: nat)
    requires k <= MAX_WAITING && forall i :: pcm(i) != []
    ensures Process(start, pcm, Gap(k)) == Rec(true, Num(start, 1), Waiting(start, pcm, k), pcm(0))
  {
    hide Num, Process, Flush;
    if k == 0 {
      GapStart(start, pcm);
    } else {
      GapWaits(start, pcm, k - 1);
      GapNext(start, pcm, k - 1);
    }
  }

  /** When the 49 frames after a lost one have come, all of them are recorded without it. They are recorded in
      stream order if and only if their numbers do not wrap. */
  lemma GapFlushed(start: Word16, pcm: nat -> Pcm)
    requires forall i :: pcm(i) != []
    ensures var r, w := Process(start, pcm, Gap(MAX_WAITING + 1)), Waiting(start, pcm, MAX_WAITING + 1);
            && r.out == pcm(0) + Flatten(Sort(w)) && r.buf == []
            && (InStreamOrder(Sort(w), Num(start, 1)) <==> !(65486 <= start <= 65533))
  {
    hide Sort, Num, Process, Waiting, Straddles, InStreamOrder;
    GapWaits(start, pcm, MAX_WAITING);
    GapNext(start, pcm, MAX_WAITING);
    WaitingWaits(start, pcm, MAX_WAITING + 1);
    FlushOrder(Waiting(start, pcm, MAX_WAITING + 1), Num(start, 1));
    GapStraddles(start, pcm);
  }

  lemma GapStraddles(start: Word16, pcm: nat -> Pcm)
    ensures Straddles(Waiting(start, pcm, MAX_WAITING + 1), Num(start, 1)) <==> 65486 <= start <= 65533
  {
    hide Num, Waiting;
    var w, next := Waiting(start, pcm, MAX_WAITING + 1), Num(start, 1);
    NumIs(start, 1);
    forall i | 0 <= i <= MAX_WAITING
      ensures w[i].number == if start + i + 2 < 0x1_0000 then start + i + 2 else start + i + 2 - 0x1_0000
    {
      NumIs(start, i + 2);
    }
    if 65486 <= start <= 65533 {
      assert w[0] in w && w[0].number > next && w[48] in w && w[48].number < next;
    }
  }

  lemma NumIs(start: Word16, i: nat)
    requires i <= 0x1_0000
    ensures Num(start, i) == if start + i < 0x1_0000 then start + i else start + i - 0x1_0000
  {
    if start + i < 0x1_0000 {
      DivSmall(start + i, 0x1_0000);
    } else {
      DivStep(start + i, 0x1_0000);
      DivSmall(start + i - 0x1_0000, 0x1_0000);
    }
  }
}
