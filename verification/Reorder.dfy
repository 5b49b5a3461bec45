/**
 The jitter buffer of the call recorder: out-of-order RTP frames wait until
 their turn, and when more than 48 wait the buffer is flushed in order of
 their 16-bit sequence numbers.
 */
module Reorder {
  import opened Common
  import opened Arith
  import opened Wire

  const MAX_WAITING := 48

  type Pcm = seq<int>

  datatype Sample = Sample(number: Word16, pcm: Pcm)

  /** The recorder's state: whether a first frame came, the number it waits for, the frames that wait,
      and the samples recorded. */
  datatype Rec = Rec(have: bool, next: Word16, buf: seq<Sample>, out: Pcm)

  function Succ(n: Word16): Word16
  {
    (n + 1) % 0x1_0000
  }

  /** Position of the frame with this number, or the length. */
  function Find(buf: seq<Sample>, n: Word16): (i: nat)
    ensures i <= |buf|
    ensures i < |buf| ==> buf[i].number == n
    ensures forall j :: 0 <= j < i ==> buf[j].number != n
  {
    if buf == [] || buf[0].number == n then 0 else 1 + Find(buf[1..], n)
  }

  /** Records waiting frames as long as the next one is there. */
  function DrainHead(r: Rec): Rec
    decreases |r.buf|
  {
    var i := Find(r.buf, r.next);
    if i == |r.buf| then r
    else DrainHead(r.(out := r.out + r.buf[i].pcm, buf := Without(r.buf, i), next := Succ(r.next)))
  }

  /** One frame recorded, or none if the next one is not there. */
  function DrainOne(r: Rec): Rec
  {
    var i := Find(r.buf, r.next);
    if i == |r.buf| then r
    else r.(out := r.out + r.buf[i].pcm, buf := Without(r.buf, i), next := Succ(r.next))
  }

  lemma DrainUnfolds(r: Rec)
    ensures DrainHead(r) == if Find(r.buf, r.next) == |r.buf| then r else DrainHead(DrainOne(r))
  {
  }

  function Insert(s: Sample, buf: seq<Sample>): (r: seq<Sample>)
    ensures multiset(r) == multiset(buf) + multiset{s}
  {
    if buf == [] || s.number < buf[0].number then [s] + buf
    else
      assert buf == [buf[0]] + buf[1..];
      [buf[0]] + Insert(s, buf[1..])
  }

  /** The frames in order of their numbers. */
  function Sort(buf: seq<Sample>): (r: seq<Sample>)
    ensures multiset(r) == multiset(buf)
  {
    if buf == [] then []
    else
      assert buf == [buf[0]] + buf[1..];
      Insert(buf[0], Sort(buf[1..]))
  }

  function Flatten(buf: seq<Sample>): Pcm
  {
    if buf == [] then [] else Flatten(buf[..|buf| - 1]) + buf[|buf| - 1].pcm
  }

  lemma FlattenNext(s: seq<Sample>, i: nat)
    requires i < |s|
    ensures Flatten(s[..i + 1]) == Flatten(s[..i]) + s[i].pcm
  {
    assert s[..i + 1][..i] == s[..i];
  }

  lemma FlattenNone(s: seq<Sample>)
    ensures Flatten(s[..0]) == []
  {
  }

  /** All waiting frames are recorded, and the number after the last one is next. */
  function Flush(r: Rec): Rec
    requires r.buf != []
  {
    var s := Sort(r.buf);
    assert |multiset(s)| == |multiset(r.buf)|;
    Rec(true, Succ(s[|s| - 1].number), [], r.out + Flatten(s))
  }

  function Push(r: Rec, n: Word16, pcm: Pcm): Rec
  {
    var i := Find(r.buf, n);
    if n == r.next then DrainHead(r.(out := r.out + pcm, next := Succ(r.next)))
    else if i < |r.buf| then r.(buf := r.buf[i := Sample(n, pcm)])
    else
      var r' := r.(buf := r.buf + [Sample(n, pcm)]);
      if |r'.buf| > MAX_WAITING then Flush(r') else r'
  }

  lemma PushNow(r: Rec, n: Word16, pcm: Pcm)
    requires n == r.next
    ensures Push(r, n, pcm) == DrainHead(r.(out := r.out + pcm, next := Succ(r.next)))
  {
  }

  lemma PushAgain(r: Rec, n: Word16, pcm: Pcm, i: nat)
    requires n != r.next && i < |r.buf| && r.buf[i].number == n && forall j :: 0 <= j < i ==> r.buf[j].number != n
    ensures Push(r, n, pcm) == r.(buf := r.buf[i := Sample(n, pcm)])
  {
    hide Find, DrainHead, Flush;
    assert Find(r.buf, n) == i;
  }

  lemma PushNew(r: Rec, n: Word16, pcm: Pcm)
    requires n != r.next && forall j :: 0 <= j < |r.buf| ==> r.buf[j].number != n
    ensures var r' := r.(buf := r.buf + [Sample(n, pcm)]);
            Push(r, n, pcm) == if |r'.buf| > MAX_WAITING then Flush(r') else r'
  {
    hide Find, DrainHead, Flush;
    assert Find(r.buf, n) == |r.buf|;
  }

  /** A frame from the network: one without samples is ignored, and the first one sets the start. */
  function Receive(r: Rec, n: Word16, pcm: Pcm): Rec
  {
    if pcm == [] then r
    else Push(if r.have then r else r.(have := true, next := n), n, pcm)
  }

  const EMPTY := Rec(false, 0, [], [])

  // ---------- what every run keeps ----------

  ghost predicate Valid(r: Rec)
  {
    && |r.buf| <= MAX_WAITING
    && (!r.have ==> r.buf == [] && r.out == [])
    && (forall i, j :: 0 <= i < j < |r.buf| ==> r.buf[i].number != r.buf[j].number)
    && (forall i :: 0 <= i < |r.buf| ==> r.buf[i].number != r.next)
  }

  ghost predicate Distinct(buf: seq<Sample>)
  {
    forall i, j :: 0 <= i < j < |buf| ==> buf[i].number != buf[j].number
  }

  lemma {:induction false} DrainKeeps(r: Rec)
    requires r.have && |r.buf| <= MAX_WAITING && Distinct(r.buf)
    ensures Valid(DrainHead(r))
    decreases |r.buf|
  {
    var i := Find(r.buf, r.next);
    if i < |r.buf| {
      DrainKeeps(r.(out := r.out + r.buf[i].pcm, buf := Without(r.buf, i), next := Succ(r.next)));
    }
  }

  lemma ReceiveKeeps(r: Rec, n: Word16, pcm: Pcm)
    requires Valid(r)
    ensures Valid(Receive(r, n, pcm))
  {
    if pcm != [] {
      var r0 := if r.have then r else r.(have := true, next := n);
      if n == r0.next {
        DrainKeeps(r0.(out := r0.out + pcm, next := Succ(r0.next)));
      }
    }
  }

  datatype Frame = Frame(number: Word16, pcm: Pcm)

  function ReceiveAll(r: Rec, fs: seq<Frame>): Rec
    decreases |fs|
  {
    if fs == [] then r else ReceiveAll(Receive(r, fs[0].number, fs[0].pcm), fs[1..])
  }

  /** After any frames at all, at most 48 wait, with different numbers, none of them the next one. */
  lemma {:induction false} EveryRunValid(r: Rec, fs: seq<Frame>)
    requires Valid(r)
    ensures Valid(ReceiveAll(r, fs))
    decreases |fs|
  {
    hide Valid, Receive;
    if fs != [] {
      ReceiveKeeps(r, fs[0].number, fs[0].pcm);
      EveryRunValid(Receive(r, fs[0].number, fs[0].pcm), fs[1..]);
    }
  }

  /** The numbers of a flushed buffer rise. */
  lemma {:induction false} SortRises(buf: seq<Sample>)
    ensures Rising(Sort(buf))
  {
    if buf != [] {
      SortRises(buf[1..]);
      InsertRises(buf[0], Sort(buf[1..]));
    }
  }

  ghost predicate Rising(buf: seq<Sample>)
  {
    forall i, j :: 0 <= i < j < |buf| ==> buf[i].number <= buf[j].number
  }

  lemma {:induction false} InsertRises(s: Sample, buf: seq<Sample>)
    requires Rising(buf)
    ensures Rising(Insert(s, buf))
  {
    if buf != [] && s.number >= buf[0].number {
      InsertRises(s, buf[1..]);
      var r := Insert(s, buf[1..]);
      forall x | x in r
        ensures buf[0].number <= x.number
      {
        assert x in multiset(r);
      }
    }
  }

  // ---------- frames that arrive out of order ----------

  /** The number of the i-th frame of a stream. */
  function Num(start: Word16, i: nat): Word16
  {
    (start + i) % 0x1_0000
  }

  /** The first k frames in order. */
  function Concat(pcm: nat -> Pcm, k: nat): Pcm
  {
    if k == 0 then [] else Concat(pcm, k - 1) + pcm(k - 1)
  }

  /** The recorder after the frames with the given indexes arrived. */
  function Process(start: Word16, pcm: nat -> Pcm, arr: seq<nat>): Rec
  {
    if arr == [] then EMPTY
    else
      var n := |arr| - 1;
      Receive(Process(start, pcm, arr[..n]), Num(start, arr[n]), pcm(arr[n]))
  }

  /** The least index that has not arrived. */
  function FirstMissing(arr: seq<nat>, k: nat := 0): nat
    decreases |(set x | x in arr && x >= k)|
  {
    if k in arr then
      assert (set x | x in arr && x >= k) == (set x | x in arr && x >= k + 1) + {k};
      FirstMissing(arr, k + 1)
    else k
  }

  lemma {:induction false} FirstMissingIs(arr: seq<nat>, k: nat, m: nat)
    requires k <= m && m !in arr && forall x :: k <= x < m ==> x in arr
    ensures FirstMissing(arr, k) == m
    decreases m - k
  {
    if k < m {
      FirstMissingIs(arr, k + 1, m);
    }
  }

  /** Indexes less than 65536 apart have different numbers. */
  lemma NumInjective(start: Word16, a: nat, b: nat)
    requires a < b < a + 0x1_0000
    ensures Num(start, a) != Num(start, b)
  {
    var x, y, m := start + a, start + b, 0x1_0000;
    var q, q' := x / m, y / m;
    assert x == m * q + x % m && y == m * q' + y % m;
    if x % m == y % m {
      assert y - x == m * (q' - q);
      MulAtLeast(m, q' - q);
      assert false;
    }
  }

  lemma NumSucc(start: Word16, k: nat)
    ensures Succ(Num(start, k)) == Num(start, k + 1)
  {
    ModAdd(start + k, 1, 0x1_0000);
  }

  /** The frame k is next, the frames w wait, each less than 65536 ahead; the frames before k are recorded. */
  ghost predicate Follows(r: Rec, start: Word16, pcm: nat -> Pcm, k: nat, w: seq<nat>)
  {
    && r.have && r.next == Num(start, k) && r.out == Concat(pcm, k)
    && |w| == |r.buf|
    && (forall j :: 0 <= j < |w| ==> k <= w[j] < k + 0x1_0000 && r.buf[j] == Sample(Num(start, w[j]), pcm(w[j])))
    && (forall i, j :: 0 <= i < j < |w| ==> w[i] != w[j])
  }

  /** Every frame before k, and those of w. */
  ghost predicate Holds(arr: seq<nat>, k: nat, w: seq<nat>)
  {
    && |arr| == k + |w|
    && forall x: nat :: x in arr <==> x < k || x in w
  }

  /** The number of the next frame finds that frame and no other. */
  lemma FindFrame(r: Rec, start: Word16, pcm: nat -> Pcm, k: nat, w: seq<nat>, i: nat)
    requires Follows(r, start, pcm, k, w) && k <= i < k + 0x1_0000
    ensures var f := Find(r.buf, Num(start, i));
            if i in w then f < |w| && w[f] == i else f == |w|
  {
    var f := Find(r.buf, Num(start, i));
    if f < |w| && w[f] != i {
      if w[f] < i {
        NumInjective(start, w[f], i);
      } else {
        NumInjective(start, i, w[f]);
      }
      assert false;
    }
    if i in w {
      var j :| 0 <= j < |w| && w[j] == i;
      assert r.buf[j].number == Num(start, i);
    }
  }

  lemma {:induction false} DrainFollows(r: Rec, start: Word16, pcm: nat -> Pcm, k: nat, w: seq<nat>, arr: seq<nat>)
    returns (k': nat, w': seq<nat>)
    requires Follows(r, start, pcm, k, w) && Holds(arr, k, w)
    ensures Follows(DrainHead(r), start, pcm, k', w') && Holds(arr, k', w') && k' !in w'
    decreases |w|
  {
    FindFrame(r, start, pcm, k, w, k);
    var f := Find(r.buf, r.next);
    if f == |w| {
      k', w' := k, w;
    } else {
      var r1 := r.(out := r.out + r.buf[f].pcm, buf := Without(r.buf, f), next := Succ(r.next));
      var w1 := Without(w, f);
      NumSucc(start, k);
      RemovedFollows(r, start, pcm, k, w, f);
      RemovedHolds(arr, k, w, f);
      k', w' := DrainFollows(r1, start, pcm, k + 1, w1, arr);
    }
  }

  lemma RemovedFollows(r: Rec, start: Word16, pcm: nat -> Pcm, k: nat, w: seq<nat>, f: nat)
    requires Follows(r, start, pcm, k, w) && f < |w| && w[f] == k
    ensures Follows(r.(out := r.out + r.buf[f].pcm, buf := Without(r.buf, f), next := Succ(r.next)),
                    start, pcm, k + 1, Without(w, f))
  {
    NumSucc(start, k);
  }

  lemma RemovedHolds(arr: seq<nat>, k: nat, w: seq<nat>, f: nat)
    requires Holds(arr, k, w) && f < |w| && w[f] == k
    requires forall i, j :: 0 <= i < j < |w| ==> w[i] != w[j]
    ensures Holds(arr, k + 1, Without(w, f))
  {
    var w' := Without(w, f);
    forall x: nat
      ensures x in w <==> x == k || x in w'
    {
      if x in w {
        var j :| 0 <= j < |w| && w[j] == x;
        if j != f {
          assert w'[if j < f then j else j - 1] == x;
        }
      }
    }
  }

  /** Receiving a new frame that is in range, while there is room for it. */
  lemma ReceiveFollows(r: Rec, start: Word16, pcm: nat -> Pcm, k: nat, w: seq<nat>, arr: seq<nat>, i: nat)
    returns (k': nat, w': seq<nat>)
    requires Follows(r, start, pcm, k, w) && Holds(arr, k, w) && k !in w
    requires i !in arr && i < k + 0x1_0000 && pcm(i) != [] && (i == k || |w| < MAX_WAITING)
    ensures Follows(Receive(r, Num(start, i), pcm(i)), start, pcm, k', w') && Holds(arr + [i], k', w') && k' !in w'
  {
    FindFrame(r, start, pcm, k, w, i);
    if i == k {
      var r1 := r.(out := r.out + pcm(i), next := Succ(r.next));
      NumSucc(start, k);
      assert Follows(r1, start, pcm, k + 1, w);
      k', w' := DrainFollows(r1, start, pcm, k + 1, w, arr + [i]);
    } else {
      NumInjective(start, k, i);
      k', w' := k, w + [i];
    }
  }

  lemma FirstFrame(start: Word16, pcm: nat -> Pcm)
    requires pcm(0) != []
    ensures Follows(Receive(EMPTY, Num(start, 0), pcm(0)), start, pcm, 1, [])
  {
    NumSucc(start, 0);
    assert Concat(pcm, 1) == [] + pcm(0);
  }

  /** The arrivals that the buffer can put in order: the first frame comes first, none comes twice, each is
      less than 65536 ahead of the first missing one, and at most 48 wait at any time. */
  ghost predicate Orderly(arr: seq<nat>)
  {
    && (arr != [] ==> arr[0] == 0)
    && (forall i, j :: 0 <= i < j < |arr| ==> arr[i] != arr[j])
    && (forall j :: 0 < j < |arr| ==> arr[j] < FirstMissing(arr[..j]) + 0x1_0000)
    && (forall j :: 0 <= j <= |arr| ==> j - FirstMissing(arr[..j]) <= MAX_WAITING)
  }

  lemma OrderlyPrefix(arr: seq<nat>)
    requires Orderly(arr) && |arr| > 1
    ensures Orderly(arr[..|arr| - 1])
  {
    hide FirstMissing;
    var p := arr[..|arr| - 1];
    forall j | 0 <= j <= |p|
      ensures p[..j] == arr[..j]
    {
    }
  }

  /** In an orderly list the last frame is new, in range, and there is room for it. */
  lemma LastFits(arr: seq<nat>, k: nat, w: seq<nat>)
    requires Orderly(arr) && |arr| > 1 && Holds(arr[..|arr| - 1], k, w) && k !in w
    ensures var p, i := arr[..|arr| - 1], arr[|arr| - 1];
            i !in p && i < k + 0x1_0000 && (i == k || |w| < MAX_WAITING)
  {
    hide FirstMissing;
    var n := |arr| - 1;
    FirstMissingIs(arr[..n], 0, k);
    if arr[n] != k {
      assert arr == arr[..n] + [arr[n]];
      FirstMissingIs(arr, 0, k);
      assert arr[..n + 1] == arr;
    }
  }

  lemma {:induction false} Followed(start: Word16, pcm: nat -> Pcm, arr: seq<nat>) returns (k: nat, w: seq<nat>)
    requires Orderly(arr) && arr != [] && forall i :: pcm(i) != []
    ensures Follows(Process(start, pcm, arr), start, pcm, k, w) && Holds(arr, k, w) && k !in w
    decreases |arr|
  {
    hide Follows, Receive, FirstMissing, Orderly;
    var n := |arr| - 1;
    var p, i := arr[..n], arr[n];
    assert arr == p + [i];
    if n == 0 {
      StartsAtZero(arr);
      assert Process(start, pcm, []) == EMPTY;
      FirstFrame(start, pcm);
      k, w := 1, [];
    } else {
      OrderlyPrefix(arr);
      var k0, w0 := Followed(start, pcm, p);
      LastFits(arr, k0, w0);
      k, w := ReceiveFollows(Process(start, pcm, p), start, pcm, k0, w0, p, i);
    }
  }

  lemma StartsAtZero(arr: seq<nat>)
    requires Orderly(arr) && arr != []
    ensures arr[0] == 0
  {
  }

  /** After orderly arrivals the recording is the in-order concatenation up to the first missing frame,
      whatever the first number is and however often the numbers wrap. */
  lemma RecordsInOrder(start: Word16, pcm: nat -> Pcm, arr: seq<nat>)
    requires Orderly(arr) && arr != [] && forall i :: pcm(i) != []
    ensures var r := Process(start, pcm, arr);
            && r.out == Concat(pcm, FirstMissing(arr))
            && r.next == Num(start, FirstMissing(arr))
            && |r.buf| == |arr| - FirstMissing(arr)
  {
    var k, w := Followed(start, pcm, arr);
    FirstMissingIs(arr, 0, k);
  }

  /** So a permutation of consecutive frames is recorded whole and in order. */
  lemma PermutationRecorded(start: Word16, pcm: nat -> Pcm, arr: seq<nat>)
    requires Orderly(arr) && arr != [] && forall i :: pcm(i) != []
    requires forall x: nat :: x < |arr| <==> x in arr
    ensures Process(start, pcm, arr).out == Concat(pcm, |arr|) && Process(start, pcm, arr).buf == []
  {
    FirstMissingIs(arr, 0, |arr|);
    RecordsInOrder(start, pcm, arr);
  }

  // ---------- the recorder ----------

  class Recorder {
    var on: bool
    var have: bool
    var next: Word16
    var buf: seq<Sample>
    var recv: Pcm

    ghost function View(): Rec
      reads this
    {
      Rec(have, next, buf, recv)
    }

    constructor ()
      ensures View() == EMPTY && on
    {
      on, have, next, buf, recv := true, false, 0, [], [];
    }

    /** An inbound frame, with its samples already decoded. */
    method AppendInbound(n: Word16, pcm: Pcm)
      modifies this`have, this`next, this`buf, this`recv
      ensures View() == if on then Receive(old(View()), n, pcm) else old(View())
    {
      if !on {
        return;
      }
      if |pcm| == 0 {
        return;
      }
      if !have {
        next := n;
        have := true;
      }
      PushPcm(n, pcm);
    }

    method PushPcm(n: Word16, pcm: Pcm)
      modifies this`have, this`next, this`buf, this`recv
      ensures View() == Push(old(View()), n, pcm)
    {
      hide Push, DrainHead, Flush, Find;
      if n == next {
        PushNow(View(), n, pcm);
        recv := recv + pcm;
        next := (next + 1) % 0x1_0000;
        DrainBufHead();
        return;
      }
      var i := 0;
      while i < |buf|
        invariant 0 <= i <= |buf| && View() == old(View())
        invariant forall j :: 0 <= j < i ==> buf[j].number != n
      {
        if buf[i].number == n {
          PushAgain(View(), n, pcm, i);
          buf := buf[i := Sample(n, pcm)];
          return;
        }
        i := i + 1;
      }
      PushNew(View(), n, pcm);
      buf := buf + [Sample(n, pcm)];
      if |buf| > MAX_WAITING {
        FlushAll();
      }
    }

    method FlushAll()
      requires buf != []
      modifies this`have, this`next, this`buf, this`recv
      ensures View() == Flush(old(View()))
    {
      hide Sort, Flatten;
      var sorted := Sort(buf);
      assert |multiset(sorted)| == |multiset(buf)|;
      FlattenNone(sorted);
      var last: Word16 := 0;
      var i := 0;
      while i < |sorted|
        invariant 0 <= i <= |sorted|
        invariant recv == old(recv) + Flatten(sorted[..i])
        invariant i > 0 ==> last == sorted[i - 1].number
        invariant have == old(have) && next == old(next) && buf == old(buf)
      {
        FlattenNext(sorted, i);
        recv := recv + sorted[i].pcm;
        last := sorted[i].number;
        i := i + 1;
      }
      assert sorted[..i] == sorted;
      buf := [];
      next := (last + 1) % 0x1_0000;
      have := true;
    }

    method FindNext() returns (i: nat)
      ensures i == Find(buf, next)
    {
      i := 0;
      while i < |buf| && buf[i].number != next
        invariant 0 <= i <= |buf|
        invariant forall j :: 0 <= j < i ==> buf[j].number != next
      {
        i := i + 1;
      }
    }

    method DrainBufHead()
      modifies this`next, this`buf, this`recv
      ensures View() == DrainHead(old(View()))
    {
      hide DrainHead;
      while true
        invariant DrainHead(View()) == DrainHead(old(View()))
        decreases |buf|
      {
        DrainUnfolds(View());
        ghost var one := DrainOne(View());
        var i := FindNext();
        if i == |buf| {
          return;
        }
        recv := recv + buf[i].pcm;
        buf := buf[..i] + buf[i + 1..];
        next := (next + 1) % 0x1_0000;
        assert View() == one;
      }
    }
  }
}
