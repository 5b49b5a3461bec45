/**
 The binary heap of Go's container/heap, on sequences: `key` gives the value a
 slot is ordered by. The heap of the RTP scheduler runs these steps in place.
 */
module MinHeap {

  function Parent(k: nat): nat
    requires k > 0
    ensures Parent(k) < k
  {
    (k - 1) / 2
  }

  predicate Keyed<T>(h: seq<T>, key: map<T, int>)
  {
    forall i :: 0 <= i < |h| ==> h[i] in key
  }

  function Swap<T>(h: seq<T>, i: nat, j: nat): (r: seq<T>)
    requires i < |h| && j < |h|
    ensures |r| == |h|
    ensures forall k :: 0 <= k < |h| ==> r[k] == (if k == i then h[j] else if k == j then h[i] else h[k])
    ensures multiset(r) == multiset(h)
  {
    h[i := h[j]][j := h[i]]
  }

  predicate Less<T>(h: seq<T>, key: map<T, int>, i: nat, j: nat)
    requires i < |h| && j < |h| && Keyed(h, key)
  {
    key[h[i]] < key[h[j]]
  }

  /** Moves the element at j towards the root. */
  function Up<T>(h: seq<T>, key: map<T, int>, j: nat): (r: seq<T>)
    requires j < |h| && Keyed(h, key)
    ensures |r| == |h| && Keyed(r, key) && multiset(r) == multiset(h)
    ensures forall k :: j < k < |h| ==> r[k] == h[k]
    decreases j
  {
    if j == 0 || !Less(h, key, j, Parent(j)) then h else Up(Swap(h, Parent(j), j), key, Parent(j))
  }

  /** The smaller child of i below n. */
  function Child<T>(h: seq<T>, key: map<T, int>, i: nat, n: nat): (c: nat)
    requires 2 * i + 1 < n <= |h| && Keyed(h, key)
    ensures i < c < n && (c == 2 * i + 1 || c == 2 * i + 2)
  {
    if 2 * i + 2 < n && Less(h, key, 2 * i + 2, 2 * i + 1) then 2 * i + 2 else 2 * i + 1
  }

  predicate Stays<T>(h: seq<T>, key: map<T, int>, i: nat, n: nat)
    requires i < n <= |h| && Keyed(h, key)
  {
    2 * i + 1 < n ==> !Less(h, key, Child(h, key, i, n), i)
  }

  /** Moves the element at i away from the root, within the first n slots. */
  function Down<T>(h: seq<T>, key: map<T, int>, i: nat, n: nat): (r: seq<T>)
    requires i < n <= |h| && Keyed(h, key)
    ensures |r| == |h| && Keyed(r, key) && multiset(r) == multiset(h)
    ensures forall k :: n <= k < |h| ==> r[k] == h[k]
    decreases n - i
  {
    if Stays(h, key, i, n) then h
    else
      var c := Child(h, key, i, n);
      Down(Swap(h, i, c), key, c, n)
  }

  lemma DownStays<T>(h: seq<T>, key: map<T, int>, i: nat, n: nat)
    requires i < n <= |h| && Keyed(h, key) && Stays(h, key, i, n)
    ensures Down(h, key, i, n) == h
  {
  }

  lemma DownMoves<T>(h: seq<T>, key: map<T, int>, i: nat, n: nat, c: nat)
    requires i < n <= |h| && Keyed(h, key) && !Stays(h, key, i, n) && c == Child(h, key, i, n)
    ensures Keyed(Swap(h, i, c), key) && Down(h, key, i, n) == Down(Swap(h, i, c), key, c, n)
  {
  }

  lemma UpMoves<T>(h: seq<T>, key: map<T, int>, j: nat)
    requires 0 < j < |h| && Keyed(h, key) && Less(h, key, j, Parent(j))
    ensures Keyed(Swap(h, Parent(j), j), key) && Up(h, key, j) == Up(Swap(h, Parent(j), j), key, Parent(j))
  {
  }

  lemma UpStays<T>(h: seq<T>, key: map<T, int>, j: nat)
    requires j < |h| && Keyed(h, key) && (j == 0 || !Less(h, key, j, Parent(j)))
    ensures Up(h, key, j) == h
  {
  }

  /** After the key of slot i changed: down, and if it did not move, up. */
  function Settle<T>(h: seq<T>, key: map<T, int>, i: nat, n: nat): (r: seq<T>)
    requires i < n <= |h| && Keyed(h, key)
    ensures |r| == |h| && Keyed(r, key) && multiset(r) == multiset(h)
    ensures forall k :: n <= k < |h| ==> r[k] == h[k]
  {
    if Stays(h, key, i, n) then Up(h, key, i) else Down(h, key, i, n)
  }

  function Push<T>(h: seq<T>, key: map<T, int>, x: T): (r: seq<T>)
    requires Keyed(h, key) && x in key
    ensures |r| == |h| + 1 && Keyed(r, key) && multiset(r) == multiset(h) + multiset{x}
  {
    Up(h + [x], key, |h|)
  }

  /** Takes slot i out of the heap. */
  function Remove<T>(h: seq<T>, key: map<T, int>, i: nat): (r: seq<T>)
    requires i < |h| && Keyed(h, key)
    ensures |r| == |h| - 1 && Keyed(r, key)
  {
    var n := |h| - 1;
    if i == n then h[..n]
    else Settle(Swap(h, i, n), key, i, n)[..n]
  }

  lemma RemoveSettles<T>(h: seq<T>, key: map<T, int>, i: nat)
    requires i < |h| && Keyed(h, key)
    ensures var n := |h| - 1;
            Remove(h, key, i) == if i == n then h[..n] else Settle(Swap(h, i, n), key, i, n)[..n]
  {
  }

  /** At the root there is nowhere to move up to. */
  lemma SettleRoot<T>(h: seq<T>, key: map<T, int>, n: nat)
    requires 0 < n <= |h| && Keyed(h, key)
    ensures Settle(h, key, 0, n) == Down(h, key, 0, n)
  {
    if Stays(h, key, 0, n) {
      DownStays(h, key, 0, n);
    }
  }

  // ---------- heap order ----------

  ghost predicate Ordered<T>(h: seq<T>, key: map<T, int>, k: nat)
    requires 0 < k < |h| && Keyed(h, key)
  {
    key[h[Parent(k)]] <= key[h[k]]
  }

  ghost predicate IsHeap<T>(h: seq<T>, key: map<T, int>, n: nat)
    requires n <= |h| && Keyed(h, key)
  {
    forall k :: 0 < k < n ==> Ordered(h, key, k)
  }

  /** The children of i are not below the parent of i. */
  ghost predicate Bridged<T>(h: seq<T>, key: map<T, int>, i: nat, n: nat)
    requires i < n <= |h| && Keyed(h, key)
  {
    i > 0 ==> forall k :: 0 < k < n && Parent(k) == i ==> key[h[Parent(i)]] <= key[h[k]]
  }

  ghost predicate UpReady<T>(h: seq<T>, key: map<T, int>, j: nat, n: nat)
    requires j < n <= |h| && Keyed(h, key)
  {
    && (forall k :: 0 < k < n && k != j ==> Ordered(h, key, k))
    && Bridged(h, key, j, n)
  }

  ghost predicate DownReady<T>(h: seq<T>, key: map<T, int>, i: nat, n: nat)
    requires i < n <= |h| && Keyed(h, key)
  {
    && (forall k :: 0 < k < n && Parent(k) != i ==> Ordered(h, key, k))
    && Bridged(h, key, i, n)
  }

  /** Any change of the key of slot i leaves this. */
  ghost predicate Touched<T>(h: seq<T>, key: map<T, int>, i: nat, n: nat)
    requires i < n <= |h| && Keyed(h, key)
  {
    && (forall k :: 0 < k < n && Parent(k) != i && k != i ==> Ordered(h, key, k))
    && Bridged(h, key, i, n)
  }

  lemma {:induction false} UpRestores<T>(h: seq<T>, key: map<T, int>, j: nat, n: nat)
    requires j < n <= |h| && Keyed(h, key) && UpReady(h, key, j, n)
    ensures IsHeap(Up(h, key, j), key, n)
    decreases j
  {
    if j > 0 && Less(h, key, j, Parent(j)) {
      var g := Swap(h, Parent(j), j);
      SwapUp(h, key, j, n);
      UpRestores(g, key, Parent(j), n);
    }
  }

  lemma SwapUp<T>(h: seq<T>, key: map<T, int>, j: nat, n: nat)
    requires 0 < j < n <= |h| && Keyed(h, key) && UpReady(h, key, j, n) && Less(h, key, j, Parent(j))
    ensures UpReady(Swap(h, Parent(j), j), key, Parent(j), n)
  {
    var p := Parent(j);
    var g := Swap(h, p, j);
    forall k | 0 < k < n && k != p
      ensures Ordered(g, key, k)
    {
      assert k != j ==> Ordered(h, key, k);
    }
    forall k | p > 0 && 0 < k < n && Parent(k) == p
      ensures key[g[Parent(p)]] <= key[g[k]]
    {
      assert Ordered(h, key, p);
      assert k != j ==> Ordered(h, key, k);
    }
  }

  lemma {:induction false} DownRestores<T>(h: seq<T>, key: map<T, int>, i: nat, n: nat)
    requires i < n <= |h| && Keyed(h, key) && DownReady(h, key, i, n)
    ensures IsHeap(Down(h, key, i, n), key, n)
    decreases n - i
  {
    hide Down, DownReady, IsHeap, Stays, Swap, Child;
    if Stays(h, key, i, n) {
      StaysIsHeap(h, key, i, n);
      DownStays(h, key, i, n);
    } else {
      ReadyIsTouched(h, key, i, n);
      MovesHasChild(h, key, i, n);
      var c := Child(h, key, i, n);
      SwapDown(h, key, i, n);
      DownMoves(h, key, i, n, c);
      DownRestores(Swap(h, i, c), key, c, n);
    }
  }

  lemma StaysIsHeap<T>(h: seq<T>, key: map<T, int>, i: nat, n: nat)
    requires i < n <= |h| && Keyed(h, key) && DownReady(h, key, i, n) && Stays(h, key, i, n)
    ensures IsHeap(h, key, n)
  {
  }

  lemma ReadyIsTouched<T>(h: seq<T>, key: map<T, int>, i: nat, n: nat)
    requires i < n <= |h| && Keyed(h, key) && DownReady(h, key, i, n)
    ensures Touched(h, key, i, n)
  {
  }

  lemma MovesHasChild<T>(h: seq<T>, key: map<T, int>, i: nat, n: nat)
    requires i < n <= |h| && Keyed(h, key) && !Stays(h, key, i, n)
    ensures 2 * i + 1 < n
  {
  }

  lemma SwapDown<T>(h: seq<T>, key: map<T, int>, i: nat, n: nat)
    requires i < n <= |h| && Keyed(h, key) && Touched(h, key, i, n) && !Stays(h, key, i, n)
    ensures var c := Child(h, key, i, n); DownReady(Swap(h, i, c), key, c, n)
  {
    hide Swap;
    var c := Child(h, key, i, n);
    var h' := Swap(h, i, c);
    assert Parent(c) == i && key[h'[i]] == key[h[c]] < key[h[i]] == key[h'[c]];
    forall k | 0 < k < n && Parent(k) != c
      ensures Ordered(h', key, k)
    {
      if k != c && k != i {
        assert Parent(k) != i ==> Ordered(h, key, k);
        assert Parent(k) == i ==> key[h[c]] <= key[h[k]];
      }
    }
    forall k | 0 < k < n && Parent(k) == c
      ensures key[h'[i]] <= key[h'[k]]
    {
      assert Ordered(h, key, k);
    }
  }

  lemma StaysIsReady<T>(h: seq<T>, key: map<T, int>, i: nat, n: nat)
    requires i < n <= |h| && Keyed(h, key) && Touched(h, key, i, n) && Stays(h, key, i, n)
    ensures UpReady(h, key, i, n)
  {
  }

  lemma SettleRestores<T>(h: seq<T>, key: map<T, int>, i: nat, n: nat)
    requires i < n <= |h| && Keyed(h, key) && Touched(h, key, i, n)
    ensures IsHeap(Settle(h, key, i, n), key, n)
  {
    hide Up, Down, IsHeap, Swap, Child, DownReady, UpReady;
    if Stays(h, key, i, n) {
      StaysIsReady(h, key, i, n);
      UpRestores(h, key, i, n);
    } else {
      var c := Child(h, key, i, n);
      SwapDown(h, key, i, n);
      DownMoves(h, key, i, n, c);
      DownRestores(Swap(h, i, c), key, c, n);
    }
  }

  lemma PushRestores<T>(h: seq<T>, key: map<T, int>, x: T)
    requires Keyed(h, key) && x in key && IsHeap(h, key, |h|)
    ensures IsHeap(Push(h, key, x), key, |h| + 1)
  {
    var g := h + [x];
    assert forall k :: 0 < k < |h| ==> Ordered(h, key, k) ==> Ordered(g, key, k);
    UpRestores(g, key, |h|, |h| + 1);
  }

  lemma SwapOut<T>(h: seq<T>, key: map<T, int>, i: nat)
    requires i < |h| - 1 && Keyed(h, key) && IsHeap(h, key, |h|)
    ensures Touched(Swap(h, i, |h| - 1), key, i, |h| - 1)
  {
    var n := |h| - 1;
    var g := Swap(h, i, n);
    forall k | 0 < k < n && Parent(k) != i && k != i
      ensures Ordered(g, key, k)
    {
      assert Ordered(h, key, k);
    }
    forall k | i > 0 && 0 < k < n && Parent(k) == i
      ensures key[g[Parent(i)]] <= key[g[k]]
    {
      assert Ordered(h, key, i) && Ordered(h, key, k);
    }
  }

  lemma RemoveRestores<T>(h: seq<T>, key: map<T, int>, i: nat)
    requires i < |h| && Keyed(h, key) && IsHeap(h, key, |h|)
    ensures var r := Remove(h, key, i);
            IsHeap(r, key, |r|) && multiset(r) + multiset{h[i]} == multiset(h)
  {
    hide Settle, Touched, Remove, IsHeap, Swap;
    var n := |h| - 1;
    RemoveSettles(h, key, i);
    if i < n {
      var g := Swap(h, i, n);
      var r := Settle(g, key, i, n);
      SwapOut(h, key, i);
      SettleRestores(g, key, i, n);
      assert r == r[..n] + r[n..] && r[n..] == [h[i]];
      PrefixIsHeap(r, key, n);
    } else {
      assert h == h[..n] + [h[n]];
      ShorterHeap(h, key, n);
      PrefixIsHeap(h, key, n);
    }
  }

  lemma ShorterHeap<T>(h: seq<T>, key: map<T, int>, n: nat)
    requires n <= |h| && Keyed(h, key) && IsHeap(h, key, |h|)
    ensures IsHeap(h, key, n)
  {
  }

  lemma PrefixIsHeap<T>(h: seq<T>, key: map<T, int>, n: nat)
    requires n <= |h| && Keyed(h, key) && IsHeap(h, key, n)
    ensures Keyed(h[..n], key) && IsHeap(h[..n], key, n)
  {
    forall k | 0 < k < n
      ensures Ordered(h[..n], key, k)
    {
      assert Ordered(h, key, k);
    }
  }

  /** The root has the least key. */
  lemma {:induction false} RootIsLeast<T>(h: seq<T>, key: map<T, int>, k: nat)
    requires k < |h| && Keyed(h, key) && IsHeap(h, key, |h|)
    ensures key[h[0]] <= key[h[k]]
    decreases k
  {
    if k > 0 {
      assert Ordered(h, key, k);
      RootIsLeast(h, key, Parent(k));
    }
  }

  /** Heap order depends on the keys of the heap's own elements only. */
  lemma SameKeys<T>(h: seq<T>, key: map<T, int>, key': map<T, int>)
    requires Keyed(h, key) && IsHeap(h, key, |h|)
    requires forall i :: 0 <= i < |h| ==> h[i] in key' && key'[h[i]] == key[h[i]]
    ensures Keyed(h, key') && IsHeap(h, key', |h|)
  {
    forall k | 0 < k < |h|
      ensures Ordered(h, key', k)
    {
      assert Ordered(h, key, k);
    }
  }

  /** A new key for slot i leaves the rest of the order in place. */
  lemma KeyChange<T>(h: seq<T>, key: map<T, int>, key': map<T, int>, i: nat)
    requires i < |h| && Keyed(h, key) && IsHeap(h, key, |h|) && Keyed(h, key')
    requires forall k :: 0 <= k < |h| && k != i ==> key'[h[k]] == key[h[k]]
    ensures Touched(h, key', i, |h|)
  {
    forall k | 0 < k < |h| && Parent(k) != i && k != i
      ensures Ordered(h, key', k)
    {
      assert Ordered(h, key, k);
    }
    forall k | i > 0 && 0 < k < |h| && Parent(k) == i
      ensures key'[h[Parent(i)]] <= key'[h[k]]
    {
      assert Ordered(h, key, i) && Ordered(h, key, k);
    }
  }
}
