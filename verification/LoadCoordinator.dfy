/**
 Load clients added and removed while the program runs. The coordinator keeps
 the names in use and a list of at most 32 entries; an engine gives its name
 back when its run ends. Adding, removing and ending are each one critical
 section and come in any order.
 */
module LoadCoordinator {
  import opened Common
  import opened Text

  const MAX_CLIENTS: nat := 32

  // ---------- automatic names ----------

  function Digit(d: nat): char
    requires d < 10
  {
    ('0' as int + d) as char
  }

  function Decimal(n: nat): (r: string)
    ensures |r| > 0 && '0' <= r[|r| - 1] <= '9'
  {
    if n < 10 then [Digit(n)] else Decimal(n / 10) + [Digit(n % 10)]
  }

  lemma {:induction false} DecimalReads(n: nat)
    ensures ValueOf(Decimal(n)) == n
  {
    var s := Decimal(n);
    if n < 10 {
      assert s[..|s| - 1] == "";
    } else {
      DecimalReads(n / 10);
      assert s[..|s| - 1] == Decimal(n / 10);
    }
  }

  function Automatic(n: nat): string
  {
    "dyn-" + Decimal(n)
  }

  lemma AutomaticInjective(a: nat, b: nat)
    requires Automatic(a) == Automatic(b)
    ensures a == b
  {
    DecimalReads(a);
    DecimalReads(b);
    assert Automatic(a)[4..] == Decimal(a) && Automatic(b)[4..] == Decimal(b);
  }

  /** The names in use that the counter has yet to come to. */
  ghost function Ahead(used: set<string>, n: nat): set<string>
  {
    set s | s in used && exists k: nat :: k > n && s == Automatic(k)
  }

  lemma AheadShrinks(used: set<string>, n: nat)
    requires Automatic(n + 1) in used
    ensures Ahead(used, n + 1) < Ahead(used, n)
  {
    assert Automatic(n + 1) in Ahead(used, n);
    if Automatic(n + 1) in Ahead(used, n + 1) {
      var k: nat :| k > n + 1 && Automatic(n + 1) == Automatic(k);
      AutomaticInjective(n + 1, k);
      assert false;
    }
  }

  /** The first counter value after `n` whose name is free. */
  function NextFree(used: set<string>, n: nat): (k: nat)
    ensures k > n && Automatic(k) !in used
    ensures forall j: nat :: n < j < k ==> Automatic(j) in used
    decreases Ahead(used, n)
  {
    if Automatic(n + 1) in used then
      AheadShrinks(used, n);
      NextFree(used, n + 1)
    else n + 1
  }

  // ---------- states and steps ----------

  datatype Entry = Entry(id: string, engine: nat)

  /** Engines are numbered in the order they start. `running` holds the name of each engine whose run has
      not ended; `cancelled` the engines whose run was told to stop. */
  datatype State = State(used: set<string>, entries: seq<Entry>, counter: nat,
                         running: map<nat, string>, cancelled: set<nat>, started: nat)

  datatype Answer = Started(id: string) | TooMany | InUse | NoLogger

  /** `logs` says whether the new client's event log could be opened. */
  datatype Step = Add(want: string, logs: bool) | Remove(id: string) | Ended(engine: nat)

  function Pick(used: set<string>, counter: nat, want: string): Option<string>
  {
    var name := TrimSpace(want);
    if name == "" then Some(Automatic(NextFree(used, counter)))
    else if name in used then None
    else Some(name)
  }

  function CounterAfter(used: set<string>, counter: nat, want: string): nat
  {
    if TrimSpace(want) == "" then NextFree(used, counter) else counter
  }

  function Answered(s: State, want: string, logs: bool): Answer
  {
    if |s.entries| >= MAX_CLIENTS then TooMany
    else
      var id := Pick(s.used, s.counter, want);
      if id.None? then InUse else if !logs then NoLogger else Started(id.value)
  }

  function Added(s: State, want: string, logs: bool): State
  {
    if |s.entries| >= MAX_CLIENTS then s
    else
      var s' := s.(counter := CounterAfter(s.used, s.counter, want));
      var a := Answered(s, want, logs);
      if !a.Started? then s'
      else s'.(used := s.used + {a.id}, entries := s.entries + [Entry(a.id, s.started)],
               running := s.running[s.started := a.id], started := s.started + 1)
  }

  /** The position of the first entry with a name, or the length of the list. */
  function FirstEntry(entries: seq<Entry>, id: string): (i: nat)
    ensures i <= |entries|
    ensures i < |entries| ==> entries[i].id == id
    ensures forall j :: 0 <= j < i ==> entries[j].id != id
  {
    if entries == [] || entries[0].id == id then 0 else 1 + FirstEntry(entries[1..], id)
  }

  /** Whether a removal finds an entry; otherwise it reports an error and changes nothing. */
  predicate Found(s: State, id: string)
  {
    TrimSpace(id) != "" && FirstEntry(s.entries, TrimSpace(id)) < |s.entries|
  }

  function Removed(s: State, id: string): State
  {
    if !Found(s, id) then s
    else
      var i := FirstEntry(s.entries, TrimSpace(id));
      s.(entries := Without(s.entries, i), cancelled := s.cancelled + {s.entries[i].engine})
  }

  predicate Enabled(s: State, e: Step)
  {
    e.Ended? ==> e.engine in s.running
  }

  function Apply(s: State, e: Step): State
    requires Enabled(s, e)
  {
    match e
    case Add(want, logs) => Added(s, want, logs)
    case Remove(id) => Removed(s, id)
    case Ended(engine) => s.(used := s.used - {s.running[engine]}, running := s.running - {engine})
  }

  function Start(reserved: set<string>): State
  {
    State(reserved, [], 0, map[], {}, 0)
  }

  predicate Possible(s: State, es: seq<Step>)
    decreases es
  {
    es == [] || (Enabled(s, es[0]) && Possible(Apply(s, es[0]), es[1..]))
  }

  function Run(s: State, es: seq<Step>): State
    requires Possible(s, es)
    decreases es
  {
    if es == [] then s else Run(Apply(s, es[0]), es[1..])
  }

  // ---------- what every run keeps ----------

  /** The names in use are the reserved ones and those of the engines that run, all different. */
  ghost predicate NamesOk(reserved: set<string>, used: set<string>, running: map<nat, string>)
  {
    && (forall x :: x in used <==> x in reserved || x in running.Values)
    && (forall a :: a in running ==> running[a] !in reserved)
    && (forall a, b :: a in running && b in running && running[a] == running[b] ==> a == b)
  }

  /** Entries stand in the order their engines started. */
  ghost predicate Ordered(entries: seq<Entry>, started: nat)
  {
    && (forall i :: 0 <= i < |entries| ==> entries[i].engine < started)
    && (forall i, j :: 0 <= i < j < |entries| ==> entries[i].engine < entries[j].engine)
  }

  /** The entry of a running engine is the last one with its name; once removed, no entry has the name. */
  ghost predicate EntryOk(s: State, engine: nat, id: string)
  {
    if engine in s.cancelled then forall i :: 0 <= i < |s.entries| ==> s.entries[i].id != id
    else exists i :: LastWith(s.entries, i, Entry(id, engine))
  }

  ghost predicate LastWith(entries: seq<Entry>, i: nat, e: Entry)
  {
    && i < |entries| && entries[i] == e
    && forall j :: i < j < |entries| ==> entries[j].id != e.id
  }

  ghost predicate Inv(reserved: set<string>, s: State)
  {
    && NamesOk(reserved, s.used, s.running)
    && Ordered(s.entries, s.started)
    && |s.entries| <= MAX_CLIENTS
    && (forall a :: a in s.cancelled || a in s.running ==> a < s.started)
    && (forall i :: 0 <= i < |s.entries| ==> s.entries[i].engine !in s.cancelled)
    && (forall a :: a in s.running ==> EntryOk(s, a, s.running[a]) && Name(s.running[a]))
  }

  /** What a client can be called: not empty, and no space around it. */
  predicate Name(id: string)
  {
    id != "" && TrimSpace(id) == id
  }

  lemma PickIsFree(used: set<string>, counter: nat, want: string)
    requires Pick(used, counter, want).Some?
    ensures Pick(used, counter, want).value !in used && Name(Pick(used, counter, want).value)
  {
    hide TrimSpace;
    TrimmedIsTight(want);
    var n := NextFree(used, counter);
    assert Automatic(n)[0] == 'd';
    TrimTight(Automatic(n));
  }

  lemma NamesGrow(reserved: set<string>, used: set<string>, running: map<nat, string>, a: nat, id: string)
    requires NamesOk(reserved, used, running) && a !in running && id !in used
    ensures NamesOk(reserved, used + {id}, running[a := id])
  {
    var running' := running[a := id];
    assert a in running' && running'[a] == id;
    forall x | x in running'.Values
      ensures x in running.Values || x == id
    {
      var b :| b in running' && running'[b] == x;
    }
    forall x | x in running.Values
      ensures x in running'.Values
    {
      var b :| b in running && running[b] == x;
      assert running'[b] == x;
    }
  }

  lemma NamesShrink(reserved: set<string>, used: set<string>, running: map<nat, string>, a: nat)
    requires NamesOk(reserved, used, running) && a in running
    ensures NamesOk(reserved, used - {running[a]}, running - {a})
  {
    var running' := running - {a};
    forall x | x in running'.Values
      ensures x in running.Values && x != running[a]
    {
      var b :| b in running' && running'[b] == x;
      assert running[b] == x;
    }
    forall x | x in running.Values && x != running[a]
      ensures x in running'.Values
    {
      var b :| b in running && running[b] == x;
      assert running'[b] == x;
    }
  }

  lemma StillUsed(reserved: set<string>, s: State, a: nat)
    requires NamesOk(reserved, s.used, s.running) && a in s.running
    ensures s.running[a] in s.used
  {
    assert s.running[a] in s.running.Values;
  }

  lemma EntryStays(s: State, s': State, a: nat, id: string, e: Entry)
    requires EntryOk(s, a, id) && s'.entries == s.entries + [e] && e.id != id
    requires a in s'.cancelled <==> a in s.cancelled
    ensures EntryOk(s', a, id)
  {
    if a !in s.cancelled {
      var i :| LastWith(s.entries, i, Entry(id, a));
      assert LastWith(s'.entries, i, Entry(id, a));
    }
  }

  lemma AddKeeps(reserved: set<string>, s: State, want: string, logs: bool)
    requires Inv(reserved, s)
    ensures Inv(reserved, Added(s, want, logs))
  {
    hide NextFree, TrimSpace, Name, NamesOk;
    var s' := Added(s, want, logs);
    if Answered(s, want, logs).Started? {
      var id := Answered(s, want, logs).id;
      PickIsFree(s.used, s.counter, want);
      NamesGrow(reserved, s.used, s.running, s.started, id);
      forall a | a in s'.running
        ensures EntryOk(s', a, s'.running[a]) && Name(s'.running[a])
      {
        if a == s.started {
          assert LastWith(s'.entries, |s.entries|, Entry(id, a));
        } else {
          assert s.running[a] != id by { StillUsed(reserved, s, a); }
          EntryStays(s, s', a, s.running[a], Entry(id, s.started));
        }
      }
    } else {
      forall a | a in s'.running
        ensures EntryOk(s', a, s'.running[a]) && Name(s'.running[a])
      {
        assert EntryOk(s, a, s.running[a]);
      }
    }
  }

  lemma LastStays(entries: seq<Entry>, i: nat, e: Entry, k: nat)
    requires LastWith(entries, i, e) && k < |entries| && k != i
    ensures exists j :: LastWith(Without(entries, k), j, e)
  {
    var r := Without(entries, k);
    if i < k {
      assert LastWith(r, i, e);
    } else {
      assert LastWith(r, i - 1, e);
    }
  }

  lemma NoneLeft(entries: seq<Entry>, i: nat, e: Entry)
    requires LastWith(entries, i, e) && FirstEntry(entries, e.id) == i
    ensures forall j :: 0 <= j < |entries| - 1 ==> Without(entries, i)[j].id != e.id
  {
  }

  /** Taking out the first entry with a name either leaves the engine's entry the last one with it, or takes
      out that entry. */
  lemma EntryLeaves(s: State, a: nat, id: string, name: string)
    requires EntryOk(s, a, id) && Ordered(s.entries, s.started)
    requires FirstEntry(s.entries, name) < |s.entries|
    ensures
      var k := FirstEntry(s.entries, name);
      EntryOk(s.(entries := Without(s.entries, k), cancelled := s.cancelled + {s.entries[k].engine}), a, id)
  {
    hide LastWith, FirstEntry;
    var k := FirstEntry(s.entries, name);
    if a !in s.cancelled {
      var i: nat :| LastWith(s.entries, i, Entry(id, a));
      LastIs(s.entries, i, Entry(id, a));
      if i == k {
        NoneLeft(s.entries, i, Entry(id, a));
      } else {
        LastStays(s.entries, i, Entry(id, a), k);
      }
    }
  }

  lemma LastIs(entries: seq<Entry>, i: nat, e: Entry)
    requires LastWith(entries, i, e)
    ensures i < |entries| && entries[i] == e
  {
  }

  lemma RemoveKeeps(reserved: set<string>, s: State, id: string)
    requires Inv(reserved, s)
    ensures Inv(reserved, Removed(s, id))
  {
    hide TrimSpace, EntryOk, NamesOk, FirstEntry, Name;
    if Found(s, id) {
      var s' := Removed(s, id);
      forall a | a in s'.running
        ensures EntryOk(s', a, s'.running[a]) && Name(s'.running[a])
      {
        EntryLeaves(s, a, s.running[a], TrimSpace(id));
      }
    }
  }

  lemma EndedKeeps(reserved: set<string>, s: State, engine: nat)
    requires Inv(reserved, s) && engine in s.running
    ensures Inv(reserved, Apply(s, Ended(engine)))
  {
    hide NamesOk, Name;
    NamesShrink(reserved, s.used, s.running, engine);
    var s' := Apply(s, Ended(engine));
    forall a | a in s'.running
      ensures EntryOk(s', a, s'.running[a]) && Name(s'.running[a])
    {
      assert EntryOk(s, a, s.running[a]);
    }
  }

  lemma {:induction false} RunKeeps(reserved: set<string>, s: State, es: seq<Step>)
    requires Inv(reserved, s) && Possible(s, es)
    ensures Inv(reserved, Run(s, es))
    decreases es
  {
    hide Inv, Added, Removed;
    if es != [] {
      match es[0] {
        case Add(want, logs) => AddKeeps(reserved, s, want, logs);
        case Remove(id) => RemoveKeeps(reserved, s, id);
        case Ended(engine) => EndedKeeps(reserved, s, engine);
      }
      RunKeeps(reserved, Apply(s, es[0]), es[1..]);
    }
  }

  /** At every moment of every run: the names in use are the reserved ones and those of the engines still
      running, no running engine has a reserved name or another's name, and at most 32 entries are kept. */
  lemma EveryRunNamesApart(reserved: set<string>, es: seq<Step>)
    requires Possible(Start(reserved), es)
    ensures
      var s := Run(Start(reserved), es);
      && s.used == reserved + s.running.Values
      && s.running.Values !! reserved
      && |s.running.Values| == |s.running|
      && |s.entries| <= MAX_CLIENTS
  {
    hide Possible, Run, EntryOk, NamesOk, Start, Ordered, Name;
    StartInv(reserved);
    RunKeeps(reserved, Start(reserved), es);
    var s := Run(Start(reserved), es);
    NamesApart(reserved, s.used, s.running);
  }

  lemma NamesApart(reserved: set<string>, used: set<string>, running: map<nat, string>)
    requires NamesOk(reserved, used, running)
    ensures used == reserved + running.Values && running.Values !! reserved && |running.Values| == |running|
  {
    forall x | x in running.Values
      ensures x !in reserved
    {
      var a :| a in running && running[a] == x;
    }
    OneName(running);
  }

  lemma {:induction false} OneName(m: map<nat, string>)
    requires forall a, b :: a in m && b in m && m[a] == m[b] ==> a == b
    ensures |m.Values| == |m|
    decreases |m|
  {
    if m == map[] {
      assert m.Values == {};
    } else {
      var a :| a in m;
      var m' := m - {a};
      assert m'.Keys == m.Keys - {a};
      OneName(m');
      assert m.Values == m'.Values + {m[a]} by {
        forall x | x in m.Values
          ensures x in m'.Values + {m[a]}
        {
          var b :| b in m && m[b] == x;
          if b != a { assert m'[b] == x; }
        }
        forall x | x in m'.Values
          ensures x in m.Values
        {
          var b :| b in m' && m'[b] == x;
          assert m[b] == x;
        }
      }
      assert m[a] !in m'.Values;
    }
  }

  // ---------- what removal stops ----------

  /** The list shows the name exactly once. */
  predicate ListedOnce(entries: seq<Entry>, id: string)
  {
    var i := FirstEntry(entries, id);
    i < |entries| && FirstEntry(entries[i + 1..], id) == |entries| - i - 1
  }

  lemma OnceIffFirst(entries: seq<Entry>, i: nat, e: Entry)
    requires LastWith(entries, i, e)
    ensures ListedOnce(entries, e.id) <==> FirstEntry(entries, e.id) == i
  {
    var k := FirstEntry(entries, e.id);
    var rest := entries[k + 1..];
    if k < i {
      assert rest[i - k - 1] == entries[i];
    } else {
      assert forall j :: 0 <= j < |rest| ==> rest[j] == entries[k + 1 + j];
    }
  }

  lemma RemoveStops(s: State, engine: nat, id: string)
    requires Ordered(s.entries, s.started) && EntryOk(s, engine, id) && Name(id) && engine !in s.cancelled
    ensures engine in Removed(s, id).cancelled <==> ListedOnce(s.entries, id)
  {
    hide TrimSpace, ListedOnce, LastWith, FirstEntry;
    var i: nat :| LastWith(s.entries, i, Entry(id, engine));
    LastIs(s.entries, i, Entry(id, engine));
    OnceIffFirst(s.entries, i, Entry(id, engine));
  }

  /** Removing the name of a running engine that was not removed before stops that engine if and only if the
      list shows the name once; a second entry with the name is an earlier engine's, left behind by its end. */
  lemma RemoveStopsTheEngine(reserved: set<string>, es: seq<Step>, engine: nat)
    requires Possible(Start(reserved), es)
    requires engine in Run(Start(reserved), es).running && engine !in Run(Start(reserved), es).cancelled
    ensures
      var s := Run(Start(reserved), es);
      engine in Removed(s, s.running[engine]).cancelled <==> ListedOnce(s.entries, s.running[engine])
  {
    hide Possible, Run, NamesOk, EntryOk, Name, Start, ListedOnce, Removed, Ordered;
    StartInv(reserved);
    RunKeeps(reserved, Start(reserved), es);
    var s := Run(Start(reserved), es);
    RemoveStops(s, engine, s.running[engine]);
  }

  lemma StartInv(reserved: set<string>)
    ensures Inv(reserved, Start(reserved))
  {
  }

  /** A name taken again after its engine ended: removing it takes out the ended engine's entry and leaves the
      running engine on. */
  lemma RemoveMayMiss(reserved: set<string>)
    requires "a" !in reserved
    ensures
      var es := [Add("a", true), Ended(0), Add("a", true), Remove("a")];
      && Possible(Start(reserved), es)
      && var s := Run(Start(reserved), es); s.running == map[1 := "a"] && 1 !in s.cancelled && |s.entries| == 1
  {
    hide Added, Removed, TrimSpace;
    var s0 := Start(reserved);
    var s1 := State(reserved + {"a"}, [Entry("a", 0)], 0, map[0 := "a"], {}, 1);
    var s2 := State(reserved, [Entry("a", 0)], 0, map[], {}, 1);
    var s3 := State(reserved + {"a"}, [Entry("a", 0), Entry("a", 1)], 0, map[1 := "a"], {}, 2);
    var s4 := State(reserved + {"a"}, [Entry("a", 1)], 0, map[1 := "a"], {0}, 2);
    assert Name("a") by { TrimTight("a"); }
    AddNamed(s0, "a");
    assert Apply(s0, Add("a", true)) == s1;
    assert Apply(s1, Ended(0)) == s2;
    AddNamed(s2, "a");
    assert Apply(s2, Add("a", true)) == s3;
    RemoveFirst(s3, "a");
    assert Apply(s3, Remove("a")) == s4;
    RunFour(s0, Add("a", true), Ended(0), Add("a", true), Remove("a"));
  }

  lemma AddNamed(s: State, id: string)
    requires Name(id) && id !in s.used && |s.entries| < MAX_CLIENTS
    ensures Added(s, id, true) == State(s.used + {id}, s.entries + [Entry(id, s.started)], s.counter,
                                        s.running[s.started := id], s.cancelled, s.started + 1)
  {
    hide TrimSpace, NextFree;
  }

  lemma RemoveFirst(s: State, id: string)
    requires Name(id) && s.entries != [] && s.entries[0].id == id
    ensures Removed(s, id) == s.(entries := s.entries[1..], cancelled := s.cancelled + {s.entries[0].engine})
  {
    hide TrimSpace;
    assert FirstEntry(s.entries, id) == 0;
    assert Without(s.entries, 0) == s.entries[1..];
  }

  lemma RunFour(s: State, a: Step, b: Step, c: Step, d: Step)
    requires Enabled(s, a) && Enabled(Apply(s, a), b) && Enabled(Apply(Apply(s, a), b), c)
    requires Enabled(Apply(Apply(Apply(s, a), b), c), d)
    ensures Possible(s, [a, b, c, d])
    ensures Run(s, [a, b, c, d]) == Apply(Apply(Apply(Apply(s, a), b), c), d)
  {
    hide Enabled, Apply;
    var s1, es := Apply(s, a), [a, b, c, d];
    assert es[1..] == [b, c, d] && [b, c, d][1..] == [c, d] && [c, d][1..] == [d] && [d][1..] == [];
    var s2 := Apply(s1, b);
    var s3 := Apply(s2, c);
    assert Possible(s3, [d]) && Run(s3, [d]) == Apply(s3, d);
    assert Possible(s2, [c, d]) && Run(s2, [c, d]) == Apply(s3, d);
    assert Possible(s1, [b, c, d]) && Run(s1, [b, c, d]) == Apply(s3, d);
  }

  // ---------- the coordinator ----------

  /** The names that stay in use for ever. */
  function NamesOf(ids: seq<string>): set<string>
  {
    set i | 0 <= i < |ids| && TrimSpace(ids[i]) != "" :: TrimSpace(ids[i])
  }

  lemma NamesOfNext(ids: seq<string>, i: nat)
    requires i < |ids|
    ensures NamesOf(ids[..i + 1]) == NamesOf(ids[..i]) + (if TrimSpace(ids[i]) != "" then {TrimSpace(ids[i])} else {})
  {
    hide TrimSpace;
    var a, b := ids[..i + 1], ids[..i];
    assert forall j :: 0 <= j < i ==> a[j] == b[j];
    assert a[i] == ids[i];
    forall x | x in NamesOf(b)
      ensures x in NamesOf(a)
    {
      var j :| 0 <= j < |b| && TrimSpace(b[j]) != "" && x == TrimSpace(b[j]);
      assert TrimSpace(a[j]) == x;
    }
    if TrimSpace(ids[i]) != "" {
      assert TrimSpace(a[i]) in NamesOf(a);
    }
  }

  method Collect(used: set<string>, ids: seq<string>) returns (r: set<string>)
    ensures r == used + NamesOf(ids)
  {
    hide TrimSpace, NamesOf;
    r := used;
    assert NamesOf(ids[..0]) == {} by { NoNames(ids[..0]); }
    for i := 0 to |ids|
      invariant r == used + NamesOf(ids[..i])
    {
      var id := TrimSpace(ids[i]);
      NamesOfNext(ids, i);
      if id != "" {
        r := r + {id};
      }
    }
    assert ids[..|ids|] == ids;
  }

  lemma NoNames(ids: seq<string>)
    requires ids == []
    ensures NamesOf(ids) == {}
  {
  }

  class Coordinator {
    var usedIDs: set<string>
    var entries: seq<Entry>
    var counter: nat
    ghost var running: map<nat, string>
    ghost var cancelled: set<nat>
    var started: nat

    ghost function View(): State
      reads this
    {
      State(usedIDs, entries, counter, running, cancelled, started)
    }

    constructor (staticExtraIDs: seq<string>, reservedIDs: seq<string>)
      ensures View() == Start({"primary"} + NamesOf(reservedIDs) + NamesOf(staticExtraIDs))
      ensures forall x :: x in usedIDs <==>
                          || x == "primary"
                          || (x != "" && exists i :: 0 <= i < |reservedIDs| && TrimSpace(reservedIDs[i]) == x)
                          || (x != "" && exists i :: 0 <= i < |staticExtraIDs| && TrimSpace(staticExtraIDs[i]) == x)
    {
      var used := Collect({"primary"}, reservedIDs);
      used := Collect(used, staticExtraIDs);
      usedIDs, entries, counter, started := used, [], 0, 0;
      running, cancelled := map[], {};
    }

    method PickID(want: string) returns (id: Option<string>)
      modifies this`counter
      ensures id == Pick(usedIDs, old(counter), want)
      ensures counter == CounterAfter(usedIDs, old(counter), want)
    {
      var name := TrimSpace(want);
      if name != "" {
        return if name in usedIDs then None else Some(name);
      }
      counter := counter + 1;
      while Automatic(counter) in usedIDs
        invariant counter > old(counter)
        invariant NextFree(usedIDs, counter - 1) == NextFree(usedIDs, old(counter))
        decreases Ahead(usedIDs, counter - 1)
      {
        AheadShrinks(usedIDs, counter - 1);
        counter := counter + 1;
      }
      return Some(Automatic(counter));
    }

    method AddClient(want: string, logs: bool) returns (answer: Answer)
      modifies this
      ensures answer == Answered(old(View()), want, logs)
      ensures View() == Apply(old(View()), Add(want, logs))
      ensures answer.TooMany? <==> |old(entries)| >= 32
      ensures !answer.TooMany? ==> (answer.InUse? <==> TrimSpace(want) != "" && TrimSpace(want) in old(usedIDs))
      ensures !answer.TooMany? && !answer.InUse? ==> (answer.Started? <==> logs)
      ensures answer.Started? ==>
                && answer.id !in old(usedIDs) && usedIDs == old(usedIDs) + {answer.id}
                && entries == old(entries) + [Entry(answer.id, old(started))]
                && (TrimSpace(want) != "" ==> answer.id == TrimSpace(want))
                && (TrimSpace(want) == "" ==> answer.id == "dyn-" + Decimal(counter) && counter > old(counter))
      ensures !answer.Started? ==> usedIDs == old(usedIDs) && entries == old(entries)
    {
      hide NextFree, TrimSpace;
      if |entries| >= MAX_CLIENTS {
        return TooMany;
      }
      var id := PickID(want);
      if id == None {
        return InUse;
      }
      if !logs {
        return NoLogger;
      }
      usedIDs := usedIDs + {id.value};
      entries := entries + [Entry(id.value, started)];
      running := running[started := id.value];
      started := started + 1;
      return Started(id.value);
    }

    /** False is the error answer: no name given, or no entry with it. */
    method RemoveClient(raw: string) returns (ok: bool)
      modifies this`entries, this`cancelled
      ensures ok == Found(old(View()), raw)
      ensures ok <==> TrimSpace(raw) != "" && exists i :: 0 <= i < |old(entries)| && old(entries)[i].id == TrimSpace(raw)
      ensures View() == Apply(old(View()), Remove(raw))
    {
      hide TrimSpace;
      var id := TrimSpace(raw);
      if id == "" {
        return false;
      }
      var i := 0;
      while i < |entries|
        invariant 0 <= i <= |entries| && entries == old(entries) && cancelled == old(cancelled)
        invariant FirstEntry(entries, id) >= i
      {
        if entries[i].id == id {
          assert FirstEntry(entries, id) == i;
          cancelled := cancelled + {entries[i].engine};
          entries := Without(entries, i);
          return true;
        }
        i := i + 1;
      }
      return false;
    }

    method RunEnded(engine: nat, runID: string)
      requires engine in running && running[engine] == runID
      modifies this`usedIDs, this`running
      ensures View() == Apply(old(View()), Ended(engine))
    {
      usedIDs := usedIDs - {runID};
      running := running - {engine};
    }
  }
}
