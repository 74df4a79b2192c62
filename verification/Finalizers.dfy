/**
  The finalizer tables of src/gc-finalizer.c.

  There is one table per priority, each of 32 lists; a finalizer goes to the list that the
  table's count selects.  During a collection gc_resolve_finalizers rebuilds a table: a
  finalizer whose object has been visited stays, the others are fired and their objects
  visited.  What a visit marks on the spot decides which finalizers further down the table fire.
  In src/semi.c that is the object itself, if it is small, and also what it refers to, if it is
  large; in src/mmc.c and src/pcc.c, where visiting only enqueues a root, it is nothing.
*/
module Finalizers {

  type Fin = nat
  type Obj = nat

  const BucketCount: nat := 32

  datatype FinState = Active | Fired   // a finalizer with no entry is still in its initial state

  datatype Table = Table(count: nat, buckets: seq<seq<Fin>>)

  function EmptyTable(): Table {
    Table(0, seq(BucketCount, _ => []))
  }

  // ---------- Contents ----------

  function Flat(bs: seq<seq<Fin>>): seq<Fin> {
    if bs == [] then [] else Flat(bs[..|bs| - 1]) + bs[|bs| - 1]
  }

  function TablesEntries(ts: seq<Table>): multiset<Fin> {
    if ts == [] then multiset{} else TablesEntries(ts[..|ts| - 1]) + Entries(ts[|ts| - 1])
  }

  ghost predicate TableOk(t: Table) {
    |t.buckets| == BucketCount && t.count == |Flat(t.buckets)|
  }

  /** add_finalizer_to_table */
  function AddTo(t: Table, f: Fin): Table
    requires |t.buckets| == BucketCount
  {
    var i := t.count % BucketCount;
    Table(t.count + 1, t.buckets[i := [f] + t.buckets[i]])
  }

  /** The table that attaching one finalizer after the other makes. */
  function AddAll(t: Table, fs: seq<Fin>): (r: Table)
    requires |t.buckets| == BucketCount
    ensures |r.buckets| == BucketCount && r.count == t.count + |fs|
  {
    if fs == [] then t else AddTo(AddAll(t, fs[..|fs| - 1]), fs[|fs| - 1])
  }

  /** How many of the first `n` finalizers go to list `b`. */
  function InList(n: nat, b: nat): nat
    requires b < BucketCount
  {
    (n + BucketCount - 1 - b) / BucketCount
  }

  /** Attached to an empty table, they are dealt out to the lists in turn, and in each list the latest comes
      first: this is the order in which they are resolved. */
  lemma {:induction false} AttachedOrder(fs: seq<Fin>, b: nat)
    requires b < BucketCount
    ensures var list := AddAll(EmptyTable(), fs).buckets[b];
      && |list| == InList(|fs|, b)
      && forall k :: 0 <= k < |list| ==> b + BucketCount * (|list| - 1 - k) < |fs| && list[k] == fs[b + BucketCount * (|list| - 1 - k)]
  {
    if fs != [] {
      var n := |fs| - 1;
      AttachedOrder(fs[..n], b);
      NextInList(n, b);
      var list0, list := AddAll(EmptyTable(), fs[..n]).buckets[b], AddAll(EmptyTable(), fs).buckets[b];
      if n % BucketCount == b {
        assert list == [fs[n]] + list0;
        forall k | 0 <= k < |list|
          ensures b + BucketCount * (|list| - 1 - k) < |fs| && list[k] == fs[b + BucketCount * (|list| - 1 - k)]
        {
          if k > 0 { assert list[k] == list0[k - 1]; }
        }
      } else {
        assert list == list0;
      }
    }
  }

  lemma NextInList(n: nat, b: nat)
    requires b < BucketCount
    ensures InList(n + 1, b) == InList(n, b) + if n % BucketCount == b then 1 else 0
    ensures n % BucketCount == b ==> b + BucketCount * InList(n, b) == n
  {
  }

  lemma {:induction false} FlatPush(bs: seq<seq<Fin>>, i: nat, f: Fin)
    requires i < |bs|
    ensures multiset(Flat(bs[i := [f] + bs[i]])) == multiset(Flat(bs)) + multiset{f}
    ensures |Flat(bs[i := [f] + bs[i]])| == |Flat(bs)| + 1
  {
    var bs' := bs[i := [f] + bs[i]];
    var n := |bs| - 1;
    if i == n {
      assert bs'[..n] == bs[..n];
    } else {
      assert bs'[..n] == bs[..n][i := [f] + bs[i]];
      FlatPush(bs[..n], i, f);
    }
  }

  lemma FlatNext(bs: seq<seq<Fin>>, b: nat)
    requires b < |bs|
    ensures Flat(bs[..b + 1]) == Flat(bs[..b]) + bs[b]
  {
    assert bs[..b + 1][..b] == bs[..b];
  }

  lemma {:induction false} FlatHas(bs: seq<seq<Fin>>, b: nat, i: nat)
    requires b < |bs| && i < |bs[b]|
    ensures bs[b][i] in Flat(bs)
  {
    var n := |bs| - 1;
    if b < n {
      FlatHas(bs[..n], b, i);
    } else {
      assert Flat(bs)[|Flat(bs[..n])| + i] == bs[b][i];
    }
  }

  lemma {:induction false} FlatEmpty(bs: seq<seq<Fin>>)
    requires forall i :: 0 <= i < |bs| ==> bs[i] == []
    ensures Flat(bs) == []
  {
    if bs != [] {
      FlatEmpty(bs[..|bs| - 1]);
    }
  }

  lemma AddToEntries(t: Table, f: Fin)
    requires TableOk(t)
    ensures TableOk(AddTo(t, f)) && multiset(Flat(AddTo(t, f).buckets)) == multiset(Flat(t.buckets)) + multiset{f}
  {
    FlatPush(t.buckets, t.count % BucketCount, f);
  }

  function Entries(t: Table): multiset<Fin> {
    multiset(Flat(t.buckets))
  }

  lemma {:induction false} TablesReplace(ts: seq<Table>, p: nat, t: Table, f: Fin)
    requires p < |ts|
    ensures TablesEntries(ts[p := t])[f] + Entries(ts[p])[f] == TablesEntries(ts)[f] + Entries(t)[f]
  {
    hide Entries;
    var n := |ts| - 1;
    var ts' := ts[p := t];
    if p == n {
      assert ts'[..n] == ts[..n];
    } else {
      TablesReplace(ts[..n], p, t, f);
      assert ts'[..n] == ts[..n][p := t] && ts'[n] == ts[n] && ts[..n][p] == ts[p];
    }
  }

  lemma {:induction false} EntryInTables(ts: seq<Table>, p: nat, f: Fin)
    requires p < |ts|
    ensures TablesEntries(ts)[f] >= Entries(ts[p])[f]
  {
    if p < |ts| - 1 { EntryInTables(ts[..|ts| - 1], p, f); }
  }

  // ---------- What resolving does, as a function ----------

  datatype Resolution = Resolution(kept: seq<Fin>, fired: seq<Fin>, visited: set<Obj>)

  /** One pass over the finalizers in table order; `reach` is what visiting an object marks on the spot. */
  function Resolve(fs: seq<Fin>, target: map<Fin, Obj>, visited: set<Obj>, reach: Obj -> set<Obj>): Resolution {
    if fs == [] then Resolution([], [], visited)
    else
      var r := Resolve(fs[..|fs| - 1], target, visited, reach);
      var f := fs[|fs| - 1];
      if f !in target || target[f] in r.visited then r.(kept := r.kept + [f])
      else r.(fired := r.fired + [f], visited := r.visited + reach(target[f]))
  }

  function Objects(fs: seq<Fin>, target: map<Fin, Obj>): set<Obj> {
    set f | f in fs && f in target :: target[f]
  }

  lemma InObjects(fs: seq<Fin>, target: map<Fin, Obj>, f: Fin)
    requires f in fs && f in target
    ensures target[f] in Objects(fs, target)
  {
  }

  /** `x` was marked by the visit of an object whose finalizer fired. */
  ghost predicate Reached(fired: seq<Fin>, target: map<Fin, Obj>, reach: Obj -> set<Obj>, x: Obj) {
    exists f :: f in fired && f in target && x in reach(target[f])
  }

  /** What the visit of an object marks includes what a visit of anything it marks would mark. */
  ghost predicate Transitive(reach: Obj -> set<Obj>) {
    forall a, b :: b in reach(a) ==> reach(b) <= reach(a)
  }

  /** Visiting marks later, if at all (src/mmc.c enqueues a root). */
  ghost predicate Deferred(reach: Obj -> set<Obj>) {
    forall o :: reach(o) == {}
  }

  /** Every finalizer stays or fires, and none does both. */
  lemma {:induction false} ResolvePartition(fs: seq<Fin>, target: map<Fin, Obj>, visited: set<Obj>, reach: Obj -> set<Obj>)
    ensures var r := Resolve(fs, target, visited, reach); multiset(r.kept) + multiset(r.fired) == multiset(fs)
  {
    if fs != [] {
      ResolvePartition(fs[..|fs| - 1], target, visited, reach);
      assert fs == fs[..|fs| - 1] + [fs[|fs| - 1]];
    }
  }

  /** What is visited afterwards: what was, and what the objects of the fired finalizers reach. */
  lemma {:induction false} VisitedIs(fs: seq<Fin>, target: map<Fin, Obj>, visited: set<Obj>, reach: Obj -> set<Obj>)
    ensures var r := Resolve(fs, target, visited, reach);
      && (forall x :: x in r.visited <==> x in visited || Reached(r.fired, target, reach, x))
      && (forall f :: f in r.fired ==> f in fs && f in target && target[f] !in visited)
  {
    if fs != [] {
      var fs1, f := fs[..|fs| - 1], fs[|fs| - 1];
      VisitedIs(fs1, target, visited, reach);
      var r1, r := Resolve(fs1, target, visited, reach), Resolve(fs, target, visited, reach);
      assert fs == fs1 + [f];
      assert visited <= r1.visited;
      forall x ensures x in r.visited <==> x in visited || Reached(r.fired, target, reach, x) {
        ReachedMore(r1.fired, target, reach, x, f);
      }
    }
  }

  lemma ReachedMore(fired: seq<Fin>, target: map<Fin, Obj>, reach: Obj -> set<Obj>, x: Obj, f: Fin)
    ensures Reached(fired + [f], target, reach, x) <==>
            Reached(fired, target, reach, x) || (f in target && x in reach(target[f]))
  {
    if Reached(fired, target, reach, x) {
      var g :| g in fired && g in target && x in reach(target[g]);
      assert g in fired + [f];
    }
    assert f in fired + [f];
  }

  /** What has come of the first `n` finalizers is part of what comes of all. */
  lemma {:induction false} ResolvePrefix(fs: seq<Fin>, target: map<Fin, Obj>, visited: set<Obj>, reach: Obj -> set<Obj>, n: nat)
    requires n <= |fs|
    ensures var r, r1 := Resolve(fs, target, visited, reach), Resolve(fs[..n], target, visited, reach);
      r1.fired <= r.fired && r1.kept <= r.kept && r1.visited <= r.visited
  {
    if n < |fs| {
      ResolvePrefix(fs[..|fs| - 1], target, visited, reach, n);
      assert fs[..|fs| - 1][..n] == fs[..n];
    } else {
      assert fs[..n] == fs;
    }
  }

  /** The finalizer at one place of the table fires just when nothing has visited its object by then. */
  lemma ResolveAt(fs: seq<Fin>, target: map<Fin, Obj>, visited: set<Obj>, reach: Obj -> set<Obj>, i: nat)
    requires i < |fs|
    ensures var r, r1 := Resolve(fs, target, visited, reach), Resolve(fs[..i], target, visited, reach);
      if fs[i] in target && target[fs[i]] !in r1.visited
      then r1.fired + [fs[i]] <= r.fired && reach(target[fs[i]]) <= r.visited
      else r1.kept + [fs[i]] <= r.kept
  {
    ResolvePrefix(fs, target, visited, reach, i + 1);
    assert fs[..i + 1][..i] == fs[..i];
  }

  /** A finalizer fires if and only if its object was not reached by tracing, nor by the visit of an
      object whose finalizer fired before it in table order. */
  lemma FiresIff(fs: seq<Fin>, target: map<Fin, Obj>, visited: set<Obj>, reach: Obj -> set<Obj>, i: nat)
    requires i < |fs| && forall j, k :: 0 <= j < k < |fs| ==> fs[j] != fs[k]
    ensures var r := Resolve(fs, target, visited, reach);
      fs[i] in r.fired <==>
        fs[i] in target && target[fs[i]] !in visited &&
        forall j :: 0 <= j < i && fs[j] in r.fired && fs[j] in target ==> target[fs[i]] !in reach(target[fs[j]])
  {
    hide Resolve;
    var r, r1 := Resolve(fs, target, visited, reach), Resolve(fs[..i], target, visited, reach);
    PlaceDecides(fs, target, visited, reach, i);
    VisitedIs(fs[..i], target, visited, reach);
    forall j | 0 <= j < i ensures fs[j] in r.fired <==> fs[j] in r1.fired {
      PlaceDecides(fs, target, visited, reach, j);
      PlaceDecides(fs[..i], target, visited, reach, j);
      assert fs[..i][..j] == fs[..j];
    }
    if fs[i] in target && Reached(r1.fired, target, reach, target[fs[i]]) {
      var f :| f in r1.fired && f in target && target[fs[i]] in reach(target[f]);
      var j :| 0 <= j < |fs[..i]| && fs[..i][j] == f;
    }
  }

  lemma PlaceDecides(fs: seq<Fin>, target: map<Fin, Obj>, visited: set<Obj>, reach: Obj -> set<Obj>, i: nat)
    requires i < |fs| && forall j, k :: 0 <= j < k < |fs| ==> fs[j] != fs[k]
    ensures fs[i] in Resolve(fs, target, visited, reach).fired <==>
            fs[i] in target && target[fs[i]] !in Resolve(fs[..i], target, visited, reach).visited
  {
    hide Resolve;
    ResolveAt(fs, target, visited, reach, i);
    OnceEach(fs, target, visited, reach);
    var r, r1 := Resolve(fs, target, visited, reach), Resolve(fs[..i], target, visited, reach);
    if fs[i] in target && target[fs[i]] !in r1.visited {
      assert r.fired[|r1.fired|] == (r1.fired + [fs[i]])[|r1.fired|];
    } else {
      assert r.kept[|r1.kept|] == (r1.kept + [fs[i]])[|r1.kept|];
    }
  }

  /** In a table without repetitions no finalizer both stays and fires. */
  lemma OnceEach(fs: seq<Fin>, target: map<Fin, Obj>, visited: set<Obj>, reach: Obj -> set<Obj>)
    requires forall j, k :: 0 <= j < k < |fs| ==> fs[j] != fs[k]
    ensures var r := Resolve(fs, target, visited, reach); forall f :: f in r.fired ==> f !in r.kept
  {
    var r := Resolve(fs, target, visited, reach);
    ResolvePartition(fs, target, visited, reach);
    forall f | f in r.fired ensures f !in r.kept {
      AtMostOnce(fs, f);
      assert multiset(fs)[f] == multiset(r.kept)[f] + multiset(r.fired)[f];
    }
  }

  /** The tables of a heap are without repetitions. */
  lemma TableDistinct(tables: seq<Table>, fired: seq<Fin>, popped: seq<Fin>, state: map<Fin, FinState>,
                      target: map<Fin, Obj>, p: nat)
    requires StateOk(tables, fired, popped, state, target) && p < |tables|
    ensures var fs := Flat(tables[p].buckets); forall j, k :: 0 <= j < k < |fs| ==> fs[j] != fs[k]
  {
    hide TableOk, Flat;
    var fs := Flat(tables[p].buckets);
    forall j, k | 0 <= j < k < |fs| ensures fs[j] != fs[k] {
      assert PlaceOk(tables, fired, popped, state, target, fs[j]);
      EntryInTables(tables, p, fs[j]);
      TwiceCounted(fs, j, k);
    }
  }

  lemma TableShape(tables: seq<Table>, fired: seq<Fin>, popped: seq<Fin>, state: map<Fin, FinState>,
                   target: map<Fin, Obj>, p: nat)
    requires StateOk(tables, fired, popped, state, target) && p < |tables|
    ensures |tables[p].buckets| == BucketCount
  {
  }

  lemma TwiceCounted(fs: seq<Fin>, j: nat, k: nat)
    requires j < k < |fs|
    ensures fs[j] == fs[k] ==> multiset(fs)[fs[j]] >= 2
  {
    assert fs == fs[..k] + [fs[k]] + fs[k + 1..];
    assert fs[j] in fs[..k];
  }

  lemma {:induction false} AtMostOnce(fs: seq<Fin>, f: Fin)
    requires forall j, k :: 0 <= j < k < |fs| ==> fs[j] != fs[k]
    ensures multiset(fs)[f] <= 1
  {
    if fs != [] {
      var n := |fs| - 1;
      assert fs == fs[..n] + [fs[n]];
      AtMostOnce(fs[..n], f);
      assert fs[n] !in fs[..n];
    }
  }

  /** A finalizer that stays does so because its object was reached by tracing, or by a visit here;
      whatever tracing had not reached is finalized or reached by a visit here. */
  lemma {:induction false} KeptBecause(fs: seq<Fin>, target: map<Fin, Obj>, visited: set<Obj>, reach: Obj -> set<Obj>)
    ensures var r := Resolve(fs, target, visited, reach);
      && Objects(r.fired, target) <= Objects(fs, target) - visited
      && (forall f :: f in r.kept && f in target ==> target[f] in visited || Reached(r.fired, target, reach, target[f]))
      && (forall o :: o in Objects(fs, target) - visited ==>
                      o in Objects(r.fired, target) || Reached(r.fired, target, reach, o))
  {
    if fs != [] {
      var fs1, f := fs[..|fs| - 1], fs[|fs| - 1];
      KeptBecause(fs1, target, visited, reach);
      VisitedIs(fs1, target, visited, reach);
      var r1, r := Resolve(fs1, target, visited, reach), Resolve(fs, target, visited, reach);
      assert fs == fs1 + [f];
      assert Objects(fs, target) == Objects(fs1, target) + (if f in target then {target[f]} else {});
      assert r1.fired <= r.fired;
      forall x | Reached(r1.fired, target, reach, x) ensures Reached(r.fired, target, reach, x) {
        ReachedMore(r1.fired, target, reach, x, f);
      }
      if r.fired != r1.fired {
        assert Objects(r.fired, target) == Objects(r1.fired, target) + {target[f]};
      }
    }
  }

  /** Where visiting marks the object itself, every object of the table has been visited in the end. */
  lemma ObjectsVisited(fs: seq<Fin>, target: map<Fin, Obj>, visited: set<Obj>, reach: Obj -> set<Obj>)
    requires forall o :: o in reach(o)
    ensures Objects(fs, target) <= Resolve(fs, target, visited, reach).visited
  {
    hide Resolve;
    var r := Resolve(fs, target, visited, reach);
    KeptBecause(fs, target, visited, reach);
    VisitedIs(fs, target, visited, reach);
    forall o | o in Objects(fs, target) && o !in visited ensures Reached(r.fired, target, reach, o) {
      if o in Objects(r.fired, target) {
        var f :| f in r.fired && f in target && target[f] == o;
        assert o in reach(target[f]);
      }
    }
  }

  /** The first finalizer of the table on its object, which tracing had not reached. */
  ghost predicate FirstOn(fs: seq<Fin>, target: map<Fin, Obj>, visited: set<Obj>, i: nat) {
    && i < |fs| && fs[i] in target && target[fs[i]] !in visited
    && forall j :: 0 <= j < i && fs[j] in target ==> target[fs[j]] != target[fs[i]]
  }

  /** No object is reached from one that a finalizer earlier in the table is on. */
  ghost predicate Unshaded(fs: seq<Fin>, target: map<Fin, Obj>, visited: set<Obj>, reach: Obj -> set<Obj>, i: nat)
    requires i < |fs| && fs[i] in target
  {
    forall j :: 0 <= j < i && fs[j] in target && target[fs[j]] !in visited ==> target[fs[i]] !in reach(target[fs[j]])
  }

  /** The objects finalized are exactly those that tracing had not reached if and only if none of these
      is reached at once from another that has an earlier finalizer. */
  lemma FiredObjects(fs: seq<Fin>, target: map<Fin, Obj>, visited: set<Obj>, reach: Obj -> set<Obj>)
    requires Transitive(reach)
    ensures Objects(Resolve(fs, target, visited, reach).fired, target) == Objects(fs, target) - visited <==>
            forall i: nat :: FirstOn(fs, target, visited, i) ==> Unshaded(fs, target, visited, reach, i)
  {
    var r := Resolve(fs, target, visited, reach);
    KeptBecause(fs, target, visited, reach);
    forall i: nat | FirstOn(fs, target, visited, i)
      ensures Unshaded(fs, target, visited, reach, i) <==> target[fs[i]] in Objects(r.fired, target)
    {
      FirstFires(fs, target, visited, reach, i);
    }
    forall o | o in Objects(fs, target) - visited
      ensures exists i: nat :: FirstOn(fs, target, visited, i) && target[fs[i]] == o
    {
      var f :| f in fs && f in target && target[f] == o;
      var k :| 0 <= k < |fs| && fs[k] == f;
      var i := FirstIndex(fs, target, visited, o, k);
    }
  }

  lemma {:induction false} FirstIndex(fs: seq<Fin>, target: map<Fin, Obj>, visited: set<Obj>, o: Obj, k: nat) returns (i: nat)
    requires k < |fs| && fs[k] in target && target[fs[k]] == o && o !in visited
    ensures FirstOn(fs, target, visited, i) && target[fs[i]] == o
    decreases k
  {
    if j :| 0 <= j < k && fs[j] in target && target[fs[j]] == o {
      i := FirstIndex(fs, target, visited, o, j);
    } else {
      i := k;
    }
  }

  lemma FirstFires(fs: seq<Fin>, target: map<Fin, Obj>, visited: set<Obj>, reach: Obj -> set<Obj>, i: nat)
    requires Transitive(reach) && FirstOn(fs, target, visited, i)
    ensures Unshaded(fs, target, visited, reach, i) <==>
            target[fs[i]] in Objects(Resolve(fs, target, visited, reach).fired, target)
  {
    var r, r1 := Resolve(fs, target, visited, reach), Resolve(fs[..i], target, visited, reach);
    var o := target[fs[i]];
    ResolveAt(fs, target, visited, reach, i);
    VisitedIs(fs[..i], target, visited, reach);
    if Unshaded(fs, target, visited, reach, i) {
      forall f | f in r1.fired && f in target ensures o !in reach(target[f]) {
        var j :| 0 <= j < |fs[..i]| && fs[..i][j] == f;
      }
    } else {
      var j :| 0 <= j < i && fs[j] in target && target[fs[j]] !in visited && o in reach(target[fs[j]]);
      EarlierShades(fs, target, visited, reach, i, j);
      NeverFires(fs, target, visited, reach, i, o);
    }
  }

  /** Whatever an earlier object reaches has been visited, whether its own finalizer fired or not. */
  lemma EarlierShades(fs: seq<Fin>, target: map<Fin, Obj>, visited: set<Obj>, reach: Obj -> set<Obj>, i: nat, j: nat)
    requires Transitive(reach) && j < i <= |fs| && fs[j] in target && target[fs[j]] !in visited
    ensures reach(target[fs[j]]) <= Resolve(fs[..i], target, visited, reach).visited
  {
    var a := target[fs[j]];
    assert fs[..i][..j] == fs[..j];
    ResolveAt(fs[..i], target, visited, reach, j);
    ResolvePrefix(fs[..i], target, visited, reach, j);
    var r2 := Resolve(fs[..j], target, visited, reach);
    if a in r2.visited {
      VisitedIs(fs[..j], target, visited, reach);
      var f :| f in r2.fired && f in target && a in reach(target[f]);
      forall x | x in reach(a) ensures x in r2.visited {
        assert x in reach(target[f]);
        assert Reached(r2.fired, target, reach, x);
      }
    }
  }

  /** Once an object has been visited none of its finalizers fires any more. */
  lemma {:induction false} NeverFires(fs: seq<Fin>, target: map<Fin, Obj>, visited: set<Obj>, reach: Obj -> set<Obj>,
                                      i: nat, o: Obj)
    requires i <= |fs| && o in Resolve(fs[..i], target, visited, reach).visited
    requires forall j :: 0 <= j < i && fs[j] in target ==> target[fs[j]] != o
    ensures o !in Objects(Resolve(fs, target, visited, reach).fired, target)
  {
    if i == |fs| {
      assert fs[..i] == fs;
      VisitedIs(fs, target, visited, reach);
      var r := Resolve(fs, target, visited, reach);
      forall f | f in r.fired && f in target ensures target[f] != o {
        var j :| 0 <= j < |fs| && fs[j] == f;
      }
    } else {
      var fs1 := fs[..|fs| - 1];
      assert fs1[..i] == fs[..i];
      NeverFires(fs1, target, visited, reach, i, o);
      ResolvePrefix(fs1, target, visited, reach, i);
    }
  }

  /** Where visiting marks the object itself, at most one finalizer of a table fires for an object. */
  lemma {:induction false} OneFiresPerObject(fs: seq<Fin>, target: map<Fin, Obj>, visited: set<Obj>, reach: Obj -> set<Obj>)
    requires forall o :: o in reach(o)
    ensures var r := Resolve(fs, target, visited, reach);
      forall i, j :: 0 <= i < j < |r.fired| ==>
        r.fired[i] in target && r.fired[j] in target && target[r.fired[i]] != target[r.fired[j]]
  {
    hide Resolve;
    if fs == [] {
      NoneFire(target, visited, reach);
    } else {
      var fs1, f := fs[..|fs| - 1], fs[|fs| - 1];
      OneFiresPerObject(fs1, target, visited, reach);
      FiredAreVisited(fs1, target, visited, reach);
      OneMoreFires(fs, target, visited, reach);
      var r1, r := Resolve(fs1, target, visited, reach), Resolve(fs, target, visited, reach);
      forall i, j | 0 <= i < j < |r.fired| ensures target[r.fired[i]] != target[r.fired[j]] {
        assert r.fired[i] == r1.fired[i] && target[r1.fired[i]] in r1.visited;
        if j < |r1.fired| {
          assert r.fired[j] == r1.fired[j];
        } else {
          assert r.fired[j] == f;
        }
      }
    }
  }

  lemma NoneFire(target: map<Fin, Obj>, visited: set<Obj>, reach: Obj -> set<Obj>)
    ensures Resolve([], target, visited, reach).fired == []
  {
  }

  lemma OneMoreFires(fs: seq<Fin>, target: map<Fin, Obj>, visited: set<Obj>, reach: Obj -> set<Obj>)
    requires fs != []
    ensures var f, r1, r := fs[|fs| - 1], Resolve(fs[..|fs| - 1], target, visited, reach), Resolve(fs, target, visited, reach);
      r.fired == if f in target && target[f] !in r1.visited then r1.fired + [f] else r1.fired
  {
  }

  lemma FiredAreVisited(fs: seq<Fin>, target: map<Fin, Obj>, visited: set<Obj>, reach: Obj -> set<Obj>)
    requires forall o :: o in reach(o)
    ensures var r := Resolve(fs, target, visited, reach);
      forall i :: 0 <= i < |r.fired| ==> r.fired[i] in target && target[r.fired[i]] in r.visited
  {
    hide Resolve;
    VisitedIs(fs, target, visited, reach);
    var r := Resolve(fs, target, visited, reach);
    forall i | 0 <= i < |r.fired| ensures r.fired[i] in target && target[r.fired[i]] in r.visited {
      var f := r.fired[i];
      assert f in r.fired && target[f] in reach(target[f]);
      assert Reached(r.fired, target, reach, target[f]);
    }
  }

  /** Where visiting is deferred, all the finalizers of an unreached object fire, and of no other. */
  lemma {:induction false} AllFirePerObject(fs: seq<Fin>, target: map<Fin, Obj>, visited: set<Obj>, reach: Obj -> set<Obj>)
    requires Deferred(reach)
    ensures var r := Resolve(fs, target, visited, reach);
      && r.visited == visited
      && (forall f :: f in r.fired <==> f in fs && f in target && target[f] !in visited)
      && (forall f :: f in r.kept <==> f in fs && (f !in target || target[f] in visited))
  {
    if fs != [] {
      AllFirePerObject(fs[..|fs| - 1], target, visited, reach);
      assert fs == fs[..|fs| - 1] + [fs[|fs| - 1]];
    }
  }

  /** A large object refers to a small one that nothing else reaches, and each has a finalizer.  Visiting the
      large one marks the other on the spot, so that only one of the two fires, although tracing had reached
      neither. */
  lemma LargeObjectShades(large: Obj, small: Obj, f: Fin, g: Fin, reach: Obj -> set<Obj>)
    requires large != small && f != g && reach(large) == {large, small} && reach(small) == {small}
    ensures var target := map[f := large, g := small];
      && Resolve([f, g], target, {}, reach).fired == [f] && Resolve([f, g], target, {}, reach).kept == [g]
      && Resolve([g, f], target, {}, reach).fired == [g, f]
  {
    var target := map[f := large, g := small];
    assert [f, g][..1] == [f] && [g, f][..1] == [g] && [f][..0] == [] && [g][..0] == [];
    assert Resolve([f], target, {}, reach) == Resolution([], [f], {large, small});
    assert Resolve([g], target, {}, reach) == Resolution([], [g], {small});
  }

  // ---------- The finalizer state of a heap ----------

  /** Pushing finalizers, one by one, on the fired list. */
  function PushAll(list: seq<Fin>, fs: seq<Fin>): (r: seq<Fin>)
    ensures multiset(r) == multiset(list) + multiset(fs)
  {
    if fs == [] then list
    else
      assert fs == fs[..|fs| - 1] + [fs[|fs| - 1]];
      [fs[|fs| - 1]] + PushAll(list, fs[..|fs| - 1])
  }

  function Targets(fs: seq<Fin>, target: map<Fin, Obj>): seq<Obj>
    requires forall f :: f in fs ==> f in target
  {
    seq(|fs|, i requires 0 <= i < |fs| => target[fs[i]])
  }

  /** Each finalizer ever attached is in one table, or has fired and is on the list, or has been popped. */
  ghost predicate StateOk(tables: seq<Table>, fired: seq<Fin>, popped: seq<Fin>, state: map<Fin, FinState>,
                          target: map<Fin, Obj>) {
    && (forall p :: 0 <= p < |tables| ==> TableOk(tables[p]))
    && (forall f :: PlaceOk(tables, fired, popped, state, target, f))
  }

  /** A finalizer that has been attached is in exactly one place, once; any other is nowhere. */
  lemma InExactlyOnePlace(tables: seq<Table>, fired: seq<Fin>, popped: seq<Fin>, state: map<Fin, FinState>,
                          target: map<Fin, Obj>, f: Fin)
    requires StateOk(tables, fired, popped, state, target)
    ensures TablesEntries(tables)[f] + multiset(fired)[f] + multiset(popped)[f] == if f in target then 1 else 0
  {
    hide TableOk;
    assert PlaceOk(tables, fired, popped, state, target, f);
  }

  /** Once fired, fired for good: a later collection leaves it on the list, or popped. */
  lemma FiresOnce(tables: seq<Table>, fired: seq<Fin>, popped: seq<Fin>, state: map<Fin, FinState>,
                  target: map<Fin, Obj>, p: nat, visited: set<Obj>, reach: Obj -> set<Obj>, f: Fin)
    requires StateOk(tables, fired, popped, state, target) && p < |tables| && f in state && state[f] == Fired
    ensures var r := Resolve(Flat(tables[p].buckets), target, visited, reach);
      f !in r.fired && f !in r.kept && f in SetFired(state, r.fired) && SetFired(state, r.fired)[f] == Fired
  {
    hide TableOk, Resolve;
    var order := Flat(tables[p].buckets);
    var r := Resolve(order, target, visited, reach);
    assert PlaceOk(tables, fired, popped, state, target, f);
    EntryInTables(tables, p, f);
    ResolvePartition(order, target, visited, reach);
    assert Entries(tables[p])[f] == multiset(r.kept)[f] + multiset(r.fired)[f];
    SetFiredIs(state, r.fired, f);
  }

  function SetFired(state: map<Fin, FinState>, fs: seq<Fin>): map<Fin, FinState> {
    if fs == [] then state else SetFired(state, fs[..|fs| - 1])[fs[|fs| - 1] := Fired]
  }

  lemma {:induction false} SetFiredIs(state: map<Fin, FinState>, fs: seq<Fin>, f: Fin)
    ensures f in SetFired(state, fs) <==> f in state || f in fs
    ensures f in SetFired(state, fs) ==> SetFired(state, fs)[f] == if f in fs then Fired else state[f]
  {
    if fs != [] {
      SetFiredIs(state, fs[..|fs| - 1], f);
      assert fs == fs[..|fs| - 1] + [fs[|fs| - 1]];
    }
  }

  /** Where one finalizer is. */
  ghost predicate PlaceOk(tables: seq<Table>, fired: seq<Fin>, popped: seq<Fin>, state: map<Fin, FinState>,
                          target: map<Fin, Obj>, f: Fin) {
    && (f in state <==> f in target)
    && TablesEntries(tables)[f] == (if f in state && state[f].Active? then 1 else 0)
    && multiset(fired)[f] + multiset(popped)[f] == (if f in state && state[f].Fired? then 1 else 0)
  }

  lemma AttachedAt(tables: seq<Table>, fired: seq<Fin>, popped: seq<Fin>, state: map<Fin, FinState>,
                   target: map<Fin, Obj>, p: nat, new_: Fin, obj: Obj, f: Fin)
    requires p < |tables| && TableOk(tables[p]) && new_ !in state && PlaceOk(tables, fired, popped, state, target, f)
    ensures PlaceOk(tables[p := AddTo(tables[p], new_)], fired, popped, state[new_ := Active], target[new_ := obj], f)
  {
    AddToEntries(tables[p], new_);
    TablesReplace(tables, p, AddTo(tables[p], new_), f);
  }

  lemma ResolvedAt(tables: seq<Table>, fired: seq<Fin>, popped: seq<Fin>, state: map<Fin, FinState>,
                   target: map<Fin, Obj>, p: nat, visited: set<Obj>, reach: Obj -> set<Obj>, t: Table, f: Fin)
    requires p < |tables| && PlaceOk(tables, fired, popped, state, target, f)
    requires Entries(t) == multiset(Resolve(Flat(tables[p].buckets), target, visited, reach).kept)
    ensures var r := Resolve(Flat(tables[p].buckets), target, visited, reach);
      PlaceOk(tables[p := t], PushAll(fired, r.fired), popped, SetFired(state, r.fired), target, f)
  {
    hide Resolve, TablesEntries, PushAll;
    var order := Flat(tables[p].buckets);
    var r := Resolve(order, target, visited, reach);
    ResolvePartition(order, target, visited, reach);
    TablesReplace(tables, p, t, f);
    SetFiredIs(state, r.fired, f);
    EntryInTables(tables, p, f);
    assert Entries(tables[p])[f] == multiset(r.kept)[f] + multiset(r.fired)[f];
    assert multiset(PushAll(fired, r.fired))[f] == multiset(fired)[f] + multiset(r.fired)[f];
    assert f in r.fired <==> multiset(r.fired)[f] > 0;
  }

  /** How far the rebuilding of a table has come when `prefix` has been dealt with. */
  ghost predicate Progress(target: map<Fin, Obj>, fired: seq<Fin>, state: map<Fin, FinState>, visited0: set<Obj>,
                           reach: Obj -> set<Obj>, prefix: seq<Fin>, scratch: Table, newFired: seq<Fin>, toVisit: seq<Obj>, visited: set<Obj>,
                           st: map<Fin, FinState>) {
    var r := Resolve(prefix, target, visited0, reach);
    && TableOk(scratch) && Entries(scratch) == multiset(r.kept)
    && newFired == PushAll(fired, r.fired) && visited == r.visited && st == SetFired(state, r.fired)
    && (forall f :: f in r.fired ==> f in target) && toVisit == Targets(r.fired, target)
  }

  lemma ProgressKept(target: map<Fin, Obj>, fired: seq<Fin>, state: map<Fin, FinState>, visited0: set<Obj>, reach: Obj -> set<Obj>,
                     prefix: seq<Fin>, scratch: Table, newFired: seq<Fin>, toVisit: seq<Obj>, visited: set<Obj>,
                     st: map<Fin, FinState>, f: Fin)
    requires Progress(target, fired, state, visited0, reach, prefix, scratch, newFired, toVisit, visited, st)
    requires f !in target || target[f] in visited
    ensures Progress(target, fired, state, visited0, reach, prefix + [f], AddTo(scratch, f), newFired, toVisit, visited, st)
  {
    hide PushAll, SetFired, TableOk;
    AddToEntries(scratch, f);
    assert (prefix + [f])[..|prefix|] == prefix;
  }

  lemma ProgressFired(target: map<Fin, Obj>, fired: seq<Fin>, state: map<Fin, FinState>, visited0: set<Obj>, reach: Obj -> set<Obj>,
                      prefix: seq<Fin>, scratch: Table, newFired: seq<Fin>, toVisit: seq<Obj>, visited: set<Obj>,
                      st: map<Fin, FinState>, f: Fin)
    requires Progress(target, fired, state, visited0, reach, prefix, scratch, newFired, toVisit, visited, st)
    requires f in target && target[f] !in visited
    ensures Progress(target, fired, state, visited0, reach, prefix + [f], scratch, [f] + newFired, toVisit + [target[f]],
                     visited + reach(target[f]), st[f := Fired])
  {
    hide TableOk, PushAll, SetFired, Targets;
    assert (prefix + [f])[..|prefix|] == prefix;
    var r := Resolve(prefix, target, visited0, reach);
    assert Resolve(prefix + [f], target, visited0, reach).fired == r.fired + [f];
    FiredOneMore(fired, state, target, r.fired, f);
  }

  lemma FiredOneMore(fired: seq<Fin>, state: map<Fin, FinState>, target: map<Fin, Obj>, fs: seq<Fin>, f: Fin)
    requires f in target && forall g :: g in fs ==> g in target
    ensures PushAll(fired, fs + [f]) == [f] + PushAll(fired, fs)
    ensures SetFired(state, fs + [f]) == SetFired(state, fs)[f := Fired]
    ensures Targets(fs + [f], target) == Targets(fs, target) + [target[f]]
  {
    assert (fs + [f])[..|fs|] == fs;
  }

  lemma ProgressStarts(target: map<Fin, Obj>, fired: seq<Fin>, state: map<Fin, FinState>, visited: set<Obj>, reach: Obj -> set<Obj>)
    ensures Progress(target, fired, state, visited, reach, Flat([]), EmptyTable(), fired, [], visited, state)
  {
    FlatEmpty(EmptyTable().buckets);
  }

  lemma ProgressEnds(target: map<Fin, Obj>, fired: seq<Fin>, state: map<Fin, FinState>, visited0: set<Obj>, reach: Obj -> set<Obj>,
                     order: seq<Fin>, scratch: Table, newFired: seq<Fin>, toVisit: seq<Obj>, visited: set<Obj>,
                     st: map<Fin, FinState>)
    requires Progress(target, fired, state, visited0, reach, order, scratch, newFired, toVisit, visited, st)
    ensures var r := Resolve(order, target, visited0, reach);
      && TableOk(scratch) && Entries(scratch) == multiset(r.kept)
      && newFired == PushAll(fired, r.fired) && st == SetFired(state, r.fired) && visited == r.visited
      && (forall f :: f in r.fired ==> f in target) && toVisit == Targets(r.fired, target) && |toVisit| == |r.fired|
  {
  }

  lemma EmptyTables(ts: seq<Table>)
    requires forall p :: 0 <= p < |ts| ==> ts[p] == EmptyTable()
    ensures TablesEntries(ts) == multiset{} && forall p :: 0 <= p < |ts| ==> TableOk(ts[p])
  {
    FlatEmpty(EmptyTable().buckets);
    if ts != [] { EmptyTables(ts[..|ts| - 1]); }
  }

  class FinalizerState {
    var tables: seq<Table>
    var fired: seq<Fin>
    var state: map<Fin, FinState>
    var target: map<Fin, Obj>
    var firedThisCycle: nat
    ghost var popped: seq<Fin>

    ghost predicate Valid()
      reads this
    {
      StateOk(tables, fired, popped, state, target)
    }

    constructor (priorities: nat)
      ensures Valid() && |tables| == priorities && state == map[] && fired == [] && popped == []
    {
      tables := seq(priorities, _ => EmptyTable());
      fired, state, target, firedThisCycle, popped := [], map[], map[], 0, [];
      new;
      EmptyTables(tables);
    }

    /** gc_finalizer_init_internal and gc_finalizer_attach_internal; `ok` is false where they crash. */
    method Attach(f: Fin, priority: nat, obj: Obj) returns (ok: bool)
      requires Valid() && priority < |tables|
      modifies this
      ensures Valid() && ok == (f !in old(state)) && fired == old(fired) && popped == old(popped)
      ensures ok ==> state == old(state)[f := Active] && target == old(target)[f := obj]
      ensures ok ==> tables == old(tables)[priority := AddTo(old(tables)[priority], f)]
      ensures !ok ==> state == old(state) && target == old(target) && tables == old(tables)
    {
      hide PlaceOk;
      ok := f !in state;
      if ok {
        assert TableOk(tables[priority]);
        AddToEntries(tables[priority], f);
        ghost var tables', state', target' := tables[priority := AddTo(tables[priority], f)], state[f := Active], target[f := obj];
        forall g ensures PlaceOk(tables', fired, popped, state', target', g) {
          assert PlaceOk(tables, fired, popped, state, target, g);
          AttachedAt(tables, fired, popped, state, target, priority, f, obj, g);
        }
        state, target := state[f := Active], target[f := obj];
        tables := tables[priority := AddTo(tables[priority], f)];
      }
    }

    /** gc_finalizer_state_pop */
    method Pop() returns (f: Fin, some: bool)
      requires Valid()
      modifies this
      ensures Valid() && state == old(state) && target == old(target) && tables == old(tables)
      ensures some == (old(fired) != [])
      ensures some ==> old(fired) == [f] + fired && popped == old(popped) + [f] && f in state && state[f] == Fired
      ensures !some ==> fired == old(fired) && popped == old(popped)
    {
      f, some := 0, fired != [];
      if some {
        f := fired[0];
        assert fired == [f] + fired[1..];
        assert PlaceOk(tables, fired, popped, state, target, f);
        assert multiset(fired)[f] > 0;
        forall g ensures PlaceOk(tables, fired[1..], popped + [f], state, target, g) {
          assert PlaceOk(tables, fired, popped, state, target, g);
        }
        fired := fired[1..];
        popped := popped + [f];
      }
    }

    /** gc_resolve_finalizers: rebuild one table.  `toVisit` lists the objects it visits, in order. */
    method ResolveTable(priority: nat, visited0: set<Obj>, reach: Obj -> set<Obj>) returns (toVisit: seq<Obj>)
      requires Valid() && priority < |tables|
      modifies this
      ensures Valid() && target == old(target) && popped == old(popped) && |tables| == |old(tables)|
      ensures var r := Resolve(Flat(old(tables)[priority].buckets), target, visited0, reach);
        && fired == PushAll(old(fired), r.fired) && state == SetFired(old(state), r.fired)
        && Entries(tables[priority]) == multiset(r.kept)
        && (forall f :: f in r.fired ==> f in target) && toVisit == Targets(r.fired, target)
        && firedThisCycle == old(firedThisCycle) + |r.fired|
      ensures forall p :: 0 <= p < |tables| && p != priority ==> tables[p] == old(tables)[p]
    {
      hide Resolve, PlaceOk, Progress, SetFired, PushAll, Flat, TablesEntries, Entries, Targets;
      var buckets := tables[priority].buckets;
      var scratch, newFired, visited, st := EmptyTable(), fired, visited0, state;
      toVisit := [];
      ProgressStarts(target, fired, state, visited0, reach);
      assert buckets[..0] == [];
      assert TableOk(tables[priority]);
      var b := 0;
      while b < BucketCount
        invariant b <= BucketCount == |buckets|
        invariant Progress(target, fired, state, visited0, reach, Flat(buckets[..b]), scratch, newFired, toVisit, visited, st)
        invariant |scratch.buckets| == BucketCount
        modifies {}
      {
        var i := 0;
        ghost var before := Flat(buckets[..b]);
        assert before + buckets[b][..0] == before;
        while i < |buckets[b]|
          invariant i <= |buckets[b]|
          invariant Progress(target, fired, state, visited0, reach, before + buckets[b][..i], scratch, newFired, toVisit,
                             visited, st)
          invariant |scratch.buckets| == BucketCount
          modifies {}
        {
          var f := buckets[b][i];
          ghost var prefix := before + buckets[b][..i];
          assert before + buckets[b][..i + 1] == prefix + [f];
          if f !in target || target[f] in visited {
            ProgressKept(target, fired, state, visited0, reach, prefix, scratch, newFired, toVisit, visited, st, f);
            scratch := AddTo(scratch, f);
          } else {
            ProgressFired(target, fired, state, visited0, reach, prefix, scratch, newFired, toVisit, visited, st, f);
            toVisit := toVisit + [target[f]];
            newFired := [f] + newFired;
            visited := visited + reach(target[f]);
            st := st[f := Fired];
          }
          i := i + 1;
        }
        assert buckets[b][..i] == buckets[b];
        FlatNext(buckets, b);
        b := b + 1;
      }
      assert buckets[..b] == buckets;
      Commit(priority, scratch, newFired, st, toVisit, visited0, reach, visited);
    }

    /** The end of gc_resolve_finalizers: the rebuilt table takes the place of the old one. */
    method Commit(priority: nat, scratch: Table, newFired: seq<Fin>, st: map<Fin, FinState>, toVisit: seq<Obj>,
                  ghost visited0: set<Obj>, ghost reach: Obj -> set<Obj>, ghost visited: set<Obj>)
      requires Valid() && priority < |tables|
      requires Progress(target, fired, state, visited0, reach, Flat(tables[priority].buckets), scratch, newFired, toVisit,
                        visited, st)
      modifies this
      ensures Valid() && target == old(target) && popped == old(popped) && tables == old(tables)[priority := scratch]
      ensures var r := Resolve(Flat(old(tables)[priority].buckets), target, visited0, reach);
        && fired == PushAll(old(fired), r.fired) && state == SetFired(old(state), r.fired)
        && Entries(tables[priority]) == multiset(r.kept)
        && (forall f :: f in r.fired ==> f in target) && toVisit == Targets(r.fired, target)
        && firedThisCycle == old(firedThisCycle) + |r.fired|
    {
      hide Resolve, PlaceOk, Progress, SetFired, PushAll, Flat, TablesEntries, Entries, Targets;
      ProgressEnds(target, fired, state, visited0, reach, Flat(tables[priority].buckets), scratch, newFired, toVisit, visited,
                   st);
      ghost var tables' := tables[priority := scratch];
      forall f ensures PlaceOk(tables', newFired, popped, st, target, f) {
        assert PlaceOk(tables, fired, popped, state, target, f);
        ResolvedAt(tables, fired, popped, state, target, priority, visited0, reach, scratch, f);
      }
      firedThisCycle := firedThisCycle + |toVisit|;
      tables, fired, state := tables[priority := scratch], newFired, st;
    }
  }
}
