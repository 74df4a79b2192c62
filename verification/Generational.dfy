/**
  The generational scheme of src/mmc.c: sticky mark bits, a write barrier that logs fields of old
  objects, and minor collections from the roots and the logged fields.

  An object's mark says what it is: young, or with the mark of the last collection, a survivor.
  A minor collection leaves survivors marked and so does not look into them; a major one first
  moves on to the next of three marks.  What does not survive stays in memory with its stale
  mark until it is swept, some time before the next collection.
*/
module Generational {

  import opened FieldSet

  type Obj = nat

  datatype Value = Null | Ref(o: Obj)

  const Young: nat := 1  // NOFL_METADATA_BYTE_YOUNG

  predicate IsMark(m: nat) {
    2 <= m <= 4
  }

  /** nofl_advance_current_mark */
  function AdvanceMark(m: nat): nat
    requires IsMark(m)
  {
    if m == 2 then 3 else if m == 3 then 4 else 2
  }

  /** The heap between collections. */
  datatype Heap = Heap(
    mark: map<Obj, nat>, fields: map<Obj, seq<Value>>,
    roots: set<Obj>,            // what mutators hold
    survivor: nat,              // survivor_mark
    logged: set<Edge>,          // logged bits
    newborn: set<Obj>)          // allocated since the last collection

  predicate IsOld(h: Heap, o: Obj) {
    o in h.mark && h.mark[o] == h.survivor
  }

  /** Not garbage left over for the sweeper. */
  predicate Kept(h: Heap, o: Obj) {
    IsOld(h, o) || (o in h.mark && o in h.newborn)
  }

  function Target(fields: map<Obj, seq<Value>>, o: Obj, f: nat): Value {
    if o in fields && f < |fields[o]| then fields[o][f] else Null
  }

  ghost predicate Closed(fields: map<Obj, seq<Value>>, c: set<Obj>) {
    forall o, f: nat :: o in c && Target(fields, o, f).Ref? ==> Target(fields, o, f).o in c
  }

  ghost predicate Reachable(h: Heap, o: Obj) {
    forall c :: h.roots <= c && Closed(h.fields, c) ==> o in c
  }

  /** In every set that holds the base and the roots and is closed under fields. */
  ghost predicate Needed(h: Heap, base: set<Obj>, o: Obj) {
    forall c :: base <= c && h.roots <= c && Closed(h.fields, c) ==> o in c
  }

  /** An old object never holds a young one without the field being logged. */
  ghost predicate Remembered(h: Heap, o: Obj, f: nat) {
    IsOld(h, o) && Target(h.fields, o, f).Ref? && Target(h.fields, o, f).o in h.newborn ==> Edge(o, f) in h.logged
  }

  ghost predicate FieldOk(h: Heap, o: Obj, f: nat) {
    Kept(h, o) && Target(h.fields, o, f).Ref? ==> Kept(h, Target(h.fields, o, f).o)
  }

  ghost predicate HeapOk(h: Heap) {
    && IsMark(h.survivor) && h.mark.Keys == h.fields.Keys
    && (forall o :: o in h.newborn ==> o in h.mark && h.mark[o] == Young)
    && (forall o :: o in h.roots ==> Kept(h, o))
    && (forall o, f: nat :: FieldOk(h, o, f))
    && (forall o, f: nat :: Remembered(h, o, f))
    && (forall e :: e in h.logged ==> IsOld(h, e.obj) && e.field < |h.fields[e.obj]|)
  }

  /** Nothing that a mutator can get at is left to the sweeper. */
  lemma ReachableKept(h: Heap, o: Obj)
    requires HeapOk(h) && Reachable(h, o)
    ensures Kept(h, o)
  {
    var c := set x | x in h.mark && Kept(h, x);
    assert Closed(h.fields, c) by {
      forall x, f: nat | x in c && Target(h.fields, x, f).Ref? ensures Target(h.fields, x, f).o in c { assert FieldOk(h, x, f); }
    }
  }

  // ---------- The barrier ----------

  /** gc_write_barrier_fast: the object is old, and the field's logged bit is clear. */
  predicate BarrierFast(h: Heap, o: Obj, f: nat) {
    o in h.mark && h.mark[o] != Young && Edge(o, f) !in h.logged
  }

  /** Whether gc_write_barrier_slow adds the field to the remembered set. */
  predicate BarrierSlowRemembers(h: Heap, o: Obj, f: nat, v: Obj) {
    !IsOld(h, v) && IsOld(h, o) && Edge(o, f) !in h.logged
  }

  /** The fast path lets the slow one off just when it would have had nothing to do. */
  lemma FastPathAgrees(h: Heap, o: Obj, f: nat, v: Obj)
    requires HeapOk(h) && Kept(h, o) && Kept(h, v)
    ensures BarrierFast(h, o, f) && !IsOld(h, v) <==> BarrierSlowRemembers(h, o, f, v)
  {
  }

  // ---------- The mutator's changes to the heap ----------

  function Stored(h: Heap, o: Obj, f: nat, v: Value): Heap
    requires o in h.fields && f < |h.fields[o]|
  {
    var h1 := if v.Ref? && BarrierFast(h, o, f) && BarrierSlowRemembers(h, o, f, v.o)
              then h.(logged := h.logged + {Edge(o, f)}) else h;
    h1.(fields := h.fields[o := h.fields[o][f := v]])
  }

  lemma StoreKeeps(h: Heap, o: Obj, f: nat, v: Value)
    requires HeapOk(h) && o in h.roots && o in h.fields && f < |h.fields[o]| && (v.Ref? ==> v.o in h.roots)
    ensures HeapOk(Stored(h, o, f, v))
  {
    var h' := Stored(h, o, f, v);
    assert Kept(h, o) && (v.Ref? ==> Kept(h, v.o));
    forall x, g: nat ensures FieldOk(h', x, g) && Remembered(h', x, g) {
      assert FieldOk(h, x, g) && Remembered(h, x, g);
      assert Target(h'.fields, x, g) == if x == o && g == f then v else Target(h.fields, x, g);
    }
  }

  function Allocated(h: Heap, o: Obj, n: nat): Heap {
    h.(mark := h.mark[o := Young], fields := h.fields[o := seq(n, _ => Null)],
       newborn := h.newborn + {o}, roots := h.roots + {o})
  }

  lemma AllocKeeps(h: Heap, o: Obj, n: nat)
    requires HeapOk(h) && o !in h.mark
    ensures HeapOk(Allocated(h, o, n))
  {
    var h' := Allocated(h, o, n);
    forall x, g: nat ensures FieldOk(h', x, g) && Remembered(h', x, g) {
      assert FieldOk(h, x, g) && Remembered(h, x, g);
    }
  }

  /** Sweeping one dead object. */
  function Swept(h: Heap, o: Obj): Heap {
    h.(mark := h.mark - {o}, fields := h.fields - {o})
  }

  lemma SweepKeeps(h: Heap, o: Obj)
    requires HeapOk(h) && !Kept(h, o)
    ensures HeapOk(Swept(h, o))
  {
    var h' := Swept(h, o);
    forall x, g: nat ensures FieldOk(h', x, g) && Remembered(h', x, g) {
      assert FieldOk(h, x, g) && Remembered(h, x, g);
    }
  }

  // ---------- Collections ----------

  /** The heap when sweeping has finished. */
  ghost predicate AllKept(h: Heap) {
    HeapOk(h) && forall o :: o in h.mark ==> Kept(h, o)
  }

  /** `marks` is what tracing has reached, with `work` still to scan; a survivor of an earlier
      collection may yet hold an unmarked object through a logged field not in `done`. */
  ghost predicate Traced(h: Heap, base: set<Obj>, marks: set<Obj>, work: seq<Obj>, done: set<Edge>) {
    && marks <= h.mark.Keys && base <= marks
    && (forall o :: o in work ==> o in marks)
    && (forall o, f: nat :: o in marks && o !in work && Target(h.fields, o, f).Ref? ==>
          Target(h.fields, o, f).o in marks || (o in base && Edge(o, f) in h.logged && Edge(o, f) !in done))
    && (forall c :: base <= c && h.roots <= c && Closed(h.fields, c) ==> marks <= c)
  }

  lemma ShadeKeeps(h: Heap, base: set<Obj>, marks: set<Obj>, work: seq<Obj>, done: set<Edge>, v: Obj)
    requires Traced(h, base, marks, work, done) && v in h.mark && v !in marks
    requires forall c :: base <= c && h.roots <= c && Closed(h.fields, c) ==> v in c
    ensures Traced(h, base, marks + {v}, work + [v], done)
  {
  }

  /** When every logged field has been visited and the work is done, what is marked is closed. */
  lemma TraceEnds(h: Heap, base: set<Obj>, marks: set<Obj>)
    requires Traced(h, base, marks, [], h.logged) && h.roots <= marks
    ensures Closed(h.fields, marks) && forall o :: Reachable(h, o) ==> o in marks
  {
    forall o, f: nat | o in marks && Target(h.fields, o, f).Ref? ensures Target(h.fields, o, f).o in marks {}
  }

  /** What a collection leaves: survivors with the mark `m`, the rest as garbage with the mark it had. */
  function Collected(h: Heap, m: nat, marks: set<Obj>): Heap {
    h.(mark := map o | o in h.mark :: if o in marks then m else h.mark[o], survivor := m, logged := {}, newborn := {})
  }

  lemma CollectedOk(h: Heap, m: nat, marks: set<Obj>)
    requires AllKept(h) && IsMark(m) && marks <= h.mark.Keys && h.roots <= marks && Closed(h.fields, marks)
    requires NoneElse(h, m, marks)
    ensures HeapOk(Collected(h, m, marks))
    ensures forall o :: IsOld(Collected(h, m, marks), o) <==> o in marks
  {
    var h' := Collected(h, m, marks);
    forall o, f: nat ensures FieldOk(h', o, f) {}
  }

  /** A major collection begins with no object carrying the mark it is about to use. */
  lemma FreshMark(h: Heap, o: Obj)
    requires AllKept(h) && o in h.mark
    ensures h.mark[o] != AdvanceMark(h.survivor)
  {
    assert Kept(h, o);
  }

  /** Which is why sweeping has to finish in between: after three collections the marks come round, and
      with an object that was left unswept, say, the new mark would be one that is already there. */
  lemma MarksComeRound(m: nat)
    requires IsMark(m)
    ensures var m1 := AdvanceMark(m); var m2 := AdvanceMark(m1);
      IsMark(m1) && IsMark(m2) && m1 != m && m2 != m && m2 != m1 && AdvanceMark(m2) == m
  {
  }

  /** When the sweepers are done. */
  function SweptAll(h: Heap): Heap {
    var kept := map o | o in h.mark && Kept(h, o) :: h.mark[o];
    h.(mark := kept, fields := map o | o in h.fields && o in kept :: h.fields[o])
  }

  lemma SweepAllKeeps(h: Heap)
    requires HeapOk(h)
    ensures AllKept(SweptAll(h))
    ensures forall o :: o in SweptAll(h).mark ==> SweptAll(h).fields[o] == h.fields[o]
  {
    var h' := SweptAll(h);
    forall x, g: nat ensures FieldOk(h', x, g) && Remembered(h', x, g) { assert FieldOk(h, x, g) && Remembered(h, x, g); }
  }

  lemma SweptAllIs(h: Heap)
    ensures SweptAll(h).mark == map o | o in h.mark && (h.mark[o] == h.survivor || o in h.newborn) :: h.mark[o]
    ensures SweptAll(h) == h.(mark := SweptAll(h).mark, fields := SweptAll(h).fields)
  {
  }

  /** Sweeping changes nothing that can be reached, from the roots or from kept objects. */
  lemma SweepAllReaches(h: Heap, base: set<Obj>, o: Obj)
    requires HeapOk(h) && forall x :: x in base ==> Kept(h, x)
    ensures Needed(h, base, o) <==> Needed(SweptAll(h), base, o)
  {
    var h' := SweptAll(h);
    if Needed(h, base, o) {
      forall c | base <= c && h'.roots <= c && Closed(h'.fields, c) ensures o in c {
        var d := set x | x in c && x in h.mark && Kept(h, x);
        assert Closed(h.fields, d) by {
          forall x, f: nat | x in d && Target(h.fields, x, f).Ref? ensures Target(h.fields, x, f).o in d {
            assert FieldOk(h, x, f) && Target(h'.fields, x, f) == Target(h.fields, x, f);
          }
        }
        assert o in d;
      }
    }
    if Needed(h', base, o) {
      forall c | base <= c && h.roots <= c && Closed(h.fields, c) ensures o in c {
        assert Closed(h'.fields, c) by {
          forall x, f: nat | x in c && Target(h'.fields, x, f).Ref? ensures Target(h'.fields, x, f).o in c {
            assert Target(h'.fields, x, f) == Target(h.fields, x, f);
          }
        }
      }
    }
  }

  /** Where tracing starts from: nothing in a major collection, the survivors in a minor one. */
  function Base(h: Heap, minor: bool): set<Obj> {
    if minor then set o | o in h.mark && IsOld(h, o) else {}
  }

  lemma TraceStarts(h: Heap, minor: bool)
    requires AllKept(h)
    ensures Traced(h, Base(h, minor), Base(h, minor), [], {})
  {
    var base := Base(h, minor);
    forall o, f: nat | o in base && Target(h.fields, o, f).Ref?
      ensures Target(h.fields, o, f).o in base || Edge(o, f) in h.logged
    {
      assert FieldOk(h, o, f) && Remembered(h, o, f);
    }
  }

  /** What is marked with `m` so far. */
  ghost predicate MarksAre(h: Heap, mark: map<Obj, nat>, m: nat, marks: set<Obj>) {
    mark.Keys == h.mark.Keys && forall o :: o in mark ==> mark[o] == if o in marks then m else h.mark[o]
  }

  ghost predicate NoneElse(h: Heap, m: nat, marks: set<Obj>) {
    forall o :: o in h.mark && h.mark[o] == m ==> o in marks
  }

  lemma EdgeVisited(h: Heap, base: set<Obj>, marks: set<Obj>, work: seq<Obj>, done: set<Edge>, e: Edge)
    requires Traced(h, base, marks, work, done)
    requires Target(h.fields, e.obj, e.field).Ref? ==> Target(h.fields, e.obj, e.field).o in marks
    ensures Traced(h, base, marks, work, done + {e})
  {
  }

  lemma ObjectScanned(h: Heap, base: set<Obj>, marks: set<Obj>, work: seq<Obj>, o: Obj, done: set<Edge>)
    requires Traced(h, base, marks, work + [o], done) || (Traced(h, base, marks, [o] + work, done))
    requires forall f: nat :: Target(h.fields, o, f).Ref? ==> Target(h.fields, o, f).o in marks
    ensures Traced(h, base, marks, work, done)
  {
  }

  lemma FieldNeeded(h: Heap, base: set<Obj>, marks: set<Obj>, work: seq<Obj>, done: set<Edge>, o: Obj, f: nat)
    requires Traced(h, base, marks, work, done) && o in marks && Target(h.fields, o, f).Ref?
    ensures forall c :: base <= c && h.roots <= c && Closed(h.fields, c) ==> Target(h.fields, o, f).o in c
  {
    forall c | base <= c && h.roots <= c && Closed(h.fields, c) ensures Target(h.fields, o, f).o in c { assert o in c; }
  }

  lemma TargetKept(h: Heap, o: Obj, f: nat)
    requires AllKept(h) && o in h.mark && Target(h.fields, o, f).Ref?
    ensures Target(h.fields, o, f).o in h.mark
  {
    assert FieldOk(h, o, f);
  }

  lemma RootInHeap(h: Heap, o: Obj)
    requires HeapOk(h) && o in h.roots
    ensures o in h.mark && o in h.fields
  {
    assert Kept(h, o);
  }

  class GenerationalHeap {
    var mark: map<Obj, nat>
    var fields: map<Obj, seq<Value>>
    var roots: set<Obj>
    var survivor: nat
    var logged: set<Edge>
    const remembered: RememberedSet
    var newborn: set<Obj>       // the objects behind the allocators' sweep pointers

    ghost function View(): Heap
      reads this
    {
      Heap(mark, fields, roots, survivor, logged, newborn)
    }

    /** The remembered set holds each logged field once. */
    ghost predicate Valid()
      reads this, remembered
    {
      && HeapOk(View()) && remembered.Valid()
      && forall e :: remembered.Contents()[e] == if e in logged then 1 else 0
    }

    constructor (mutators: nat)
      ensures Valid() && mark == map[] && roots == {} && fresh(remembered) && |remembered.writers| == mutators
    {
      remembered := new RememberedSet(mutators);
      mark, fields, roots, survivor, logged, newborn := map[], map[], {}, 2, {}, {};
    }

    method Allocate(o: Obj, n: nat)
      requires Valid() && o !in mark
      modifies this
      ensures Valid() && View() == Allocated(old(View()), o, n)
    {
      AllocKeeps(View(), o, n);
      mark, fields, newborn, roots := mark[o := Young], fields[o := seq(n, _ => Null)], newborn + {o}, roots + {o};
    }

    /** A mutator reads a field into a root. */
    method Load(o: Obj, f: nat) returns (v: Value)
      requires Valid() && o in roots && o in fields && f < |fields[o]|
      modifies this
      ensures Valid() && v == old(fields)[o][f]
      ensures View() == old(View()).(roots := if v.Ref? then old(roots) + {v.o} else old(roots))
    {
      v := fields[o][f];
      assert FieldOk(View(), o, f);
      if v.Ref? {
        ghost var h, h' := View(), View().(roots := roots + {v.o});
        forall x, g: nat ensures FieldOk(h', x, g) && Remembered(h', x, g) { assert FieldOk(h, x, g) && Remembered(h, x, g); }
        roots := roots + {v.o};
      }
    }

    method Drop(o: Obj)
      requires Valid()
      modifies this
      ensures Valid() && View() == old(View()).(roots := old(roots) - {o})
    {
      ghost var h, h' := View(), View().(roots := roots - {o});
      forall x, g: nat ensures FieldOk(h', x, g) && Remembered(h', x, g) { assert FieldOk(h, x, g) && Remembered(h, x, g); }
      roots := roots - {o};
    }

    /** gc_write_barrier */
    method WriteBarrier(w: nat, o: Obj, f: nat, v: Obj)
      requires Valid() && o in mark && v in mark && w < |remembered.writers|
      modifies this`logged, remembered
      ensures logged == old(logged) + (if BarrierFast(old(View()), o, f) && BarrierSlowRemembers(old(View()), o, f, v)
                                       then {Edge(o, f)} else {})
      ensures remembered.Valid() && |remembered.writers| == |old(remembered.writers)|
      ensures forall e :: remembered.Contents()[e] == if e in logged then 1 else 0
    {
      hide HeapOk, Sum, AllHeld;
      if mark[o] != Young && Edge(o, f) !in logged {       // the fast path
        if mark[v] != survivor && mark[o] == survivor {    // the slow one
          logged := logged + {Edge(o, f)};
          remembered.AddEdge(w, Edge(o, f));
        }
      }
    }

    /** A store, with its barrier. */
    method Store(w: nat, o: Obj, f: nat, v: Value)
      requires Valid() && o in roots && o in fields && f < |fields[o]| && (v.Ref? ==> v.o in roots) && w < |remembered.writers|
      modifies this, remembered
      ensures Valid() && View() == Stored(old(View()), o, f, v) && |remembered.writers| == |old(remembered.writers)|
    {
      hide HeapOk, Sum, AllHeld, BarrierFast, BarrierSlowRemembers, RememberedSet.Contents;
      ghost var h := View();
      StoreKeeps(h, o, f, v);
      RootInHeap(h, o);
      if v.Ref? {
        RootInHeap(h, v.o);
        WriteBarrier(w, o, f, v.o);
        assert h.logged + {} == h.logged;
      }
      fields := fields[o := fields[o][f := v]];
      assert View() == Stored(h, o, f, v);
    }

    /** Lazy sweeping reclaims a dead object. */
    method Sweep(o: Obj)
      requires Valid() && o in mark && mark[o] != survivor && o !in newborn
      modifies this
      ensures Valid() && View() == Swept(old(View()), o) && !Reachable(old(View()), o)
    {
      if Reachable(View(), o) { ReachableKept(View(), o); }
      SweepKeeps(View(), o);
      mark, fields := mark - {o}, fields - {o};
    }

    /** Mark an object if it is not marked, and queue it for scanning. */
    method Shade(ghost h: Heap, ghost base: set<Obj>, m: nat, ghost marks: set<Obj>, work: seq<Obj>, ghost done: set<Edge>, v: Obj)
      returns (ghost marks': set<Obj>, work': seq<Obj>)
      requires Traced(h, base, marks, work, done) && MarksAre(h, mark, m, marks) && NoneElse(h, m, marks) && v in h.mark
      requires forall c :: base <= c && h.roots <= c && Closed(h.fields, c) ==> v in c
      modifies this`mark
      ensures Traced(h, base, marks', work', done) && MarksAre(h, mark, m, marks') && NoneElse(h, m, marks')
      ensures marks' == marks + {v} && work <= work' && (work' == work || v !in marks)
      ensures forall o :: o in work' ==> o in work || o == v
    {
      hide Traced;
      marks', work' := marks, work;
      if mark[v] != m {
        ShadeKeeps(h, base, marks, work, done, v);
        mark := mark[v := m];
        marks', work' := marks + {v}, work + [v];
      } else {
        assert marks + {v} == marks;
      }
    }

    /** The mutators' roots. */
    method ShadeRoots(ghost h: Heap, ghost base: set<Obj>, m: nat) returns (ghost marks: set<Obj>, work: seq<Obj>)
      requires AllKept(h) && roots == h.roots
      requires Traced(h, base, base, [], {}) && MarksAre(h, mark, m, base) && NoneElse(h, m, base)
      modifies this`mark
      ensures Traced(h, base, marks, work, {}) && MarksAre(h, mark, m, marks) && NoneElse(h, m, marks) && h.roots <= marks
    {
      hide Traced;
      marks, work := base, [];
      var rest := roots;
      while rest != {}
        invariant rest <= roots == h.roots && h.roots - rest <= marks
        invariant Traced(h, base, marks, work, {}) && MarksAre(h, mark, m, marks) && NoneElse(h, m, marks)
        decreases rest
      {
        var r :| r in rest;
        RootInHeap(h, r);
        marks, work := Shade(h, base, m, marks, work, {}, r);
        rest := rest - {r};
      }
    }

    /** gc_field_set_visit_edge_buffer with trace_remembered_edge, which keeps every edge. */
    method ShadeBuffer(ghost h: Heap, ghost base: set<Obj>, m: nat, ghost marks0: set<Obj>, work0: seq<Obj>, ghost done0: set<Edge>,
                       buf: Buffer)
      returns (ghost marks: set<Obj>, work: seq<Obj>, ghost done: set<Edge>)
      requires AllKept(h) && fields == h.fields && base == Base(h, true) && forall e :: e in buf ==> e in h.logged
      requires Traced(h, base, marks0, work0, done0) && MarksAre(h, mark, m, marks0) && NoneElse(h, m, marks0)
      requires remembered.Valid() && |buf| <= Capacity
      modifies this`mark, remembered
      ensures Traced(h, base, marks, work, done) && MarksAre(h, mark, m, marks) && NoneElse(h, m, marks)
      ensures marks0 <= marks && done == done0 + (set e | e in buf)
      ensures remembered.Valid() && remembered.writers == old(remembered.writers)
      ensures remembered.Contents() == old(remembered.Contents()) + multiset(buf)
    {
      hide Traced, Sum, AllHeld, MarksAre, NoneElse, AllKept;
      marks, work, done := marks0, work0, done0;
      var i := 0;
      while i < |buf|
        invariant i <= |buf| && marks0 <= marks && done == done0 + (set e | e in buf[..i])
        invariant Traced(h, base, marks, work, done) && MarksAre(h, mark, m, marks) && NoneElse(h, m, marks)
        modifies this`mark
      {
        var e := buf[i];
        LoggedIsField(h, e);
        var v := fields[e.obj][e.field];
        if v.Ref? {
          TargetKept(h, e.obj, e.field);
          BaseMarked(h, base, marks, work, done, e.obj);
          FieldNeeded(h, base, marks, work, done, e.obj, e.field);
          marks, work := Shade(h, base, m, marks, work, done, v.o);
        }
        EdgeVisited(h, base, marks, work, done, e);
        done := done + {e};
        assert buf[..i + 1] == buf[..i] + [e];
        i := i + 1;
      }
      assert buf[..i] == buf;
      remembered.VisitBuffer(buf, (e: Edge) => true);
    }

    /** gc_field_set_add_roots, and the tracing of what it adds. */
    method ShadeRemembered(ghost h: Heap, ghost base: set<Obj>, m: nat, ghost marks0: set<Obj>, work0: seq<Obj>)
      returns (ghost marks: set<Obj>, work: seq<Obj>)
      requires AllKept(h) && fields == h.fields && base == Base(h, true)
      requires Traced(h, base, marks0, work0, {}) && MarksAre(h, mark, m, marks0) && NoneElse(h, m, marks0)
      requires remembered.Valid() && (forall i :: 0 <= i < |remembered.writers| ==> remembered.writers[i].NoBuffer?)
      requires forall e :: remembered.Contents()[e] == if e in h.logged then 1 else 0
      modifies this`mark, remembered
      ensures Traced(h, base, marks, work, h.logged) && MarksAre(h, mark, m, marks) && NoneElse(h, m, marks) && marks0 <= marks
      ensures remembered.Valid() && remembered.Contents() == old(remembered.Contents())
      ensures remembered.writers == old(remembered.writers)
    {
      hide Traced, Sum, AllHeld, MarksAre, NoneElse, Base, AllKept;
      marks, work := marks0, work0;
      ghost var done: set<Edge> := {};
      NothingHeld(remembered.writers);
      SumEmpty();
      var buffers := remembered.AddRoots();
      assert buffers[..0] == [];
      var i := 0;
      while i < |buffers|
        invariant i <= |buffers| && marks0 <= marks && done == (set e | e in Sum(buffers[..i]))
        invariant Traced(h, base, marks, work, done) && MarksAre(h, mark, m, marks) && NoneElse(h, m, marks)
        invariant remembered.Valid() && remembered.Contents() == Sum(buffers[..i]) && remembered.writers == old(remembered.writers)
      {
        BufferInSum(buffers, i);
        marks, work, done := ShadeBuffer(h, base, m, marks, work, done, buffers[i]);
        i := i + 1;
      }
      assert buffers[..i] == buffers;
      assert done == h.logged;
    }

    /** The tracer's loop. */
    method ScanWork(ghost h: Heap, ghost base: set<Obj>, m: nat, ghost marks0: set<Obj>, work0: seq<Obj>) returns (ghost marks: set<Obj>)
      requires AllKept(h) && fields == h.fields
      requires Traced(h, base, marks0, work0, h.logged) && MarksAre(h, mark, m, marks0) && NoneElse(h, m, marks0)
      modifies this`mark
      ensures Traced(h, base, marks, [], h.logged) && MarksAre(h, mark, m, marks) && marks0 <= marks
    {
      hide Traced;
      marks := marks0;
      var work := work0;
      while work != []
        invariant Traced(h, base, marks, work, h.logged) && MarksAre(h, mark, m, marks) && NoneElse(h, m, marks) && marks0 <= marks
        decreases h.mark.Keys - marks, |work|
      {
        ghost var before, list := marks, work;
        var o := work[0];
        WorkMarked(h, base, marks, work, h.logged, o);
        var f := 0;
        while f < |fields[o]|
          invariant f <= |fields[o]| && list <= work && before <= marks && (marks == before ==> work == list)
          invariant Traced(h, base, marks, work, h.logged) && MarksAre(h, mark, m, marks) && NoneElse(h, m, marks)
          invariant forall g: nat :: g < f && Target(h.fields, o, g).Ref? ==> Target(h.fields, o, g).o in marks
        {
          var v := fields[o][f];
          if v.Ref? {
            TargetKept(h, o, f);
            WorkMarked(h, base, marks, work, h.logged, o);
            FieldNeeded(h, base, marks, work, h.logged, o, f);
            ghost var marks1 := marks;
            marks, work := Shade(h, base, m, marks, work, h.logged, v.o);
            assert marks == before ==> marks1 == before;
          }
          f := f + 1;
        }
        assert work == [o] + work[1..];
        ObjectScanned(h, base, marks, work[1..], o, h.logged);
        work := work[1..];
        MarksInHeap(h, base, marks, work, h.logged);
      }
    }

    /** The sweepers' work that is left, done before a collection. */
    method FinishSweeping()
      requires Valid()
      modifies this`mark, this`fields
      ensures Valid() && View() == SweptAll(old(View())) && AllKept(View())
    {
      hide HeapOk, RememberedSet.Contents;
      ghost var h := View();
      SweepAllKeeps(h);
      SweptAllIs(h);
      mark := map o | o in mark && (mark[o] == survivor || o in newborn) :: mark[o];
      fields := map o | o in fields && o in mark :: fields[o];
      assert View() == SweptAll(h);
    }

    /** The tracing of a collection. */
    method Trace(ghost h: Heap, m: nat, minor: bool) returns (ghost marks: set<Obj>)
      requires AllKept(h) && View() == h && m == if minor then h.survivor else AdvanceMark(h.survivor)
      requires remembered.Valid() && (forall i :: 0 <= i < |remembered.writers| ==> remembered.writers[i].NoBuffer?)
      requires forall e :: remembered.Contents()[e] == if e in h.logged then 1 else 0
      modifies this`mark, remembered
      ensures MarksAre(h, mark, m, marks) && NoneElse(h, m, marks) && h.roots <= marks <= h.mark.Keys && Closed(h.fields, marks)
      ensures forall o :: o in marks <==> Needed(h, Base(h, minor), o)
      ensures remembered.Valid() && remembered.Contents() == old(remembered.Contents()) && remembered.writers == old(remembered.writers)
    {
      hide Traced, Sum, AllHeld, HeapOk, Closed, Reachable, MarksAre, NoneElse, Base, Kept, Needed;
      ghost var base := Base(h, minor);
      TraceStarts(h, minor);
      StartMarks(h, minor, m);
      var work: seq<Obj>;
      marks, work := ShadeRoots(h, base, m);
      if minor {
        marks, work := ShadeRemembered(h, base, m, marks, work);
      } else {
        MajorIgnores(h, marks, work);
      }
      marks := ScanWork(h, base, m, marks, work);
      TraceEnds(h, base, marks);
      MarksInHeap(h, base, marks, [], h.logged);
      NoneElseLater(h, m, base, marks);
      forall o ensures o in marks <==> Needed(h, base, o) { MarksAreNeeded(h, base, marks, o); }
    }

    /** collect.  Nothing that can be reached is lost, and afterwards nothing reachable is young, no field
        is logged and the remembered set is empty.  What is kept is exactly what the roots, and in a minor
        collection the old survivors, lead to. */
    method Collect(minor: bool)
      requires Valid()
      modifies this, remembered
      ensures Valid() && roots == old(roots) && newborn == {} && logged == {} && remembered.Contents() == multiset{}
      ensures survivor == if minor then old(survivor) else AdvanceMark(old(survivor))
      ensures forall o :: Reachable(old(View()), o) ==> IsOld(View(), o) && o in fields && o in old(fields) && fields[o] == old(fields)[o]
      ensures forall o :: IsOld(View(), o) <==> Needed(old(View()), Base(old(View()), minor), o)
      ensures !minor ==> forall o :: IsOld(View(), o) <==> Reachable(old(View()), o)
      ensures |remembered.writers| == |old(remembered.writers)|
    {
      hide Traced, Sum, AllHeld, HeapOk, Closed, Reachable, MarksAre, NoneElse, Base, SweptAll, Collected, Kept, Needed;
      ghost var h0 := View();
      FinishSweeping();
      ghost var h := View();
      remembered.ReleaseAll();
      var m := CurrentMark(h, minor);
      ghost var marks := Trace(h, m, minor);
      CollectedOk(h, m, marks);
      var forgotten := remembered.Clear();
      logged, newborn, survivor := {}, {}, m;
      assert View() == Collected(h, m, marks) by { CollectedIs(h, m, marks, mark); }
      BaseSwept(h0, minor);
      forall o ensures IsOld(View(), o) <==> Needed(h0, Base(h0, minor), o) { SweepAllReaches(h0, Base(h0, minor), o); }
      forall o | Reachable(h0, o) ensures IsOld(View(), o) && o in fields && o in h0.fields && fields[o] == h0.fields[o] {
        ReachableNeeded(h0, Base(h0, minor), o);
        KeptWhole(h0, marks, o);
      }
      if !minor {
        forall o ensures IsOld(View(), o) <==> Reachable(h0, o) { MajorIsExact(h0, o); }
      }
    }

    /** nofl_space_prepare_gc */
    method CurrentMark(ghost h: Heap, minor: bool) returns (m: nat)
      requires h == View() && AllKept(h)
      ensures m == (if minor then h.survivor else AdvanceMark(h.survivor)) && IsMark(m) && IsMark(h.survivor)
    {
      m := if minor then survivor else AdvanceMark(survivor);
    }
  }

  // ---------- Facts about one moment of a collection ----------

  lemma LoggedIsField(h: Heap, e: Edge)
    requires AllKept(h) && e in h.logged
    ensures e.obj in h.mark && e.obj in h.fields && e.field < |h.fields[e.obj]| && e.obj in Base(h, true)
  {
  }

  lemma BaseMarked(h: Heap, base: set<Obj>, marks: set<Obj>, work: seq<Obj>, done: set<Edge>, o: Obj)
    requires Traced(h, base, marks, work, done) && o in base
    ensures o in marks
  {
  }

  lemma WorkMarked(h: Heap, base: set<Obj>, marks: set<Obj>, work: seq<Obj>, done: set<Edge>, o: Obj)
    requires Traced(h, base, marks, work, done) && o in work && AllKept(h)
    ensures o in marks && o in h.mark && o in h.fields
  {
  }

  lemma MarksInHeap(h: Heap, base: set<Obj>, marks: set<Obj>, work: seq<Obj>, done: set<Edge>)
    requires Traced(h, base, marks, work, done)
    ensures base <= marks <= h.mark.Keys
  {
  }

  lemma SumEmpty()
    ensures Sum([]) == multiset{}
  {
  }

  lemma BufferInSum(bs: seq<Buffer>, i: nat)
    requires i < |bs|
    ensures Sum(bs[..i + 1]) == Sum(bs[..i]) + multiset(bs[i])
    ensures forall e :: e in bs[i] ==> e in Sum(bs)
  {
    assert bs[..i + 1][..i] == bs[..i];
    assert bs == bs[..i + 1] + bs[i + 1..];
    SumConcat(bs[..i + 1], bs[i + 1..]);
    forall e | e in bs[i] ensures e in Sum(bs) { assert e in multiset(bs[i]); }
  }

  /** At the start of a collection the objects that carry its mark are those of the base. */
  lemma StartMarks(h: Heap, minor: bool, m: nat)
    requires AllKept(h) && m == if minor then h.survivor else AdvanceMark(h.survivor)
    ensures MarksAre(h, h.mark, m, Base(h, minor)) && NoneElse(h, m, Base(h, minor))
    ensures !minor ==> Base(h, minor) == {}
  {
    if !minor {
      forall o | o in h.mark ensures h.mark[o] != m { FreshMark(h, o); }
    }
  }

  /** A major collection starts with no object marked, so it owes the logged fields nothing. */
  lemma MajorIgnores(h: Heap, marks: set<Obj>, work: seq<Obj>)
    requires Traced(h, {}, marks, work, {})
    ensures Traced(h, {}, marks, work, h.logged)
  {
  }

  lemma NoneElseLater(h: Heap, m: nat, base: set<Obj>, marks: set<Obj>)
    requires NoneElse(h, m, base) && base <= marks
    ensures NoneElse(h, m, marks)
  {
  }

  lemma CollectedIs(h: Heap, m: nat, marks: set<Obj>, mark: map<Obj, nat>)
    requires MarksAre(h, mark, m, marks)
    ensures h.(mark := mark, logged := {}, newborn := {}, survivor := m) == Collected(h, m, marks)
  {
  }

  /** A reachable object is marked, and its fields are untouched. */
  lemma KeptWhole(h0: Heap, marks: set<Obj>, o: Obj)
    requires HeapOk(h0) && o in marks && marks <= SweptAll(h0).mark.Keys
    ensures o in SweptAll(h0).fields && o in h0.fields && SweptAll(h0).fields[o] == h0.fields[o]
  {
    SweepAllKeeps(h0);
  }

  lemma ReachableNeeded(h: Heap, base: set<Obj>, o: Obj)
    requires Reachable(h, o)
    ensures Needed(h, base, o)
  {
  }

  /** In a major collection what is needed is what can be reached. */
  lemma MajorIsExact(h: Heap, o: Obj)
    ensures Needed(h, Base(h, false), o) <==> Reachable(h, o)
  {
  }

  /** What finished tracing has marked is exactly what base and roots lead to, and no more. */
  lemma MarksAreNeeded(h: Heap, base: set<Obj>, marks: set<Obj>, o: Obj)
    requires Traced(h, base, marks, [], h.logged) && h.roots <= marks
    ensures o in marks <==> Needed(h, base, o)
  {
    hide Reachable;
    TraceEnds(h, base, marks);
  }

  /** Sweeping takes no survivor away. */
  lemma BaseSwept(h: Heap, minor: bool)
    ensures Base(SweptAll(h), minor) == Base(h, minor) && forall x :: x in Base(h, minor) ==> Kept(h, x)
  {
  }
}
