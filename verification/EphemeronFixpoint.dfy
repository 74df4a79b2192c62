/**
  Ephemerons and finalizers in a serial collection: the loops of collect in src/semi.c over
  src/gc-ephemeron.c and src/gc-finalizer.c.

  Objects are nodes of a graph.  Visiting a small object queues it, as copying it does in a
  Cheney collector; visiting a large one marks it and visits what it refers to at once.  When the
  table of pending ephemerons has been scanned, visiting also resolves the ephemerons that wait for
  the object.  The results say which objects a collection keeps, by a definition that knows nothing
  of queues or tables: the least set that holds the roots and is closed under references and under
  "the value of an ephemeron, if the ephemeron and its key are both kept".
*/
module EphemeronFixpoint {

  import F = Finalizers

  type Obj = nat

  datatype EphState = Traced | Pending | Resolved

  /** The heap: ordinary references (an ephemeron's are its chain link), and for each ephemeron its
      key and its value. */
  datatype Graph = Graph(
    edges: map<Obj, seq<Obj>>, key: map<Obj, Obj>, value: map<Obj, Obj>,
    dead: set<Obj>,                     // ephemerons dead before the collection
    large: set<Obj>,                    // objects of the large-object space
    hash: Obj -> nat, nbuckets: nat)

  ghost predicate GraphOk(g: Graph) {
    && (forall o, t :: o in g.edges && t in g.edges[o] ==> t in g.edges)
    && (forall e :: e in g.key <==> e in g.value)
    && (forall e :: e in g.key ==> e in g.edges && g.key[e] in g.edges && g.value[e] in g.edges)
    && (forall o :: g.hash(o) < g.nbuckets)
    && (forall e :: e in g.key ==> e !in g.large)  // no large ephemerons
  }

  // ---------- What one visit marks ----------

  ghost predicate LargeClosed(g: Graph, c: set<Obj>) {
    forall o, t :: o in c && o in g.large && o in g.edges && t in g.edges[o] ==> t in c
  }

  ghost predicate MarkedBy(g: Graph, o: Obj, x: Obj) {
    forall c: set<Obj> :: o in c && LargeClosed(g, c) ==> x in c
  }

  /** The object, and what is reached from it by way of large objects. */
  ghost function Reach(g: Graph, o: Obj): set<Obj> {
    set x | x in g.edges.Keys + {o} && MarkedBy(g, o, x)
  }

  ghost function Reaching(g: Graph): Obj -> set<Obj> {
    o => Reach(g, o)
  }

  lemma ReachOk(g: Graph)
    ensures forall o :: o in Reaching(g)(o)
    ensures F.Transitive(Reaching(g))
  {
    forall a, b | b in Reach(g, a) ensures Reach(g, b) <= Reach(g, a) {
      ReachTrans(g, a, b);
    }
    assert forall o :: Reaching(g)(o) == Reach(g, o);
  }

  lemma ReachTrans(g: Graph, a: Obj, b: Obj)
    requires b in Reach(g, a)
    ensures Reach(g, b) <= Reach(g, a)
  {
    forall x | x in Reach(g, b) ensures x in Reach(g, a) {
      forall c: set<Obj> | a in c && LargeClosed(g, c) ensures x in c {
        assert b in c;
      }
    }
  }

  lemma ReachEdge(g: Graph, o: Obj, t: Obj)
    requires o in g.large && o in g.edges && t in g.edges[o] && t in g.edges
    ensures Reach(g, t) <= Reach(g, o)
  {
    forall c: set<Obj> | o in c && LargeClosed(g, c) ensures t in c {
    }
    assert t in Reach(g, o);
    ReachTrans(g, o, t);
  }

  /** A small object is all that visiting it marks. */
  lemma ReachSmall(g: Graph, o: Obj)
    requires o !in g.large
    ensures Reach(g, o) == {o}
  {
    var c := {o};
    assert LargeClosed(g, c);
    forall x | x in Reach(g, o) ensures x in c {
    }
  }

  lemma ReachWithin(g: Graph, o: Obj, c: set<Obj>)
    requires o in c && LargeClosed(g, c)
    ensures Reach(g, o) <= c
  {
  }

  // ---------- What a collection should keep ----------

  ghost predicate Closed(g: Graph, roots: set<Obj>, c: set<Obj>) {
    && roots <= c
    && (forall o, t :: o in c && o in g.edges && t in g.edges[o] ==> t in c)
    && (forall e :: e in c && e in g.key && e in g.value && e !in g.dead && g.key[e] in c ==> g.value[e] in c)
  }

  ghost predicate Least(g: Graph, roots: set<Obj>, s: set<Obj>) {
    Closed(g, roots, s) && forall c :: Closed(g, roots, c) ==> s <= c
  }

  /** There is only one such set. */
  lemma LeastIsUnique(g: Graph, roots: set<Obj>, s: set<Obj>, s': set<Obj>)
    requires Least(g, roots, s) && Least(g, roots, s')
    ensures s == s'
  {
  }

  /** More roots, more kept. */
  lemma LeastMonotone(g: Graph, roots: set<Obj>, roots': set<Obj>, s: set<Obj>, s': set<Obj>)
    requires Least(g, roots, s) && Least(g, roots', s') && roots <= roots'
    ensures s <= s'
  {
    assert Closed(g, roots, s');
  }

  // ---------- State ----------

  datatype State = State(
    visited: set<Obj>, queue: seq<Obj>, grey: nat,
    st: map<Obj, EphState>,              // absent means Traced
    dead: set<Obj>,
    buckets: seq<seq<Obj>>, resolved: seq<Obj>,
    check: bool,                         // check_pending_ephemerons
    black: set<Obj>,                     // objects scanned
    batch: seq<Obj>,                     // resolved ephemerons now being traced
    finished: set<Obj>)                  // and those that have been

  function StOf(s: State, e: Obj): EphState {
    if e in s.st then s.st[e] else Traced
  }

  ghost predicate Distinct(q: seq<Obj>) {
    forall i, j :: 0 <= i < j < |q| ==> q[i] != q[j]
  }

  /** In every set closed under the rules. */
  ghost predicate Needed(g: Graph, roots: set<Obj>, o: Obj) {
    forall c :: Closed(g, roots, c) ==> o in c
  }

  ghost predicate QueueInv(g: Graph, roots: set<Obj>, s: State) {
    && Distinct(s.queue) && s.grey <= |s.queue|
    && (forall o :: o in s.queue ==> o in s.visited && o !in g.large)
    && (forall o :: o in s.visited && o !in g.large ==> o in s.queue)
    && (forall o :: o !in g.large ==> (o in s.black <==> o in s.queue[..s.grey]))
    && s.black <= s.visited
    && (forall o :: o in s.visited ==> o in g.edges && Needed(g, roots, o))
    && |s.buckets| == g.nbuckets && s.dead == g.dead
    && (forall b, e :: 0 <= b < |s.buckets| && e in s.buckets[b] ==> e in g.key)
  }

  /** The edges of a scanned object have been visited. */
  ghost predicate EdgesInv(g: Graph, s: State, o: Obj) {
    o in s.black && o in g.edges ==> forall t :: t in g.edges[o] ==> t in s.visited
  }

  function BucketOf(g: Graph, e: Obj): nat {
    if e in g.key then g.hash(g.key[e]) else 0
  }

  predicate InBucket(s: State, b: nat, e: Obj) {
    b < |s.buckets| && e in s.buckets[b]
  }

  ghost predicate EphInv(g: Graph, s: State, e: Obj) {
    && (StOf(s, e) != Traced ==> e in g.key && e in s.black && e !in g.dead)
    && (e in g.key && e in g.value && e in s.black && e !in g.dead && StOf(s, e).Traced? ==>
          g.key[e] in s.visited && g.value[e] in s.visited)
    && (StOf(s, e).Pending? ==> InBucket(s, BucketOf(g, e), e))
    && (StOf(s, e).Resolved? && e in g.key ==> g.key[e] in s.visited && (e in s.resolved || e in s.batch))
    && (e in s.resolved || e in s.batch ==> StOf(s, e).Resolved?)
    && (e in s.finished ==> StOf(s, e).Traced? && e in s.black)
  }

  ghost predicate Inv(g: Graph, roots: set<Obj>, s: State) {
    && GraphOk(g) && QueueInv(g, roots, s)
    && (forall o :: EdgesInv(g, s, o))
    && (forall e :: EphInv(g, s, e))
    && Distinct(s.batch) && Distinct(s.resolved) && (forall e :: e in s.resolved ==> e !in s.batch)
  }

  /** Eager resolution has overlooked `e`: its key is visited and it is still waiting. */
  predicate Overdue(g: Graph, s: State, e: Obj) {
    s.check && StOf(s, e).Pending? && e in g.key && g.key[e] in s.visited
  }

  ghost predicate NoneOverdue(g: Graph, s: State) {
    forall e :: !Overdue(g, s, e)
  }

  /** Between visiting `o` and the end of the walk of its bucket, now at position `i`. */
  ghost predicate OverdueFrom(g: Graph, s: State, o: Obj, i: nat) {
    var b := g.hash(o);
    b < |s.buckets| && i <= |s.buckets[b]| &&
    forall e :: Overdue(g, s, e) ==> g.key[e] == o && e in s.buckets[b][i..]
  }

  /** What visiting may change. */
  ghost predicate Grows(g: Graph, s: State, s': State) {
    && s.visited <= s'.visited && s.queue <= s'.queue && s'.grey == s.grey
    && s.black <= s'.black && (forall o :: o in s'.black && o !in s.black ==> o in g.large)
    && s'.dead == s.dead && s'.buckets == s.buckets && s'.check == s.check && s'.batch == s.batch
    && s'.finished == s.finished
    && (forall e :: StOf(s', e) == StOf(s, e) || (StOf(s, e).Pending? && StOf(s', e).Resolved?))
  }

  // ---------- The changes of state ----------

  function VisitState(g: Graph, s: State, o: Obj): State {
    s.(visited := s.visited + {o}, queue := if o in g.large then s.queue else s.queue + [o])
  }

  /** A large object has been traced. */
  function TracedState(s: State, o: Obj): State {
    s.(black := s.black + {o})
  }

  /** Every large object that has been visited has been traced; for a visit in the middle of others, every
      one that was not visited before it. */
  ghost predicate LargeBlack(g: Graph, s: State) {
    forall o :: o in s.visited && o in g.large ==> o in s.black
  }

  ghost predicate NewBlack(g: Graph, s: State, s': State) {
    forall o :: o in s'.visited && o !in s.visited && o in g.large ==> o in s'.black
  }

  lemma NewBlackTrans(g: Graph, s: State, s1: State, s2: State)
    requires Grows(g, s, s1) && Grows(g, s1, s2) && NewBlack(g, s, s1) && NewBlack(g, s1, s2)
    ensures NewBlack(g, s, s2)
  {
  }

  lemma NewBlackKeeps(g: Graph, s: State, s': State)
    requires LargeBlack(g, s) && Grows(g, s, s') && NewBlack(g, s, s')
    ensures LargeBlack(g, s')
  {
  }

  lemma TracedKeeps(g: Graph, roots: set<Obj>, s: State, o: Obj)
    requires Inv(g, roots, s) && NoneOverdue(g, s) && o in s.visited && o in g.large
    requires o in g.edges ==> forall t :: t in g.edges[o] ==> t in s.visited
    ensures Inv(g, roots, TracedState(s, o)) && NoneOverdue(g, TracedState(s, o)) && Grows(g, s, TracedState(s, o))
  {
    hide Needed;
    var s' := TracedState(s, o);
    forall x ensures EdgesInv(g, s', x) { assert EdgesInv(g, s, x); }
    forall e ensures EphInv(g, s', e) && !Overdue(g, s', e) { assert EphInv(g, s, e) && !Overdue(g, s, e); }
  }

  lemma ScannedBlack(g: Graph, s: State, o: Obj, pending: bool)
    requires LargeBlack(g, s)
    ensures LargeBlack(g, ScannedState(g, s, o, pending))
  {
  }

  /** When no large object is half traced, what is visited is closed under references from large objects. */
  lemma SettledClosed(g: Graph, roots: set<Obj>, s: State)
    requires Inv(g, roots, s) && LargeBlack(g, s)
    ensures LargeClosed(g, s.visited)
  {
    hide Needed;
    forall o, t | o in s.visited && o in g.large && o in g.edges && t in g.edges[o] ensures t in s.visited {
      assert EdgesInv(g, s, o);
    }
  }

  /** maybe_resolve_ephemeron */
  function ResolveState(s: State, e: Obj): State {
    s.(st := s.st[e := Resolved], resolved := [e] + s.resolved)
  }

  lemma VisitKeeps(g: Graph, roots: set<Obj>, s: State, o: Obj)
    requires Inv(g, roots, s) && o !in s.visited && o in g.edges && Needed(g, roots, o)
    ensures Inv(g, roots, VisitState(g, s, o)) && Grows(g, s, VisitState(g, s, o))
    ensures NoneOverdue(g, s) ==> OverdueFrom(g, VisitState(g, s, o), o, 0)
  {
    hide Needed;
    var s' := VisitState(g, s, o);
    forall x ensures EdgesInv(g, s', x) { assert EdgesInv(g, s, x); }
    forall e ensures EphInv(g, s', e) { assert EphInv(g, s, e); }
    assert s'.queue[..s.grey] == s.queue[..s.grey];
    if NoneOverdue(g, s) {
      forall e | Overdue(g, s', e) ensures g.key[e] == o && e in s'.buckets[g.hash(o)][0..] {
        assert !Overdue(g, s, e) && EphInv(g, s, e);
      }
    }
  }

  lemma ResolveQueue(g: Graph, roots: set<Obj>, s: State, e: Obj)
    requires QueueInv(g, roots, s)
    ensures QueueInv(g, roots, ResolveState(s, e))
  {
    hide Needed;
  }

  lemma ResolveKeeps(g: Graph, roots: set<Obj>, s: State, e: Obj)
    requires Inv(g, roots, s) && StOf(s, e).Pending? && e in g.key && g.key[e] in s.visited
    ensures Inv(g, roots, ResolveState(s, e)) && Grows(g, s, ResolveState(s, e))
  {
    hide Needed, QueueInv;
    assert QueueInv(g, roots, ResolveState(s, e)) by { ResolveQueue(g, roots, s, e); }
    var s' := ResolveState(s, e);
    forall x ensures EdgesInv(g, s', x) { assert EdgesInv(g, s, x); }
    assert EphInv(g, s, e);
    forall d ensures EphInv(g, s', d) { assert EphInv(g, s, d); }
  }

  lemma GrowsTrans(g: Graph, s: State, s1: State, s2: State)
    requires Grows(g, s, s1) && Grows(g, s1, s2)
    ensures Grows(g, s, s2)
  {
    forall e ensures StOf(s2, e) == StOf(s, e) || (StOf(s, e).Pending? && StOf(s2, e).Resolved?) {
      assert StOf(s1, e) == StOf(s, e) || (StOf(s, e).Pending? && StOf(s1, e).Resolved?);
    }
  }

  // What is needed

  lemma RootNeeded(g: Graph, roots: set<Obj>, o: Obj)
    requires o in roots
    ensures Needed(g, roots, o)
  {
  }

  lemma EdgeNeeded(g: Graph, roots: set<Obj>, o: Obj, t: Obj)
    requires Needed(g, roots, o) && o in g.edges && t in g.edges[o]
    ensures Needed(g, roots, t)
  {
    forall c | Closed(g, roots, c) ensures t in c { assert o in c; }
  }

  lemma ValueNeeded(g: Graph, roots: set<Obj>, e: Obj)
    requires e in g.key && e in g.value && e !in g.dead && Needed(g, roots, e) && Needed(g, roots, g.key[e])
    ensures Needed(g, roots, g.value[e])
  {
    forall c | Closed(g, roots, c) ensures g.value[e] in c { assert e in c && g.key[e] in c; }
  }

  lemma NeededMore(g: Graph, roots: set<Obj>, roots': set<Obj>, o: Obj)
    requires Needed(g, roots, o) && roots <= roots'
    ensures Needed(g, roots', o)
  {
    forall c | Closed(g, roots', c) ensures o in c { assert Closed(g, roots, c); }
  }

  lemma {:induction false} DistinctSize(q: seq<Obj>, k: set<Obj>)
    requires Distinct(q) && forall o :: o in q ==> o in k
    ensures |q| <= |k|
  {
    if q != [] {
      var o := q[|q| - 1];
      assert o in k;
      DistinctSize(q[..|q| - 1], k - {o});
    }
  }

  lemma QueueBound(g: Graph, roots: set<Obj>, s: State)
    requires Inv(g, roots, s)
    ensures |s.queue| <= |g.edges.Keys| && s.finished <= g.edges.Keys
  {
    hide Needed;
    forall o | o in s.queue ensures o in g.edges.Keys { assert o in s.visited; }
    DistinctSize(s.queue, g.edges.Keys);
    forall e | e in s.finished ensures e in g.edges.Keys {
      assert EphInv(g, s, e);
      assert e in s.black;
    }
  }

  /** The object at the head of the queue. */
  lemma HeadOk(g: Graph, roots: set<Obj>, s: State)
    requires Inv(g, roots, s) && s.grey < |s.queue|
    ensures var o := s.queue[s.grey];
      && o in s.visited && o in g.edges && Needed(g, roots, o) && o !in s.black && StOf(s, o).Traced?
      && (forall t :: t in g.edges[o] ==> t in g.edges)
      && (o in g.key ==> o in g.value && g.key[o] in g.edges && g.value[o] in g.edges && g.hash(g.key[o]) < |s.buckets|)
  {
    hide Needed;
    var o := s.queue[s.grey];
    assert o in s.queue && EphInv(g, s, o);
  }

  lemma VisitedNeeded(g: Graph, roots: set<Obj>, s: State, o: Obj)
    requires Inv(g, roots, s) && o in s.visited
    ensures Needed(g, roots, o)
  {
  }

  /** The end of gc_trace_object, with what gc_trace_ephemeron adds for an ephemeron. */
  function ScannedState(g: Graph, s: State, o: Obj, pending: bool): State {
    var s' := s.(grey := s.grey + 1, black := s.black + {o});
    var b := BucketOf(g, o);
    if pending && b < |s.buckets| then s'.(st := s.st[o := Pending], buckets := s.buckets[b := [o] + s.buckets[b]]) else s'
  }

  ghost predicate ScannedPre(g: Graph, s: State, o: Obj, pending: bool) {
    && (o in g.edges ==> forall t :: t in g.edges[o] ==> t in s.visited)
    && (pending ==> o in g.key && o !in g.dead && g.key[o] !in s.visited)
    && (!pending && o in g.key && o in g.value && o !in g.dead ==> g.key[o] in s.visited && g.value[o] in s.visited)
  }

  lemma ScannedEph(g: Graph, s: State, o: Obj, pending: bool, e: Obj)
    requires EphInv(g, s, e) && EphInv(g, s, o) && !Overdue(g, s, e) && ScannedPre(g, s, o, pending)
    requires o !in s.black && (o in g.key ==> BucketOf(g, o) < |s.buckets|)
    ensures EphInv(g, ScannedState(g, s, o, pending), e) && !Overdue(g, ScannedState(g, s, o, pending), e)
  {
  }

  lemma ScannedKeeps(g: Graph, roots: set<Obj>, s: State, pending: bool)
    requires Inv(g, roots, s) && NoneOverdue(g, s) && s.grey < |s.queue|
    requires ScannedPre(g, s, s.queue[s.grey], pending)
    ensures var s' := ScannedState(g, s, s.queue[s.grey], pending); Inv(g, roots, s') && NoneOverdue(g, s')
  {
    hide Needed, EphInv, Overdue;
    var o := s.queue[s.grey];
    var s' := ScannedState(g, s, o, pending);
    HeadOk(g, roots, s);
    assert s.queue[..s.grey + 1] == s.queue[..s.grey] + [o];
    forall x ensures EdgesInv(g, s', x) { assert EdgesInv(g, s, x); }
    forall e ensures EphInv(g, s', e) && !Overdue(g, s', e) {
      assert EphInv(g, s, e) && EphInv(g, s, o) && !Overdue(g, s, e);
      ScannedEph(g, s, o, pending, e);
    }
  }

  /** RESOLVED to TRACED, for the first ephemeron of the batch. */
  function FinishedState(s: State): State
    requires s.batch != []
  {
    s.(st := s.st[s.batch[0] := Traced], batch := s.batch[1..], finished := s.finished + {s.batch[0]})
  }

  lemma FinishedKeeps(g: Graph, roots: set<Obj>, s: State)
    requires Inv(g, roots, s) && NoneOverdue(g, s) && s.batch != []
    requires s.batch[0] in g.value ==> g.value[s.batch[0]] in s.visited
    ensures Inv(g, roots, FinishedState(s)) && NoneOverdue(g, FinishedState(s))
  {
    hide Needed;
    var s' := FinishedState(s);
    forall x ensures EdgesInv(g, s', x) { assert EdgesInv(g, s, x); }
    assert EphInv(g, s, s.batch[0]);
    forall e ensures EphInv(g, s', e) && !Overdue(g, s', e) { assert EphInv(g, s, e) && !Overdue(g, s, e); }
  }

  lemma BatchHead(g: Graph, roots: set<Obj>, s: State)
    requires Inv(g, roots, s) && s.batch != []
    ensures var e := s.batch[0];
      e in g.key && e in g.value && g.value[e] in g.edges && Needed(g, roots, g.value[e]) && e !in s.finished && e in g.edges
  {
    hide Needed;
    var e := s.batch[0];
    assert EphInv(g, s, e);
    VisitedNeeded(g, roots, s, g.key[e]);
    assert e in s.black;
    VisitedNeeded(g, roots, s, e);
    ValueNeeded(g, roots, e);
  }

  /** Taking the resolved list for a batch. */
  lemma TakeKeeps(g: Graph, roots: set<Obj>, s: State)
    requires Inv(g, roots, s) && NoneOverdue(g, s) && s.batch == []
    ensures var s' := s.(batch := s.resolved, resolved := []); Inv(g, roots, s') && NoneOverdue(g, s')
  {
    hide Needed;
    var s' := s.(batch := s.resolved, resolved := []);
    forall x ensures EdgesInv(g, s', x) { assert EdgesInv(g, s, x); }
    forall e ensures EphInv(g, s', e) && !Overdue(g, s', e) { assert EphInv(g, s, e) && !Overdue(g, s, e); }
  }

  /** Nothing left to do. */
  ghost predicate Complete(g: Graph, roots: set<Obj>, s: State) {
    && Inv(g, roots, s) && NoneOverdue(g, s) && s.check && roots <= s.visited
    && s.grey == |s.queue| && s.resolved == [] && s.batch == [] && LargeBlack(g, s)
  }

  lemma AllScanned(g: Graph, roots: set<Obj>, s: State)
    requires Complete(g, roots, s)
    ensures s.visited == s.black
  {
    hide Needed;
    assert s.queue[..s.grey] == s.queue;
  }

  lemma CompleteIsLeast(g: Graph, roots: set<Obj>, s: State)
    requires Complete(g, roots, s)
    ensures Least(g, roots, s.visited)
  {
    hide Needed;
    AllScanned(g, roots, s);
    assert Closed(g, roots, s.visited) by {
      forall o, t | o in s.visited && o in g.edges && t in g.edges[o] ensures t in s.visited { assert EdgesInv(g, s, o); }
      forall e | e in s.visited && e in g.key && e in g.value && e !in g.dead && g.key[e] in s.visited
        ensures g.value[e] in s.visited
      {
        assert EphInv(g, s, e) && !Overdue(g, s, e);
      }
    }
    forall c | Closed(g, roots, c) ensures s.visited <= c {
      forall o | o in s.visited ensures o in c { VisitedNeeded(g, roots, s, o); NeededIn(g, roots, o, c); }
    }
  }

  lemma NeededIn(g: Graph, roots: set<Obj>, o: Obj, c: set<Obj>)
    requires Needed(g, roots, o) && Closed(g, roots, c)
    ensures o in c
  {
  }

  // ---------- Finalizers, and the whole cycle ----------

  lemma MoreRoots(g: Graph, roots: set<Obj>, roots': set<Obj>, s: State)
    requires Inv(g, roots, s) && roots <= roots'
    ensures Inv(g, roots', s)
  {
    hide Needed;
    forall o | o in s.visited ensures Needed(g, roots', o) { NeededMore(g, roots, roots', o); }
    forall x ensures EdgesInv(g, s, x) {}
    forall e ensures EphInv(g, s, e) {}
  }

  function Elements(q: seq<Obj>): set<Obj> {
    set o | o in q
  }

  /** What is kept at each stage: first without finalizers, then, priority by priority, with the
      objects of finalizers that had not been kept so far as further roots. */
  ghost predicate Stages(g: Graph, roots: set<Obj>, wanted: seq<set<Obj>>, kept: seq<set<Obj>>) {
    && |kept| == |wanted| + 1
    && forall p :: 0 <= p < |kept| ==> Least(g, roots + Resurrected(wanted, kept, p), kept[p])
  }

  /** The objects given another lease of life before stage `p`. */
  ghost function Resurrected(wanted: seq<set<Obj>>, kept: seq<set<Obj>>, p: nat): set<Obj>
    requires p <= |wanted| && p <= |kept|
  {
    if p == 0 then {} else Resurrected(wanted, kept, p - 1) + (wanted[p - 1] - kept[p - 1])
  }

  lemma {:induction false} ResurrectedPrefix(wanted: seq<set<Obj>>, kept: seq<set<Obj>>, kept': seq<set<Obj>>, p: nat)
    requires p <= |wanted| && p <= |kept| && kept <= kept'
    ensures Resurrected(wanted, kept', p) == Resurrected(wanted, kept, p)
  {
    if p > 0 { ResurrectedPrefix(wanted, kept, kept', p - 1); }
  }

  /** Stages are determined by the heap and the tables. */
  lemma {:induction false} StagesUnique(g: Graph, roots: set<Obj>, wanted: seq<set<Obj>>, k1: seq<set<Obj>>, k2: seq<set<Obj>>, p: nat)
    requires Stages(g, roots, wanted, k1) && Stages(g, roots, wanted, k2) && p < |k1|
    ensures k1[p] == k2[p] && Resurrected(wanted, k1, p) == Resurrected(wanted, k2, p)
  {
    hide Least;
    if p > 0 { StagesUnique(g, roots, wanted, k1, k2, p - 1); }
    var more := Resurrected(wanted, k1, p);
    assert more == Resurrected(wanted, k2, p);
    assert Least(g, roots + more, k1[p]) && Least(g, roots + more, k2[p]);
    LeastIsUnique(g, roots + more, k1[p], k2[p]);
  }

  /** An object kept at one stage is kept at the next: a finalizer of a later priority on an object that
      an earlier one resurrected does not fire in this collection. */
  lemma StagesGrow(g: Graph, roots: set<Obj>, wanted: seq<set<Obj>>, kept: seq<set<Obj>>, p: nat)
    requires Stages(g, roots, wanted, kept) && p + 1 < |kept|
    ensures kept[p] <= kept[p + 1] && wanted[p] <= kept[p + 1]
  {
    hide Least;
    var before, more := Resurrected(wanted, kept, p), wanted[p] - kept[p];
    assert Resurrected(wanted, kept, p + 1) == before + more;
    LeastMonotone(g, roots + before, roots + (before + more), kept[p], kept[p + 1]);
    LeastHolds(g, roots + (before + more), kept[p + 1]);
  }

  lemma LeastHolds(g: Graph, roots: set<Obj>, s: set<Obj>)
    requires Least(g, roots, s)
    ensures roots <= s
  {
  }

  /** The tables' objects, by priority. */
  ghost function Wanted(tables: seq<F.Table>, target: map<Obj, Obj>): seq<set<Obj>> {
    seq(|tables|, p requires 0 <= p < |tables| => F.Objects(F.Flat(tables[p].buckets), target))
  }

  /** What becomes of one table, if `visited` has been kept before it is looked at. */
  ghost function ResolutionAt(g: Graph, table: F.Table, target: map<Obj, Obj>, visited: set<Obj>): F.Resolution {
    F.Resolve(F.Flat(table.buckets), target, visited, Reaching(g))
  }

  /** The fired list when the first `p` priorities have been dealt with. */
  ghost function FiredList(g: Graph, fired: seq<Obj>, tables: seq<F.Table>, target: map<Obj, Obj>, kept: seq<set<Obj>>, p: nat): seq<Obj>
    requires p <= |tables| && p <= |kept|
  {
    if p == 0 then fired
    else F.PushAll(FiredList(g, fired, tables, target, kept, p - 1), ResolutionAt(g, tables[p - 1], target, kept[p - 1]).fired)
  }

  lemma FiredNone(g: Graph, fired: seq<Obj>, tables: seq<F.Table>, target: map<Obj, Obj>, kept: seq<set<Obj>>)
    ensures FiredList(g, fired, tables, target, kept, 0) == fired
  {
  }

  lemma {:induction false} FiredPrefix(g: Graph, fired: seq<Obj>, tables: seq<F.Table>, target: map<Obj, Obj>,
                                       kept: seq<set<Obj>>, kept': seq<set<Obj>>, p: nat)
    requires p <= |tables| && p <= |kept| && kept <= kept'
    ensures FiredList(g, fired, tables, target, kept', p) == FiredList(g, fired, tables, target, kept, p)
  {
    if p > 0 { FiredPrefix(g, fired, tables, target, kept, kept', p - 1); }
  }

  lemma FiredNext(g: Graph, fired: seq<Obj>, tables: seq<F.Table>, target: map<Obj, Obj>, kept: seq<set<Obj>>, p: nat, s: set<Obj>)
    requires p < |tables| && |kept| == p + 1
    ensures FiredList(g, fired, tables, target, kept + [s], p + 1) ==
            F.PushAll(FiredList(g, fired, tables, target, kept, p), ResolutionAt(g, tables[p], target, kept[p]).fired)
  {
    FiredPrefix(g, fired, tables, target, kept, kept + [s], p);
  }

  ghost predicate TargetsOk(g: Graph, target: map<Obj, Obj>) {
    forall f :: f in target ==> target[f] in g.edges
  }

  // ---------- Sweeping ----------

  /** After the sweep: nothing waits, and the dead are those that were, or whose key was not kept. */
  ghost predicate Swept(g: Graph, s: State, s': State) {
    && s'.visited == s.visited
    && (forall e :: e in g.key && e in s.visited ==> StOf(s', e).Traced?)
    && (forall e :: e in g.key && e in s.visited ==> (e in s'.dead <==> e in g.dead || g.key[e] !in s.visited))
  }

  lemma CompleteStates(g: Graph, roots: set<Obj>, s: State, e: Obj)
    requires Complete(g, roots, s)
    ensures !StOf(s, e).Resolved?
    ensures StOf(s, e).Pending? ==> InBucket(s, BucketOf(g, e), e)
    ensures e in g.key && e in s.visited && e !in g.dead ==> (StOf(s, e).Pending? <==> g.key[e] !in s.visited)
    ensures e in s.visited && e in g.dead ==> StOf(s, e).Traced?
    ensures s.dead == g.dead
  {
    hide Needed;
    assert EphInv(g, s, e) && !Overdue(g, s, e);
    AllScanned(g, roots, s);
  }

  // ---------- The collector ----------

  class Collector {
    const g: Graph
    var visited: set<Obj>
    var queue: seq<Obj>
    var grey: nat
    var st: map<Obj, EphState>
    var dead: set<Obj>
    var buckets: seq<seq<Obj>>
    var resolved: seq<Obj>
    var check: bool
    ghost var black: set<Obj>
    ghost var batch: seq<Obj>
    ghost var finished: set<Obj>

    ghost function Snap(): State
      reads this
    {
      State(visited, queue, grey, st, dead, buckets, resolved, check, black, batch, finished)
    }

    ghost predicate Working(roots: set<Obj>)
      reads this
    {
      Inv(g, roots, Snap()) && NoneOverdue(g, Snap())
    }

    /** Between visits: no large object is half traced. */
    ghost predicate Settled(roots: set<Obj>)
      reads this
    {
      Working(roots) && LargeBlack(g, Snap())
    }

    /** gc_resolve_pending_ephemerons, for an object just visited. */
    method ResolvePending(ghost roots: set<Obj>, o: Obj)
      requires Inv(g, roots, Snap()) && o in visited && OverdueFrom(g, Snap(), o, 0)
      modifies this
      ensures Working(roots) && Grows(g, old(Snap()), Snap()) && visited == old(visited) && queue == old(queue)
    {
      hide Inv, Grows;
      ghost var s := Snap();
      GrowsRefl(g, s);
      var b := g.hash(o);
      var i := 0;
      while i < |buckets[b]|
        invariant b < |buckets| && i <= |buckets[b]| && buckets == s.buckets && visited == s.visited && queue == s.queue
        invariant Inv(g, roots, Snap()) && Grows(g, s, Snap()) && OverdueFrom(g, Snap(), o, i)
        decreases |s.buckets[b]| - i
      {
        var e := buckets[b][i];
        ghost var s1 := Snap();
        InBucketIsEph(g, roots, s1, b, i);
        if g.key[e] == o && e in st && st[e] == Pending {
          ResolveKeeps(g, roots, s1, e);
          GrowsTrans(g, s, s1, ResolveState(s1, e));
          st, resolved := st[e := Resolved], [e] + resolved;
        }
        WalkOn(g, s1, Snap(), o, i);
        i := i + 1;
      }
    }

    /** visit: a small object is queued, a large one traced on the spot. */
    method Visit(ghost roots: set<Obj>, o: Obj)
      requires Working(roots) && o in g.edges && Needed(g, roots, o)
      modifies this
      ensures Working(roots) && Grows(g, old(Snap()), Snap()) && o in visited
      ensures NewBlack(g, old(Snap()), Snap()) && visited <= old(visited) + Reach(g, o)
      decreases g.edges.Keys - visited, 1
    {
      hide Inv, Grows, NoneOverdue, Needed, NewBlack, Reach;
      ghost var s := Snap();
      if o in visited {
        GrowsRefl(g, s);
        NewBlackRefl(g, s);
        return;
      }
      VisitKeeps(g, roots, s, o);
      ReachHere(g, o);
      visited, queue := visited + {o}, if o in g.large then queue else queue + [o];
      ghost var s1 := Snap();
      if check {
        ResolvePending(roots, o);
        GrowsTrans(g, s, s1, Snap());
      } else {
        NoneOverdueLazily(g, s1);
      }
      ghost var s2 := Snap();
      if o in g.large {
        TraceLarge(roots, o);
        GrowsTrans(g, s, s2, Snap());
        GrowsVisited(g, s2, Snap());
      }
      OneVisited(g, s, s2, Snap(), o);
    }

    /** The end of visit_large_object_space: gc_trace_object. */
    method TraceLarge(ghost roots: set<Obj>, o: Obj)
      requires Working(roots) && o in g.edges && Needed(g, roots, o) && o in g.large && o in visited
      modifies this
      ensures Working(roots) && Grows(g, old(Snap()), Snap()) && o in black
      ensures NewBlack(g, old(Snap()), Snap()) && visited <= old(visited) + Reach(g, o)
      decreases g.edges.Keys - visited, 2
    {
      hide Inv, Grows, NoneOverdue, Needed, NewBlack, Reach;
      ghost var s := Snap();
      GrowsRefl(g, s);
      NewBlackRefl(g, s);
      var k := 0;
      while k < |g.edges[o]|
        invariant Working(roots) && Grows(g, s, Snap()) && NewBlack(g, s, Snap()) && k <= |g.edges[o]|
        invariant s.visited <= visited <= s.visited + Reach(g, o)
        invariant forall i :: 0 <= i < k ==> g.edges[o][i] in visited
      {
        ghost var s1 := Snap();
        var t := g.edges[o][k];
        assert t in g.edges[o];
        EdgeNeeded(g, roots, o, t);
        EdgeThere(g, roots, s1, o, t);
        ReachEdge(g, o, t);
        Visit(roots, t);
        GrowsTrans(g, s, s1, Snap());
        NewBlackTrans(g, s, s1, Snap());
        GrowsVisited(g, s1, Snap());
        k := k + 1;
      }
      ghost var s1 := Snap();
      GrowsVisited(g, s, s1);
      TracedKeeps(g, roots, s1, o);
      GrowsTrans(g, s, s1, TracedState(s1, o));
      NewBlackRest(g, s, s1, o);
      black := black + {o};
    }

    /** gc_trace_object on the first grey object; for an ephemeron, gc_trace_ephemeron.  Its recheck of the
        key cannot find anything new here, as nobody else marks. */
    method ScanNext(ghost roots: set<Obj>)
      requires Settled(roots) && grey < |queue|
      modifies this
      ensures Settled(roots) && grey == old(grey) + 1 <= |queue| && old(visited) <= visited
      ensures check == old(check) && batch == old(batch) && finished == old(finished)
    {
      hide Inv, Grows, NoneOverdue, Needed, LargeBlack;
      ghost var s := Snap();
      HeadOk(g, roots, s);
      var o := queue[grey];
      VisitEdges(roots, o);
      GrowsFacts(g, s, Snap());
      ghost var s1 := Snap();
      var pending := TraceEphemeron(roots, o);
      GrowsFacts(g, s1, Snap());
      DeadSame(g, roots, Snap());
      ScannedKeeps(g, roots, Snap(), pending);
      ScannedBlack(g, Snap(), o, pending);
      if pending {
        var b := g.hash(g.key[o]);
        st, buckets := st[o := Pending], buckets[b := [o] + buckets[b]];
      }
      grey, black := grey + 1, black + {o};
    }

    /** The fields of a small object. */
    method VisitEdges(ghost roots: set<Obj>, o: Obj)
      requires Settled(roots) && o in g.edges && Needed(g, roots, o) && forall t :: t in g.edges[o] ==> t in g.edges
      modifies this
      ensures Settled(roots) && Grows(g, old(Snap()), Snap()) && forall t :: t in g.edges[o] ==> t in visited
    {
      hide Inv, Grows, NoneOverdue, Needed, LargeBlack;
      ghost var s := Snap();
      GrowsRefl(g, s);
      var k := 0;
      while k < |g.edges[o]|
        invariant Settled(roots) && Grows(g, s, Snap()) && k <= |g.edges[o]|
        invariant forall i :: 0 <= i < k ==> g.edges[o][i] in visited
      {
        ghost var s1 := Snap();
        assert g.edges[o][k] in g.edges[o];
        EdgeNeeded(g, roots, o, g.edges[o][k]);
        Visit(roots, g.edges[o][k]);
        NewBlackKeeps(g, s1, Snap());
        GrowsTrans(g, s, s1, Snap());
        GrowsVisited(g, s1, Snap());
        k := k + 1;
      }
    }

    /** What gc_trace_ephemeron does with the value; `pending` is whether the ephemeron must wait for its key. */
    method TraceEphemeron(ghost roots: set<Obj>, o: Obj) returns (pending: bool)
      requires Settled(roots) && o in g.edges && Needed(g, roots, o)
      requires o in g.key ==> o in g.value && g.key[o] in g.edges && g.value[o] in g.edges
      modifies this
      ensures Settled(roots) && Grows(g, old(Snap()), Snap())
      ensures pending <==> o in g.key && o !in g.dead && g.key[o] !in visited
      ensures !pending && o in g.key && o !in g.dead ==> g.value[o] in visited
    {
      hide Inv, Grows, NoneOverdue, Needed, LargeBlack;
      ghost var s := Snap();
      GrowsRefl(g, s);
      DeadSame(g, roots, s);
      pending := false;
      if o in g.key && o !in dead {
        if g.key[o] in visited {
          VisitedNeeded(g, roots, s, g.key[o]);
          ValueNeeded(g, roots, o);
          Visit(roots, g.value[o]);
          NewBlackKeeps(g, s, Snap());
          GrowsVisited(g, s, Snap());
        } else {
          pending := true;
        }
      }
    }

    method TraceClosure(ghost roots: set<Obj>)
      requires Settled(roots)
      modifies this
      ensures Settled(roots) && grey == |queue| && old(visited) <= visited
      ensures check == old(check) && batch == old(batch) && finished == old(finished)
    {
      hide Inv, Grows, NoneOverdue, Needed;
      QueueBound(g, roots, Snap());
      QueueShape(g, roots, Snap());
      while grey < |queue|
        invariant Settled(roots) && old(visited) <= visited && grey <= |queue| <= |g.edges.Keys|
        invariant check == old(check) && batch == old(batch) && finished == old(finished)
        decreases |g.edges.Keys| - grey
      {
        ScanNext(roots);
        QueueBound(g, roots, Snap());
      }
    }

    /** The ephemerons of bucket `b` whose keys have been visited. */
    method ScanBucket(ghost roots: set<Obj>, b: nat)
      requires Inv(g, roots, Snap()) && b < |buckets|
      modifies this
      ensures Inv(g, roots, Snap()) && Grows(g, old(Snap()), Snap()) && visited == old(visited) && queue == old(queue)
      ensures forall e :: e in buckets[b] && e in g.key && g.key[e] in visited ==> !StOf(Snap(), e).Pending?
    {
      hide Inv, Grows;
      ghost var s := Snap();
      GrowsRefl(g, s);
      var i := 0;
      while i < |buckets[b]|
        invariant b < |buckets| && i <= |buckets[b]| && buckets == s.buckets && visited == s.visited && queue == s.queue
        invariant Inv(g, roots, Snap()) && Grows(g, s, Snap())
        invariant forall k :: 0 <= k < i && buckets[b][k] in g.key && g.key[buckets[b][k]] in visited ==>
                              !StOf(Snap(), buckets[b][k]).Pending?
        decreases |s.buckets[b]| - i
      {
        var e := buckets[b][i];
        ghost var s1 := Snap();
        InBucketIsEph(g, roots, s1, b, i);
        if g.key[e] in visited && e in st && st[e] == Pending {
          ResolveKeeps(g, roots, s1, e);
          GrowsTrans(g, s, s1, ResolveState(s1, e));
          st, resolved := st[e := Resolved], [e] + resolved;
        }
        i := i + 1;
      }
    }

    /** gc_scan_pending_ephemerons, and the switch to eager resolution. */
    method ScanPending(ghost roots: set<Obj>)
      requires Settled(roots) && !check
      modifies this
      ensures Settled(roots) && check && visited == old(visited) && grey == old(grey) && queue == old(queue)
      ensures batch == old(batch) && finished == old(finished)
    {
      hide Inv, Grows, NoneOverdue;
      ghost var s := Snap();
      GrowsRefl(g, s);
      var b := 0;
      while b < |buckets|
        invariant b <= |buckets| && buckets == s.buckets && visited == s.visited && queue == s.queue
        invariant Inv(g, roots, Snap()) && Grows(g, s, Snap())
        invariant forall a, e :: 0 <= a < b && e in buckets[a] && e in g.key && g.key[e] in visited ==> !StOf(Snap(), e).Pending?
        decreases |s.buckets| - b
      {
        ghost var s1 := Snap();
        ScanBucket(roots, b);
        GrowsTrans(g, s, s1, Snap());
        GrowsFacts(g, s1, Snap());
        StillNotPending(g, s1, Snap(), b);
        b := b + 1;
      }
      GrowsFacts(g, s, Snap());
      NowEager(g, roots, Snap());
      check := true;
    }

    /** resolve_ephemerons */
    method ResolveEphemerons(ghost roots: set<Obj>)
      requires Settled(roots) && grey == |queue| && batch == [] && check
      modifies this
      ensures Settled(roots) && grey == |queue| && batch == [] && resolved == [] && check && old(visited) <= visited
    {
      hide Inv, Grows, NoneOverdue, Needed;
      while resolved != []
        invariant Settled(roots) && grey == |queue| && batch == [] && check && old(visited) <= visited
        decreases g.edges.Keys - finished
      {
        ghost var before := finished;
        TakeKeeps(g, roots, Snap());
        var list := resolved;
        batch, resolved := list, [];
        var i := 0;
        while i < |list|
          invariant Settled(roots) && i <= |list| && batch == list[i..] && check && old(visited) <= visited
          invariant before <= finished && (i > 0 ==> exists e :: e in finished && e !in before && e in g.edges)
        {
          var e := list[i];
          ghost var s1 := Snap();
          BatchHead(g, roots, s1);
          assert i == 0 ==> e !in before;
          Visit(roots, g.value[e]);
          NewBlackKeeps(g, s1, Snap());
          GrowsFacts(g, s1, Snap());
          FinishedKeeps(g, roots, Snap());
          st := st[e := Traced];
          batch, finished := batch[1..], finished + {e};
          assert e in finished && e in g.edges;
          i := i + 1;
        }
        TraceClosure(roots);
      }
    }

    method VisitAll(ghost roots: set<Obj>, q: seq<Obj>)
      requires Settled(roots) && forall o :: o in q ==> o in g.edges && o in roots
      modifies this
      ensures Settled(roots) && Grows(g, old(Snap()), Snap()) && Elements(q) <= visited
    {
      hide Inv, Grows, NoneOverdue, Needed;
      ghost var s := Snap();
      GrowsRefl(g, s);
      var i := 0;
      while i < |q|
        invariant Settled(roots) && Grows(g, s, Snap()) && i <= |q| && forall k :: 0 <= k < i ==> q[k] in visited
      {
        ghost var s1 := Snap();
        RootNeeded(g, roots, q[i]);
        Visit(roots, q[i]);
        NewBlackKeeps(g, s1, Snap());
        GrowsTrans(g, s, s1, Snap());
        GrowsVisited(g, s1, Snap());
        i := i + 1;
      }
    }

    /** gc_resolve_finalizers, with the collector's own visit: firing the finalizer of a large object visits
        what that refers to before the next finalizer is looked at. */
    method FireTable(fin: F.FinalizerState, ghost roots: set<Obj>, p: nat) returns (fired: bool)
      requires Settled(roots) && fin.Valid() && p < |fin.tables| && TargetsOk(g, fin.target)
      requires F.Objects(F.Flat(fin.tables[p].buckets), fin.target) - visited <= roots
      modifies this, fin
      ensures Settled(roots) && Grows(g, old(Snap()), Snap()) && (!fired ==> Snap() == old(Snap()))
      ensures fin.Valid() && fin.target == old(fin.target) && |fin.tables| == |old(fin.tables)| && fin.popped == old(fin.popped)
      ensures forall q :: 0 <= q < |fin.tables| && q != p ==> fin.tables[q] == old(fin.tables)[q]
      ensures var order := F.Flat(old(fin.tables)[p].buckets);
        var r := F.Resolve(order, fin.target, old(visited), Reaching(g));
        && fin.fired == F.PushAll(old(fin.fired), r.fired) && F.Entries(fin.tables[p]) == multiset(r.kept)
        && visited == r.visited && F.Objects(order, fin.target) <= visited
    {
      hide Inv, Grows, NoneOverdue, Needed, LargeBlack, Reach, F.StateOk, F.Resolve, F.PushAll, F.SetFired, F.Flat, F.Entries,
        F.Progress, F.Targets, F.Objects, F.TableOk;
      ghost var s, order := Snap(), F.Flat(fin.tables[p].buckets);
      F.TableShape(fin.tables, fin.fired, fin.popped, fin.state, fin.target, p);
      var buckets := fin.tables[p].buckets;
      var scratch, newFired, toVisit, st := F.EmptyTable(), fin.fired, [], fin.state;
      F.ProgressStarts(fin.target, fin.fired, fin.state, visited, Reaching(g));
      GrowsRefl(g, s);
      assert buckets[..0] == [];
      var b := 0;
      while b < F.BucketCount
        invariant b <= F.BucketCount == |buckets| && |scratch.buckets| == F.BucketCount
        invariant Settled(roots) && Grows(g, s, Snap()) && (toVisit == [] ==> Snap() == s)
        invariant F.Progress(fin.target, fin.fired, fin.state, s.visited, Reaching(g), F.Flat(buckets[..b]), scratch, newFired,
                             toVisit, visited, st)
        modifies this
      {
        ghost var before := F.Flat(buckets[..b]);
        assert before + buckets[b][..0] == before;
        var i := 0;
        while i < |buckets[b]|
          invariant i <= |buckets[b]| && |scratch.buckets| == F.BucketCount
          invariant Settled(roots) && Grows(g, s, Snap()) && (toVisit == [] ==> Snap() == s)
          invariant F.Progress(fin.target, fin.fired, fin.state, s.visited, Reaching(g), before + buckets[b][..i], scratch,
                               newFired, toVisit, visited, st)
          modifies this
        {
          var f := buckets[b][i];
          ghost var prefix := before + buckets[b][..i];
          assert before + buckets[b][..i + 1] == prefix + [f];
          if f !in fin.target || fin.target[f] in visited {
            F.ProgressKept(fin.target, fin.fired, fin.state, s.visited, Reaching(g), prefix, scratch, newFired, toVisit, visited,
                           st, f);
            scratch := F.AddTo(scratch, f);
          } else {
            F.ProgressFired(fin.target, fin.fired, fin.state, s.visited, Reaching(g), prefix, scratch, newFired, toVisit, visited,
                            st, f);
            F.FlatHas(buckets, b, i);
            GrowsVisited(g, s, Snap());
            F.InObjects(order, fin.target, f);
            VisitMore(s, roots, fin.target[f]);
            toVisit := toVisit + [fin.target[f]];
            newFired := [f] + newFired;
            st := st[f := F.Fired];
          }
          i := i + 1;
        }
        assert buckets[b][..i] == buckets[b];
        F.FlatNext(buckets, b);
        b := b + 1;
      }
      assert buckets[..b] == buckets;
      ReachOk(g);
      F.ObjectsVisited(order, fin.target, s.visited, Reaching(g));
      F.ProgressEnds(fin.target, fin.fired, fin.state, s.visited, Reaching(g), order, scratch, newFired, toVisit, visited, st);
      fired := |toVisit| > 0;
      fin.Commit(p, scratch, newFired, st, toVisit, s.visited, Reaching(g), visited);
    }

    /** A visit of an object that has not been visited marks exactly what it reaches at once. */
    method VisitMore(ghost s: State, ghost roots: set<Obj>, o: Obj)
      requires Settled(roots) && Grows(g, s, Snap()) && o in g.edges && o in roots
      modifies this
      ensures Settled(roots) && Grows(g, s, Snap()) && visited == old(visited) + Reach(g, o)
    {
      hide Inv, Grows, NoneOverdue, Needed, Reach, LargeBlack, LargeClosed;
      ghost var s1 := Snap();
      RootNeeded(g, roots, o);
      Visit(roots, o);
      NewBlackKeeps(g, s1, Snap());
      GrowsTrans(g, s, s1, Snap());
      GrowsVisited(g, s1, Snap());
      SettledClosed(g, roots, Snap());
      ReachWithin(g, o, visited);
    }

    /** One turn of resolve_finalizers. */
    method ResolveFinalizers(fin: F.FinalizerState, ghost roots: set<Obj>, p: nat) returns (ghost roots': set<Obj>)
      requires Complete(g, roots, Snap()) && fin.Valid() && p < |fin.tables| && TargetsOk(g, fin.target)
      modifies this, fin
      ensures roots' == roots + (F.Objects(F.Flat(old(fin.tables)[p].buckets), fin.target) - old(visited))
      ensures Complete(g, roots', Snap()) && old(visited) <= visited
      ensures fin.Valid() && fin.target == old(fin.target) && |fin.tables| == |old(fin.tables)| && fin.popped == old(fin.popped)
      ensures forall q :: 0 <= q < |fin.tables| && q != p ==> fin.tables[q] == old(fin.tables)[q]
      ensures var r := F.Resolve(F.Flat(old(fin.tables)[p].buckets), fin.target, old(visited), Reaching(g));
        && fin.fired == F.PushAll(old(fin.fired), r.fired) && F.Entries(fin.tables[p]) == multiset(r.kept)
    {
      hide Inv, Grows, NoneOverdue, Needed, LargeBlack, Reach, F.StateOk, F.Resolve, F.PushAll, F.Flat, F.Entries, F.Objects;
      roots' := roots + (F.Objects(F.Flat(fin.tables[p].buckets), fin.target) - visited);
      MoreRoots(g, roots, roots', Snap());
      ghost var s := Snap();
      var fired := FireTable(fin, roots', p);
      GrowsFacts(g, s, Snap());
      if fired {
        TraceClosure(roots');
        ResolveEphemerons(roots');
      }
    }

    /** gc_sweep_pending_ephemerons */
    method Sweep(ghost roots: set<Obj>)
      requires Complete(g, roots, Snap())
      modifies this
      ensures Swept(g, old(Snap()), Snap()) && forall b :: 0 <= b < |buckets| ==> buckets[b] == []
    {
      hide Complete, Inv, NoneOverdue;
      ghost var s := Snap();
      ghost var seen: set<Obj> := {};
      forall e ensures CompleteFacts(g, s, e) { CompleteStates(g, roots, s, e); }
      var b := 0;
      while b < |buckets|
        invariant b <= |buckets| == |s.buckets| && visited == s.visited
        invariant forall a :: 0 <= a < |buckets| ==> buckets[a] == if a < b then [] else s.buckets[a]
        invariant forall a, e :: 0 <= a < b && e in s.buckets[a] ==> e in seen
        invariant forall e :: SweptSoFar(s, Snap(), seen, e)
        decreases |s.buckets| - b
      {
        seen := SweepBucket(s, b, seen);
        ghost var s1 := Snap();
        buckets := buckets[b := []];
        forall e ensures SweptSoFar(s, Snap(), seen, e) { assert SweptSoFar(s, s1, seen, e); }
        b := b + 1;
      }
      forall e | e in g.key && e in s.visited
        ensures StOf(Snap(), e).Traced? && (e in dead <==> e in g.dead || g.key[e] !in s.visited)
      {
        assert CompleteFacts(g, s, e) && SweptSoFar(s, Snap(), seen, e);
      }
    }

    method SweepBucket(ghost s: State, b: nat, ghost seen0: set<Obj>) returns (ghost seen: set<Obj>)
      requires b < |buckets| == |s.buckets| && buckets[b] == s.buckets[b]
      requires forall e :: SweptSoFar(s, Snap(), seen0, e)
      modifies this
      ensures visited == old(visited) && buckets == old(buckets)
      ensures seen0 <= seen && forall e :: e in s.buckets[b] ==> e in seen
      ensures forall e :: SweptSoFar(s, Snap(), seen, e)
    {
      seen := seen0;
      var i := 0;
      while i < |buckets[b]|
        invariant i <= |s.buckets[b]| && visited == old(visited) && buckets == old(buckets)
        invariant seen0 <= seen && forall k :: 0 <= k < i ==> s.buckets[b][k] in seen
        invariant forall e :: SweptSoFar(s, Snap(), seen, e)
        decreases |s.buckets[b]| - i
      {
        var e := buckets[b][i];
        ghost var s1, seen1 := Snap(), seen;
        if e in st && st[e] == Pending {
          dead := dead + {e};
          st := st[e := Traced];
        }
        seen := seen + {e};
        forall d ensures SweptSoFar(s, Snap(), seen, d) { assert SweptSoFar(s, s1, seen1, d); }
        i := i + 1;
      }
    }

    /** Nothing left over from the last cycle. */
    ghost predicate Ready()
      reads this
    {
      GraphOk(g) && Snap() == FreshState(g)
    }

    /** Tracing from the roots, and the ephemerons that this settles. */
    method TraceLive(rootList: seq<Obj>)
      requires Ready() && forall o :: o in rootList ==> o in g.edges
      modifies this
      ensures Complete(g, Elements(rootList), Snap())
    {
      hide Inv, Grows, NoneOverdue, Needed;
      ghost var roots, s := Elements(rootList), Snap();
      FreshOk(g, roots);
      VisitAll(roots, rootList);
      GrowsFacts(g, s, Snap());
      TraceClosure(roots);
      ScanPending(roots);
      ResolveEphemerons(roots);
    }

    /** The whole cycle.  What is kept at the end is settled, stage by stage, by the heap, the roots and
        the finalizer tables alone; an ephemeron that is kept ends up dead just when it was dead
        before or its key is not kept, finalizer resurrection included.  Priority by priority, the finalizers
        that fire are pushed on the fired list and the others stay. */
    method Collect(fin: F.FinalizerState, rootList: seq<Obj>) returns (ghost kept: seq<set<Obj>>)
      requires Ready() && fin.Valid() && TargetsOk(g, fin.target) && forall o :: o in rootList ==> o in g.edges
      modifies this, fin
      ensures Stages(g, Elements(rootList), Wanted(old(fin.tables), old(fin.target)), kept)
      ensures visited == kept[|kept| - 1]
      ensures forall e :: e in g.key && e in visited ==>
        StOf(Snap(), e).Traced? && (e in dead <==> e in g.dead || g.key[e] !in visited)
      ensures fin.Valid() && fin.target == old(fin.target) && fin.popped == old(fin.popped)
      ensures |fin.tables| == |old(fin.tables)| == |kept| - 1
      ensures fin.fired == FiredList(g, old(fin.fired), old(fin.tables), fin.target, kept, |fin.tables|)
      ensures forall p :: 0 <= p < |fin.tables| ==>
        F.Entries(fin.tables[p]) == multiset(ResolutionAt(g, old(fin.tables)[p], fin.target, kept[p]).kept)
    {
      hide Inv, Grows, NoneOverdue, Needed, Least, F.StateOk, F.Resolve, F.PushAll, F.Flat, F.Entries, Resurrected, Complete,
        StagesTo, FiredList;
      ghost var roots0 := Elements(rootList);
      ghost var roots := roots0;
      TraceLive(rootList);
      CompleteIsLeast(g, roots, Snap());
      kept := [visited];
      ghost var wanted := Wanted(fin.tables, fin.target);
      FirstStage(g, roots0, wanted, visited);
      FiredNone(g, fin.fired, fin.tables, fin.target, kept);
      var p := 0;
      while p < |fin.tables|
        invariant Complete(g, roots, Snap()) && fin.Valid() && fin.target == old(fin.target)
        invariant p <= |fin.tables| == |old(fin.tables)| == |wanted| && |kept| == p + 1 && visited == kept[p]
        invariant forall q :: p <= q < |fin.tables| ==> fin.tables[q] == old(fin.tables)[q]
        invariant roots == roots0 + Resurrected(wanted, kept, p) && StagesTo(g, roots0, wanted, kept, p)
        invariant fin.popped == old(fin.popped)
        invariant fin.fired == FiredList(g, old(fin.fired), old(fin.tables), fin.target, kept, p)
        invariant forall q :: 0 <= q < p ==>
          F.Entries(fin.tables[q]) == multiset(ResolutionAt(g, old(fin.tables)[q], fin.target, kept[q]).kept)
        decreases |old(fin.tables)| - p
      {
        roots := ResolveFinalizers(fin, roots, p);
        CompleteIsLeast(g, roots, Snap());
        NextStage(g, roots0, wanted, kept, p, visited);
        FiredNext(g, old(fin.fired), old(fin.tables), fin.target, kept, p, visited);
        kept := kept + [visited];
        p := p + 1;
      }
      StagesDone(g, roots0, wanted, kept);
      Sweep(roots);
    }
  }

  function FreshState(g: Graph): State {
    State({}, [], 0, map[], g.dead, seq(g.nbuckets, _ => []), [], false, {}, [], {})
  }

  lemma FreshOk(g: Graph, roots: set<Obj>)
    requires GraphOk(g)
    ensures Inv(g, roots, FreshState(g)) && NoneOverdue(g, FreshState(g))
  {
  }

  ghost predicate StagesTo(g: Graph, roots: set<Obj>, wanted: seq<set<Obj>>, kept: seq<set<Obj>>, n: nat) {
    n < |kept| && n <= |wanted| && forall p :: 0 <= p <= n ==> Least(g, roots + Resurrected(wanted, kept, p), kept[p])
  }

  lemma FirstStage(g: Graph, roots: set<Obj>, wanted: seq<set<Obj>>, s: set<Obj>)
    requires Least(g, roots, s)
    ensures StagesTo(g, roots, wanted, [s], 0) && roots == roots + Resurrected(wanted, [s], 0)
  {
    assert roots + {} == roots;
  }

  lemma NextStage(g: Graph, roots: set<Obj>, wanted: seq<set<Obj>>, kept: seq<set<Obj>>, n: nat, s: set<Obj>)
    requires StagesTo(g, roots, wanted, kept, n) && |kept| == n + 1 && n < |wanted|
    requires Least(g, roots + Resurrected(wanted, kept, n) + (wanted[n] - kept[n]), s)
    ensures StagesTo(g, roots, wanted, kept + [s], n + 1)
    ensures roots + Resurrected(wanted, kept, n) + (wanted[n] - kept[n]) == roots + Resurrected(wanted, kept + [s], n + 1)
  {
    hide Least;
    var kept' := kept + [s];
    ResurrectedPrefix(wanted, kept, kept', n);
    assert roots + Resurrected(wanted, kept, n) + (wanted[n] - kept[n]) == roots + Resurrected(wanted, kept', n + 1);
    forall p | 0 <= p <= n + 1 ensures Least(g, roots + Resurrected(wanted, kept', p), kept'[p]) {
      if p <= n { ResurrectedPrefix(wanted, kept, kept', p); }
    }
  }

  lemma StagesDone(g: Graph, roots: set<Obj>, wanted: seq<set<Obj>>, kept: seq<set<Obj>>)
    requires StagesTo(g, roots, wanted, kept, |wanted|) && |kept| == |wanted| + 1
    ensures Stages(g, roots, wanted, kept)
  {
  }

  /** What the sweep starts from, for one ephemeron. */
  ghost predicate CompleteFacts(g: Graph, s: State, e: Obj) {
    && !StOf(s, e).Resolved? && s.dead == g.dead
    && (StOf(s, e).Pending? ==> InBucket(s, BucketOf(g, e), e))
    && (e in g.key && e in s.visited && e !in g.dead ==> (StOf(s, e).Pending? <==> g.key[e] !in s.visited))
    && (e in s.visited && e in g.dead ==> StOf(s, e).Traced?)
  }

  /** The sweep has come by the ephemerons of `seen`. */
  ghost predicate SweptSoFar(s: State, s': State, seen: set<Obj>, e: Obj) {
    && StOf(s', e) == (if e in seen && StOf(s, e).Pending? then Traced else StOf(s, e))
    && (e in s'.dead <==> e in s.dead || (e in seen && StOf(s, e).Pending?))
  }

  lemma ReachHere(g: Graph, o: Obj)
    ensures o in Reach(g, o)
  {
  }

  lemma NewBlackRefl(g: Graph, s: State)
    ensures NewBlack(g, s, s)
  {
  }

  lemma NewBlackRest(g: Graph, s: State, s1: State, o: Obj)
    requires NewBlack(g, s, s1)
    ensures NewBlack(g, s, TracedState(s1, o))
  {
  }

  lemma EdgeThere(g: Graph, roots: set<Obj>, s: State, o: Obj, t: Obj)
    requires Inv(g, roots, s) && o in g.edges && t in g.edges[o]
    ensures t in g.edges
  {
  }

  /** The object itself is the only one that its visit had not finished with when it was traced. */
  lemma OneVisited(g: Graph, s: State, s2: State, s3: State, o: Obj)
    requires s2.visited == s.visited + {o} && Grows(g, s, s3)
    requires if o in g.large then o in s3.black && NewBlack(g, s2, s3) else s3 == s2
    ensures NewBlack(g, s, s3)
  {
  }

  lemma GrowsVisited(g: Graph, s: State, s': State)
    requires Grows(g, s, s')
    ensures s.visited <= s'.visited
  {
  }

  lemma GrowsFacts(g: Graph, s: State, s': State)
    requires Grows(g, s, s')
    ensures s.visited <= s'.visited && s'.grey == s.grey && s.black <= s'.black && s'.dead == s.dead
    ensures s'.buckets == s.buckets && s'.check == s.check && s'.batch == s.batch && s'.finished == s.finished
    ensures |s.queue| <= |s'.queue| && forall i :: 0 <= i < |s.queue| ==> s'.queue[i] == s.queue[i]
  {
  }

  lemma DeadSame(g: Graph, roots: set<Obj>, s: State)
    requires Inv(g, roots, s)
    ensures s.dead == g.dead && forall e :: e in g.key <==> e in g.value
  {
  }

  lemma QueueShape(g: Graph, roots: set<Obj>, s: State)
    requires Inv(g, roots, s)
    ensures s.grey <= |s.queue|
  {
  }

  lemma StillNotPending(g: Graph, s: State, s': State, b: nat)
    requires Grows(g, s, s') && b <= |s.buckets|
    requires forall a, e :: 0 <= a < b && e in s.buckets[a] && e in g.key && g.key[e] in s.visited ==> !StOf(s, e).Pending?
    requires s'.visited == s.visited
    ensures forall a, e :: 0 <= a < b && e in s.buckets[a] && e in g.key && g.key[e] in s.visited ==> !StOf(s', e).Pending?
  {
    forall a, e | 0 <= a < b && e in s.buckets[a] && e in g.key && g.key[e] in s.visited ensures !StOf(s', e).Pending? {
      assert StOf(s', e) == StOf(s, e) || (StOf(s, e).Pending? && StOf(s', e).Resolved?);
    }
  }

  lemma NowEager(g: Graph, roots: set<Obj>, s: State)
    requires Inv(g, roots, s)
    requires forall a, e :: 0 <= a < |s.buckets| && e in s.buckets[a] && e in g.key && g.key[e] in s.visited ==> !StOf(s, e).Pending?
    ensures Inv(g, roots, s.(check := true)) && NoneOverdue(g, s.(check := true))
  {
    hide Needed;
    var s' := s.(check := true);
    forall x ensures EdgesInv(g, s', x) { assert EdgesInv(g, s, x); }
    forall e ensures EphInv(g, s', e) && !Overdue(g, s', e) { assert EphInv(g, s, e); }
  }

  lemma GrowsRefl(g: Graph, s: State)
    ensures Grows(g, s, s)
  {
  }

  lemma InBucketIsEph(g: Graph, roots: set<Obj>, s: State, b: nat, i: nat)
    requires Inv(g, roots, s) && b < |s.buckets| && i < |s.buckets[b]|
    ensures s.buckets[b][i] in g.key
  {
  }

  lemma NoneOverdueLazily(g: Graph, s: State)
    requires !s.check
    ensures NoneOverdue(g, s)
  {
  }

  /** One step along the bucket of `o`. */
  lemma WalkOn(g: Graph, s: State, s': State, o: Obj, i: nat)
    requires OverdueFrom(g, s, o, i) && i < |s.buckets[g.hash(o)]|
    requires var e := s.buckets[g.hash(o)][i];
      s' == if e in g.key && g.key[e] == o && StOf(s, e).Pending? then ResolveState(s, e) else s
    ensures OverdueFrom(g, s', o, i + 1)
  {
    var list := s.buckets[g.hash(o)];
    forall d | Overdue(g, s', d) ensures g.key[d] == o && d in list[i + 1..] {
      assert Overdue(g, s, d);
      assert list[i..] == [list[i]] + list[i + 1..];
    }
  }
}
