/**
  The large-object space of src/large-object-space.h: a tree of spans, a map from addresses to the
  same nodes, and a quarantine of dead nodes by size class, which must agree.

  Nodes are objects that all three indexes refer to.  The splay tree is the set of its nodes here.
  Each method is one section under the space's lock.
*/
module LargeObjectSpace {
  import H = GcHistogram

  const NUM_CLASSES := 253
  const NURSERY := 0
  const MARK_0 := 1
  const MARK_1 := 3

  function Toggled(mark: nat): nat {
    if mark == MARK_0 then MARK_1 else MARK_0
  }

  function SizeClass(size: nat): nat {
    H.Bucket(63, 2, size)
  }

  lemma SizeClassBound(size: nat)
    ensures SizeClass(size) < NUM_CLASSES
  {
    assert H.Pow2(2) == 4 by {
      assert H.Pow2(1) == 2;
    }
  }

  // ---------- The three indexes ----------

  datatype Info = Info(addr: nat, size: nat, live: bool, mark: nat, age: nat)

  /** The state with the fields of all nodes, for any type of reference to nodes. */
  datatype Space<N> = Space(info: map<N, Info>, byAddr: map<nat, N>, quarantine: seq<seq<N>>, nursery: map<nat, N>)

  ghost predicate Apart(a: Info, b: Info) {
    a.addr + a.size <= b.addr || b.addr + b.size <= a.addr
  }

  ghost predicate SpansOk<N>(s: Space<N>, page: nat) {
    && (forall n :: n in s.info ==> s.info[n].size > 0 && exists k: nat :: IsPages(s.info[n].size, page, k))
    && (forall a, b :: a in s.info && b in s.info && a != b ==> Apart(s.info[a], s.info[b]))
  }

  predicate IsPages(size: nat, page: nat, k: nat) {
    size == page * k
  }

  ghost predicate MapOk<N>(s: Space<N>) {
    && (forall x :: x in s.byAddr ==> s.byAddr[x] in s.info && s.info[s.byAddr[x]].addr == x)
    && (forall n :: n in s.info ==> s.info[n].addr in s.byAddr && s.byAddr[s.info[n].addr] == n)
  }

  ghost predicate DeadIn<N>(s: Space<N>, n: N, i: nat) {
    n in s.info && !s.info[n].live && SizeClass(s.info[n].size) == i
  }

  ghost predicate Unique<N>(list: seq<N>) {
    forall j, k :: 0 <= j < k < |list| ==> list[j] != list[k]
  }

  ghost predicate QuarantineOk<N>(s: Space<N>) {
    && |s.quarantine| == NUM_CLASSES
    && (forall i, n :: 0 <= i < NUM_CLASSES && n in s.quarantine[i] ==> DeadIn(s, n, i))
    && (forall i, n :: 0 <= i < NUM_CLASSES && n in s.info && DeadIn(s, n, i) ==> n in s.quarantine[i])
    && (forall i :: 0 <= i < NUM_CLASSES ==> Unique(s.quarantine[i]))
  }

  ghost predicate NurseryOk<N>(s: Space<N>) {
    forall x :: x in s.nursery ==> x in s.byAddr && s.byAddr[x] == s.nursery[x] && s.nursery[x] in s.info &&
                                   s.info[s.nursery[x]].live
  }

  ghost predicate Ok<N>(s: Space<N>, page: nat) {
    SpansOk(s, page) && MapOk(s) && QuarantineOk(s) && NurseryOk(s)
  }

  /** What the addresses mean. */
  ghost function View<N>(s: Space<N>): map<nat, Info>
    requires MapOk(s)
  {
    map x | x in s.byAddr :: s.info[s.byAddr[x]]
  }

  ghost predicate Covered(v: map<nat, Info>, x: nat) {
    exists a :: a in v && v[a].addr <= x < v[a].addr + v[a].size
  }

  // ---------- Steps ----------

  function Without<N>(list: seq<N>, j: nat): (r: seq<N>)
    requires j < |list|
    ensures |r| == |list| - 1
  {
    list[..j] + list[j + 1..]
  }

  /** A dead node leaves the quarantine and is live. */
  ghost function Revive<N>(s: Space<N>, i: nat, j: nat): Space<N>
    requires i < |s.quarantine| && j < |s.quarantine[i]| && s.quarantine[i][j] in s.info
  {
    var n := s.quarantine[i][j];
    s.(quarantine := s.quarantine[i := Without(s.quarantine[i], j)],
       info := s.info[n := s.info[n].(live := true, mark := NURSERY, age := 0)])
  }

  /** A node gives its tail to a new, dead node. */
  ghost function Trim<N>(s: Space<N>, n: N, size: nat, tail: N): Space<N>
    requires n in s.info && s.info[n].size > size
    requires SizeClass(s.info[n].size - size) < |s.quarantine|
  {
    var d := s.info[n];
    var i := SizeClass(d.size - size);
    s.(info := s.info[n := d.(size := size)][tail := Info(d.addr + size, d.size - size, false, NURSERY, 0)],
       byAddr := s.byAddr[d.addr + size := tail],
       quarantine := s.quarantine[i := [tail] + s.quarantine[i]])
  }

  /** A live node goes to the quarantine. */
  ghost function Bury<N>(s: Space<N>, n: N): Space<N>
    requires n in s.info && SizeClass(s.info[n].size) < |s.quarantine|
  {
    var i := SizeClass(s.info[n].size);
    s.(info := s.info[n := s.info[n].(live := false, age := 0)],
       quarantine := s.quarantine[i := [n] + s.quarantine[i]])
  }

  /** A dead node is given back. */
  ghost function Drop<N>(s: Space<N>, i: nat, j: nat): Space<N>
    requires i < |s.quarantine| && j < |s.quarantine[i]| && s.quarantine[i][j] in s.info
  {
    var n := s.quarantine[i][j];
    s.(quarantine := s.quarantine[i := Without(s.quarantine[i], j)],
       byAddr := s.byAddr - {s.info[n].addr},
       info := s.info - {n})
  }

  ghost function Add<N>(s: Space<N>, n: N, addr: nat, size: nat): Space<N> {
    s.(info := s.info[n := Info(addr, size, true, NURSERY, 0)], byAddr := s.byAddr[addr := n])
  }

  lemma WithoutIs<N>(list: seq<N>, j: nat)
    requires j < |list| && Unique(list)
    ensures Unique(Without(list, j))
    ensures forall n :: n in Without(list, j) ==> n in list && n != list[j]
    ensures forall n :: n in list && n != list[j] ==> n in Without(list, j)
  {
    var w := Without(list, j);
    forall n | n in list && n != list[j] ensures n in w {
      var k :| 0 <= k < |list| && list[k] == n;
      assert w[if k < j then k else k - 1] == n;
    }
  }

  lemma DeadAt<N>(s: Space<N>, i: nat, j: nat)
    requires QuarantineOk(s) && i < NUM_CLASSES && j < |s.quarantine[i]|
    ensures s.quarantine[i][j] in s.info && DeadIn(s, s.quarantine[i][j], i)
  {
    hide SizeClass, Unique;
    assert s.quarantine[i][j] in s.quarantine[i];
  }

  lemma ReviveQuarantine<N>(s: Space<N>, i: nat, j: nat)
    requires QuarantineOk(s) && i < NUM_CLASSES && j < |s.quarantine[i]| && s.quarantine[i][j] in s.info
    ensures QuarantineOk(Revive(s, i, j))
  {
    hide SizeClass, Unique, Without;
    DeadAt(s, i, j);
    WithoutIs(s.quarantine[i], j);
    var s' := Revive(s, i, j);
    assert s'.quarantine[i] == Without(s.quarantine[i], j);
    assert forall k :: 0 <= k < NUM_CLASSES && k != i ==> s'.quarantine[k] == s.quarantine[k];
    forall k, a | 0 <= k < NUM_CLASSES && a in s'.quarantine[k] ensures DeadIn(s', a, k) {
      assert a in s.quarantine[k];
      assert DeadIn(s, a, k);
    }
    forall k, a | 0 <= k < NUM_CLASSES && a in s'.info && DeadIn(s', a, k) ensures a in s'.quarantine[k] {
      assert DeadIn(s, a, k);
    }
  }

  lemma ReviveOk<N>(s: Space<N>, page: nat, i: nat, j: nat)
    requires Ok(s, page) && i < NUM_CLASSES && j < |s.quarantine[i]|
    ensures s.quarantine[i][j] in s.info && Ok(Revive(s, i, j), page)
    ensures var d := s.info[s.quarantine[i][j]];
            !d.live && View(Revive(s, i, j)) == View(s)[d.addr := d.(live := true, mark := NURSERY, age := 0)]
  {
    hide SizeClass, Unique, Without, QuarantineOk, SpansOk, IsPages;
    QuarantineSize(s);
    DeadAt(s, i, j);
    ReviveQuarantine(s, i, j);
    SpansSame(s, Revive(s, i, j), page);
  }

  lemma SpansSame<N>(s: Space<N>, s': Space<N>, page: nat)
    requires SpansOk(s, page) && forall n :: n in s'.info ==> n in s.info
    requires forall n :: n in s'.info ==> s'.info[n].addr == s.info[n].addr && s'.info[n].size == s.info[n].size
    ensures SpansOk(s', page)
  {
    hide IsPages;
    forall a, b | a in s'.info && b in s'.info && a != b ensures Apart(s'.info[a], s'.info[b]) {
      assert Apart(s.info[a], s.info[b]);
    }
  }

  lemma QuarantineSize<N>(s: Space<N>)
    requires QuarantineOk(s)
    ensures |s.quarantine| == NUM_CLASSES
  {}

  lemma TrimPages(size: nat, part: nat, page: nat, k: nat, l: nat)
    requires IsPages(size, page, k) && IsPages(part, page, l) && part < size
    ensures l <= k && IsPages(size - part, page, k - l)
  {
    MulMonotone(page, k, l);
  }

  lemma MulMonotone(page: nat, k: nat, l: nat)
    ensures k <= l ==> page * k <= page * l
  {}

  lemma TrimSpans<N>(s: Space<N>, page: nat, n: N, size: nat, pages: nat, tail: N)
    requires SpansOk(s, page) && n in s.info && 0 < size < s.info[n].size && tail !in s.info && n != tail
    requires IsPages(size, page, pages) && |s.quarantine| == NUM_CLASSES
    requires SizeClass(s.info[n].size - size) < |s.quarantine|
    ensures SpansOk(Trim(s, n, size, tail), page)
  {
    hide SizeClass, IsPages;
    var k: nat :| IsPages(s.info[n].size, page, k);
    TrimPages(s.info[n].size, size, page, k, pages);
    var s' := Trim(s, n, size, tail);
    forall a, b | a in s'.info && b in s'.info && a != b ensures Apart(s'.info[a], s'.info[b]) {
      if a != n && a != tail {
        assert Apart(s.info[a], s.info[n]);
      }
      if b != n && b != tail {
        assert Apart(s.info[b], s.info[n]);
      }
      assert a in s.info && b in s.info ==> Apart(s.info[a], s.info[b]);
    }
    forall a | a in s'.info ensures s'.info[a].size > 0 && exists k: nat :: IsPages(s'.info[a].size, page, k) {
      if a == n || a == tail {
        assert a == n ==> IsPages(s'.info[a].size, page, pages);
        assert a == tail ==> IsPages(s'.info[a].size, page, k - pages);
      }
    }
  }

  lemma TrimQuarantine<N>(s: Space<N>, n: N, size: nat, tail: N)
    requires QuarantineOk(s) && n in s.info && s.info[n].live && s.info[n].size > size && tail !in s.info
    requires SizeClass(s.info[n].size - size) < |s.quarantine|
    ensures QuarantineOk(Trim(s, n, size, tail))
  {
    hide SizeClass, Unique;
    var i := SizeClass(s.info[n].size - size);
    var s' := Trim(s, n, size, tail);
    NotListed(s, tail, i);
    UniqueCons(s.quarantine[i], tail);
    forall k, a | 0 <= k < NUM_CLASSES && (a in s'.quarantine[k] || a in s'.info)
      ensures a in s'.quarantine[k] <==> a in s'.info && DeadIn(s', a, k)
    {
      assert a in s.quarantine[k] <==> a in s.info && DeadIn(s, a, k);
    }
  }

  lemma NotListed<N>(s: Space<N>, n: N, i: nat)
    requires QuarantineOk(s) && i < NUM_CLASSES && (n !in s.info || s.info[n].live)
    ensures n !in s.quarantine[i]
  {
    hide SizeClass, Unique;
  }

  lemma UniqueCons<N>(list: seq<N>, n: N)
    requires Unique(list) && n !in list
    ensures Unique([n] + list)
  {}

  lemma TrimOk<N>(s: Space<N>, page: nat, n: N, size: nat, pages: nat, tail: N)
    requires Ok(s, page) && n in s.info && s.info[n].live && 0 < size < s.info[n].size && tail !in s.info
    requires IsPages(size, page, pages)
    ensures |s.quarantine| == NUM_CLASSES > SizeClass(s.info[n].size - size)
    ensures Ok(Trim(s, n, size, tail), page)
    ensures var d := s.info[n];
            d.addr + size !in View(s) &&
            View(Trim(s, n, size, tail)) ==
            View(s)[d.addr := d.(size := size)]
                   [d.addr + size := Info(d.addr + size, d.size - size, false, NURSERY, 0)]
  {
    SizeClassBound(s.info[n].size - size);
    QuarantineSize(s);
    TrimQuarantine(s, n, size, tail);
    TrimSpans(s, page, n, size, pages, tail);
    NothingWithin(s, page, n, s.info[n].addr + size);
    hide SizeClass, QuarantineOk, IsPages, SpansOk, MapOk, NurseryOk, View, Trim;
    TrimMap(s, n, size, tail);
  }

  /** No span begins inside another. */
  lemma NothingWithin<N>(s: Space<N>, page: nat, n: N, x: nat)
    requires SpansOk(s, page) && MapOk(s) && n in s.info && s.info[n].addr < x < s.info[n].addr + s.info[n].size
    ensures x !in s.byAddr
  {
    hide IsPages;
    forall m | m in s.info && m != n ensures s.info[m].addr != x {
      assert Apart(s.info[m], s.info[n]);
    }
  }

  lemma TrimMap<N>(s: Space<N>, n: N, size: nat, tail: N)
    requires MapOk(s) && NurseryOk(s) && n in s.info && s.info[n].live && 0 < size < s.info[n].size && tail !in s.info
    requires s.info[n].addr + size !in s.byAddr
    requires SizeClass(s.info[n].size - size) < |s.quarantine|
    ensures MapOk(Trim(s, n, size, tail)) && NurseryOk(Trim(s, n, size, tail))
    ensures s.info[n].addr + size !in View(s)
    ensures View(Trim(s, n, size, tail)) ==
            View(s)[s.info[n].addr := s.info[n].(size := size)]
                   [s.info[n].addr + size :=
                      Info(s.info[n].addr + size, s.info[n].size - size, false, NURSERY, 0)]
  {
    hide SizeClass;
  }

  lemma BuryQuarantine<N>(s: Space<N>, n: N)
    requires QuarantineOk(s) && n in s.info && s.info[n].live && SizeClass(s.info[n].size) < |s.quarantine|
    ensures QuarantineOk(Bury(s, n))
  {
    hide SizeClass, Unique;
    var i := SizeClass(s.info[n].size);
    var s' := Bury(s, n);
    NotListed(s, n, i);
    UniqueCons(s.quarantine[i], n);
    forall k, a | 0 <= k < NUM_CLASSES && (a in s'.quarantine[k] || a in s'.info)
      ensures a in s'.quarantine[k] <==> a in s'.info && DeadIn(s', a, k)
    {
      assert a in s.quarantine[k] <==> a in s.info && DeadIn(s, a, k);
    }
  }

  /** All but the nursery, which is cleared when the burying is done. */
  ghost predicate OkBut<N>(s: Space<N>, page: nat) {
    SpansOk(s, page) && MapOk(s) && QuarantineOk(s)
  }

  lemma BuryOk<N>(s: Space<N>, page: nat, n: N)
    requires OkBut(s, page) && n in s.info && s.info[n].live
    ensures |s.quarantine| == NUM_CLASSES > SizeClass(s.info[n].size)
    ensures OkBut(Bury(s, n), page)
    ensures View(Bury(s, n)) == View(s)[s.info[n].addr := s.info[n].(live := false, age := 0)]
  {
    SizeClassBound(s.info[n].size);
    QuarantineSize(s);
    BuryQuarantine(s, n);
    SpansSame(s, Bury(s, n), page);
    hide SizeClass, QuarantineOk, SpansOk;
  }

  lemma DropQuarantine<N>(s: Space<N>, i: nat, j: nat)
    requires QuarantineOk(s) && i < NUM_CLASSES && j < |s.quarantine[i]| && s.quarantine[i][j] in s.info
    ensures QuarantineOk(Drop(s, i, j))
  {
    hide SizeClass, Unique, Without;
    DeadAt(s, i, j);
    WithoutIs(s.quarantine[i], j);
    var s' := Drop(s, i, j);
    assert s'.quarantine[i] == Without(s.quarantine[i], j);
    assert forall k :: 0 <= k < NUM_CLASSES && k != i ==> s'.quarantine[k] == s.quarantine[k];
    forall k, a | 0 <= k < NUM_CLASSES && a in s'.quarantine[k] ensures DeadIn(s', a, k) {
      assert a in s.quarantine[k];
      assert DeadIn(s, a, k);
    }
    forall k, a | 0 <= k < NUM_CLASSES && a in s'.info && DeadIn(s', a, k) ensures a in s'.quarantine[k] {
      assert DeadIn(s, a, k);
    }
  }

  lemma DropOk<N>(s: Space<N>, page: nat, i: nat, j: nat)
    requires Ok(s, page) && i < NUM_CLASSES && j < |s.quarantine[i]|
    ensures s.quarantine[i][j] in s.info && !s.info[s.quarantine[i][j]].live
    ensures Ok(Drop(s, i, j), page)
    ensures View(Drop(s, i, j)) == View(s) - {s.info[s.quarantine[i][j]].addr}
  {
    QuarantineSize(s);
    DeadAt(s, i, j);
    DropQuarantine(s, i, j);
    SpansSame(s, Drop(s, i, j), page);
    hide SizeClass, QuarantineOk, SpansOk, MapOk, NurseryOk, View, Without, Unique;
    DropMap(s, i, j);
  }

  lemma AddQuarantine<N>(s: Space<N>, n: N, addr: nat, size: nat)
    requires QuarantineOk(s) && n !in s.info
    ensures QuarantineOk(Add(s, n, addr, size))
  {
    hide SizeClass, Unique;
    var s' := Add(s, n, addr, size);
    forall k, a | 0 <= k < NUM_CLASSES && (a in s'.quarantine[k] || a in s'.info)
      ensures a in s'.quarantine[k] <==> a in s'.info && DeadIn(s', a, k)
    {
      assert a in s.quarantine[k] <==> a in s.info && DeadIn(s, a, k);
    }
  }

  lemma AddOk<N>(s: Space<N>, page: nat, n: N, addr: nat, size: nat, pages: nat)
    requires Ok(s, page) && n !in s.info && size > 0 && IsPages(size, page, pages)
    requires forall a :: a in s.info ==> Apart(s.info[a], Info(addr, size, true, NURSERY, 0))
    ensures Ok(Add(s, n, addr, size), page)
    ensures addr !in s.byAddr && View(Add(s, n, addr, size)) == View(s)[addr := Info(addr, size, true, NURSERY, 0)]
  {
    AddQuarantine(s, n, addr, size);
    AddSpans(s, page, n, addr, size, pages);
    NotThere(s, page, addr, size);
    hide SizeClass, QuarantineOk, SpansOk, MapOk, NurseryOk, View, Apart;
    AddMap(s, n, addr, size);
  }

  lemma AddMap<N>(s: Space<N>, n: N, addr: nat, size: nat)
    requires MapOk(s) && NurseryOk(s) && n !in s.info && addr !in s.byAddr
    ensures MapOk(Add(s, n, addr, size)) && NurseryOk(Add(s, n, addr, size))
    ensures View(Add(s, n, addr, size)) == View(s)[addr := Info(addr, size, true, NURSERY, 0)]
  {}

  lemma DropMap<N>(s: Space<N>, i: nat, j: nat)
    requires MapOk(s) && NurseryOk(s) && i < |s.quarantine| && j < |s.quarantine[i]| && s.quarantine[i][j] in s.info
    requires !s.info[s.quarantine[i][j]].live
    ensures MapOk(Drop(s, i, j)) && NurseryOk(Drop(s, i, j))
    ensures View(Drop(s, i, j)) == View(s) - {s.info[s.quarantine[i][j]].addr}
  {
    hide Without;
  }

  lemma NotThere<N>(s: Space<N>, page: nat, addr: nat, size: nat)
    requires SpansOk(s, page) && MapOk(s) && size > 0
    requires forall a :: a in s.info ==> Apart(s.info[a], Info(addr, size, true, NURSERY, 0))
    ensures addr !in s.byAddr
  {
    hide IsPages;
  }

  lemma AddSpans<N>(s: Space<N>, page: nat, n: N, addr: nat, size: nat, pages: nat)
    requires SpansOk(s, page) && n !in s.info && size > 0 && IsPages(size, page, pages)
    requires forall a :: a in s.info ==> Apart(s.info[a], Info(addr, size, true, NURSERY, 0))
    ensures SpansOk(Add(s, n, addr, size), page)
  {
    hide IsPages;
    var s' := Add(s, n, addr, size);
    forall a, b | a in s'.info && b in s'.info && a != b ensures Apart(s'.info[a], s'.info[b]) {
      assert a in s.info && b in s.info ==> Apart(s.info[a], s.info[b]);
    }
  }

  /** A hole in a higher class is large enough, and one in a lower class is not. */
  lemma ClassesSort(size: nat, hole: nat)
    ensures SizeClass(hole) > SizeClass(size) ==> hole > size
    ensures SizeClass(hole) < SizeClass(size) ==> hole < size
  {
    if hole <= size {
      H.BucketMonotone(63, 2, hole, size);
    }
    if size <= hole {
      H.BucketMonotone(63, 2, size, hole);
    }
  }

  // ---------- The space ----------

  class Node {
    var addr: nat
    var size: nat
    var live: bool
    var mark: nat
    var age: nat

    constructor (addr: nat, size: nat, live: bool)
      ensures this.addr == addr && this.size == size && this.live == live && mark == NURSERY && age == 0
    {
      this.addr, this.size, this.live := addr, size, live;
      mark, age := NURSERY, 0;
    }
  }

  datatype Ref = Null | At(addr: nat)

  // ---------- The space as its callers see it ----------

  datatype Phase = Idle | MinorGc | MajorGc

  datatype State = State(v: map<nat, Info>, nursery: set<nat>, marked: nat, phase: Phase, generational: bool)

  /** Except while a major collection is marking, a live object is unmarked or marked, never stale. */
  ghost predicate MarksOk(v: map<nat, Info>, marked: nat, phase: Phase) {
    phase != MajorGc ==> forall a :: a in v && v[a].live ==> v[a].mark in {NURSERY, marked}
  }

  ghost predicate StateOk(s: State) {
    && s.marked in {MARK_0, MARK_1} && MarksOk(s.v, s.marked, s.phase) && (s.generational || s.nursery == {})
    && forall a :: a in s.nursery ==> a in s.v && s.v[a].live
  }

  /** One call each of Alloc, StartGc, Mark, FinishGc and ProcessQuarantine. */
  datatype Event =
    | FromHole(a: nat, size: nat) | FromSystem(a: nat, size: nat)
    | Start(isMinor: bool) | Visit(a: nat) | Finish(isMinor: bool)
    | QuarantineTurn

  ghost predicate Enabled(s: State, e: Event) {
    match e
    case FromHole(a, size) =>
      s.phase == Idle && a in s.v && !s.v[a].live && 0 < size <= s.v[a].size && (size < s.v[a].size ==> a + size !in s.v)
    case FromSystem(a, size) => s.phase == Idle && a !in s.v && size > 0
    case Start(_) => s.phase == Idle
    case Visit(a) => s.phase != Idle && (a in s.v ==> s.v[a].live)
    case Finish(isMinor) => s.phase == if isMinor then MinorGc else MajorGc
    case QuarantineTurn => s.phase == Idle
  }

  ghost function After(s: State, e: Event): State {
    match e
    case FromHole(a, size) =>
      if a !in s.v then s
      else s.(v := WithHole(s.v, a, size), nursery := s.nursery + if s.generational then {a} else {})
    case FromSystem(a, size) => s.(v := s.v[a := Info(a, size, true, NURSERY, 0)])
    case Start(isMinor) =>
      if isMinor then s.(phase := MinorGc) else s.(phase := MajorGc, marked := Toggled(s.marked))
    case Visit(a) => s.(v := MarkedAt(s.v, a, s.marked))
    case Finish(isMinor) =>
      s.(v := SweepOf(s.v, s.marked, if s.generational && isMinor then s.nursery else s.v.Keys), nursery := {}, phase := Idle)
    case QuarantineTurn => s.(v := AgedSome(s.v, DeadAddresses(s.v)))
  }

  ghost function MarkedAt(v: map<nat, Info>, a: nat, marked: nat): map<nat, Info> {
    if a in v && v[a].mark != marked then v[a := v[a].(mark := marked)] else v
  }

  lemma HoleMarks(v: map<nat, Info>, a: nat, size: nat, marked: nat, phase: Phase)
    requires MarksOk(v, marked, phase) && a in v
    ensures MarksOk(WithHole(v, a, size), marked, phase)
  {}

  lemma SystemMarks(v: map<nat, Info>, a: nat, size: nat, marked: nat, phase: Phase)
    requires MarksOk(v, marked, phase)
    ensures MarksOk(v[a := Info(a, size, true, NURSERY, 0)], marked, phase)
  {}

  lemma SweptMarks(v: map<nat, Info>, marked: nat, phase: Phase, swept: set<nat>)
    requires MarksOk(v, marked, phase) && (phase == MajorGc ==> v.Keys <= swept)
    ensures MarksOk(SweepOf(v, marked, swept), marked, Idle)
  {}

  lemma AgedMarks(v: map<nat, Info>, marked: nat, phase: Phase)
    requires MarksOk(v, marked, phase)
    ensures MarksOk(AgedSome(v, DeadAddresses(v)), marked, phase)
  {}

  class LargeSpace {
    const pageSize: nat
    const generational: bool
    /** The nodes of the splay tree. */
    var tree: set<Node>
    var objectMap: map<nat, Node>
    var nursery: map<nat, Node>
    var quarantine: seq<seq<Node>>
    var marked: nat
    /** Between StartGc and FinishGc the space's lock is held. */
    ghost var phase: Phase

    ghost function Snap(): Space<Node>
      reads this, tree
    {
      Space(map n | n in tree :: Info(n.addr, n.size, n.live, n.mark, n.age), objectMap, quarantine, nursery)
    }

    ghost predicate Valid()
      reads this, tree
    {
      && pageSize > 0 && Ok(Snap(), pageSize) && marked in {MARK_0, MARK_1} && (generational || nursery == map[])
      && MarksOk(View(Snap()), marked, phase)
    }

    /** What the space is to its callers. */
    ghost function Abs(): State
      reads this, tree
      requires Valid()
    {
      State(Contents(), nursery.Keys, marked, phase, generational)
    }

    ghost function Contents(): map<nat, Info>
      reads this, tree
      requires Valid()
    {
      View(Snap())
    }

    constructor (pageSize: nat, generational: bool)
      requires pageSize > 0
      ensures Valid() && Contents() == map[] && phase == Idle && this.pageSize == pageSize && this.generational == generational
    {
      this.pageSize, this.generational := pageSize, generational;
      tree, objectMap, nursery := {}, map[], map[];
      quarantine := seq(NUM_CLASSES, _ => []);
      marked, phase := MARK_0, Idle;
    }

    lemma ValidState()
      requires Valid()
      ensures StateOk(Abs())
    {
      hide SpansOk, QuarantineOk, SizeClass, MarksOk;
    }

    /** The first hole of sufficient size, from the size's own class up. */
    method FindHole(size: nat) returns (found: bool, idx: nat, j: nat)
      requires Valid()
      ensures found ==> idx < |quarantine| && j < |quarantine[idx]| && quarantine[idx][j] in tree &&
                        quarantine[idx][j].size >= size
      ensures !found ==> forall n :: n in tree && !n.live ==> n.size < size
    {
      hide SizeClass, Unique, SpansOk, MapOk, NurseryOk;
      SizeClassBound(size);
      QuarantineSize(Snap());
      found, idx, j := false, SizeClass(size), 0;
      forall n | n in tree && SizeClass(n.size) < idx ensures n.size < size {
        ClassesSort(size, n.size);
      }
      while idx < NUM_CLASSES
        invariant SizeClass(size) <= idx <= NUM_CLASSES
        invariant forall n :: n in tree && !n.live && SizeClass(n.size) < idx ==> n.size < size
      {
        j := 0;
        while j < |quarantine[idx]| && quarantine[idx][j].size < size
          invariant j <= |quarantine[idx]|
          invariant forall k :: 0 <= k < j ==> quarantine[idx][k].size < size
        {
          j := j + 1;
        }
        if j < |quarantine[idx]| {
          DeadAt(Snap(), idx, j);
          found := true;
          return;
        }
        forall n | n in tree && !n.live && SizeClass(n.size) == idx ensures n.size < size {
          InQuarantine(Snap(), n);
        }
        idx := idx + 1;
      }
      forall n | n in tree && !n.live ensures n.size < size {
        SizeClassBound(n.size);
      }
    }

    /** Takes a hole out of the quarantine and makes it live, without its tail if it is too large. */
    method Reuse(idx: nat, j: nat, pages: nat) returns (node: Node)
      requires Valid() && idx < |quarantine| && j < |quarantine[idx]| && quarantine[idx][j] in tree
      requires pages > 0 && quarantine[idx][j].size >= pages * pageSize
      modifies this`tree, this`objectMap, this`nursery, this`quarantine, tree
      ensures Valid() && fresh(tree - old(tree)) && node in old(tree)
      ensures node.addr in old(Contents())
      ensures !old(Contents())[node.addr].live && old(Contents())[node.addr].size >= pages * pageSize
      ensures Contents() == WithHole(old(Contents()), node.addr, pages * pageSize)
      ensures pages * pageSize < old(Contents())[node.addr].size ==> node.addr + pages * pageSize !in old(Contents())
      ensures nursery.Keys == old(nursery.Keys) + if generational then {node.addr} else {}
    {
      hide SizeClass, Unique, SpansOk, MapOk, QuarantineOk, NurseryOk, View, IsPages, Without, Snap, MarksOk;
      ghost var v := Contents();
      var size := pages * pageSize;
      node := quarantine[idx][j];
      FieldsOf(node);
      ViewAt(Snap(), pageSize, node);
      Unearth(idx, j);
      if node.size > size {
        CutTail(node, size, pages);
      }
      Nurse(node);
      assert View(Snap()) == WithHole(v, node.addr, size);
      HoleMarks(v, node.addr, size, marked, phase);
    }

    method Nurse(node: Node)
      requires Ok(Snap(), pageSize) && node in tree && node.live
      modifies this`nursery
      ensures Ok(Snap(), pageSize) && View(Snap()) == old(View(Snap()))
      ensures nursery.Keys == old(nursery.Keys) + if generational then {node.addr} else {}
    {
      hide Ok, View;
      ghost var s := Snap();
      AddToNursery(s, pageSize, node);
      if generational {
        nursery := nursery[node.addr := node];
      }
      assert Snap().info == s.info;
    }

    lemma FieldsOf(n: Node)
      requires n in tree
      ensures n in Snap().info && Snap().info[n] == Info(n.addr, n.size, n.live, n.mark, n.age)
    {}

    method Unearth(idx: nat, j: nat)
      requires pageSize > 0 && Ok(Snap(), pageSize)
      requires idx < |quarantine| && j < |quarantine[idx]| && quarantine[idx][j] in tree
      modifies this`quarantine, tree`live, tree`mark, tree`age
      ensures Ok(Snap(), pageSize)
      ensures var n := old(quarantine[idx][j]);
              !old(n.live) && n.live && n.mark == NURSERY && n.age == 0 &&
              View(Snap()) == old(View(Snap()))[n.addr := Info(n.addr, n.size, true, NURSERY, 0)]
    {
      hide SizeClass, Unique, SpansOk, MapOk, NurseryOk, QuarantineOk, View, IsPages, Without;
      ghost var s := Snap();
      QuarantineSize(s);
      var node := quarantine[idx][j];
      ReviveOk(s, pageSize, idx, j);
      quarantine := quarantine[idx := Without(quarantine[idx], j)];
      node.live, node.mark, node.age := true, NURSERY, 0;
      assert Snap().info == Revive(s, idx, j).info;
    }

    /**
      Allocates pages: from the quarantine exactly when it has a hole of that size or more, else from
      the system, which gives memory that no span covers or gives none.
    */
    method Alloc(npages: nat, os: Ref) returns (r: Ref)
      requires Valid() && npages > 0 && phase == Idle
      requires os.At? ==> forall n :: n in tree ==> Outside(n.addr, n.size, os.addr, npages * pageSize)
      modifies this, tree
      ensures Valid() && fresh(tree - old(tree))
      ensures old(HasHole(npages * pageSize)) ==>
                r.At? && r.addr in old(Contents()) &&
                !old(Contents())[r.addr].live && old(Contents())[r.addr].size >= npages * pageSize &&
                Contents() == WithHole(old(Contents()), r.addr, npages * pageSize) &&
                nursery.Keys == old(nursery.Keys) + if generational then {r.addr} else {}
      ensures !old(HasHole(npages * pageSize)) ==>
                r == os && nursery == old(nursery) &&
                Contents() == if os.Null? then old(Contents())
                              else old(Contents())[os.addr := Info(os.addr, npages * pageSize, true, NURSERY, 0)]
      ensures r.At? ==> r.addr in Contents() && Contents()[r.addr].live && Contents()[r.addr].size == npages * pageSize
      ensures r.At? ==>
        var e := if old(HasHole(npages * pageSize)) then FromHole(r.addr, npages * pageSize)
                 else FromSystem(r.addr, npages * pageSize);
        Enabled(old(Abs()), e) && Abs() == After(old(Abs()), e)
      ensures r.Null? ==> Abs() == old(Abs())
    {
      hide SizeClass, Unique, Ok, View, IsPages, Without, Snap, MarksOk;
      ghost var v := Contents();
      var size := npages * pageSize;
      Product(npages, pageSize);
      var found, idx, j := FindHole(size);
      if found {
        HoleIsDead(idx, j);
        var node := Reuse(idx, j, npages);
        return At(node.addr);
      }
      r := os;
      if os.At? {
        Insert(os.addr, size, npages);
        SystemMarks(v, os.addr, size, marked, phase);
      }
    }

    /** The live object whose span an address lies in. */
    method ObjectContainingEdge(x: nat) returns (r: Ref)
      requires Valid()
      ensures forall a: nat :: r == At(a) <==>
                a in Contents() && Contents()[a].live && Contents()[a].addr <= x < Contents()[a].addr + Contents()[a].size
    {
      hide SizeClass, QuarantineOk, NurseryOk, IsPages;
      r := Null;
      if node: Node :| node in tree && node.addr <= x < node.addr + node.size {
        FieldsOf(node);
        ghost var v := Contents();
        OneSpan(Snap(), pageSize, node, x);
        if node.live {
          r := At(node.addr);
        }
      } else {
        forall n | n in tree ensures !(n.addr <= x < n.addr + n.size) {
        }
        NoSpan(Snap(), x);
      }
    }

    /** Marks an object of the space that is not marked yet; the caller has only references to live objects. */
    method Mark(addr: nat) returns (newlyMarked: bool)
      requires Valid() && (addr in Contents() ==> Contents()[addr].live) && phase != Idle
      modifies tree`mark
      ensures Valid()
      ensures newlyMarked <==> addr in old(Contents()) && old(Contents())[addr].mark != marked
      ensures Contents() == if newlyMarked then old(Contents())[addr := old(Contents())[addr].(mark := marked)]
                            else old(Contents())
      ensures Abs() == After(old(Abs()), Visit(addr))
    {
      hide SizeClass, Unique, SpansOk, QuarantineOk, NurseryOk;
      ghost var s := Snap();
      KeysAre(s);
      if addr !in objectMap {
        return false;
      }
      var node := objectMap[addr];
      if node.mark == marked {
        return false;
      }
      SameView(s, node);
      UpdateOk(s, pageSize, node, s.info[node].(mark := marked));
      hide MapOk, View;
      node.mark := marked;
      assert Snap().info == s.info[node := s.info[node].(mark := marked)];
      return true;
    }

    /** A major collection changes what it is to be marked, so that no live object is. */
    method StartGc(isMinor: bool)
      requires Valid() && phase == Idle
      modifies this`marked, this`phase
      ensures Valid() && Contents() == old(Contents())
      ensures marked == if isMinor then old(marked) else Toggled(old(marked))
      ensures !isMinor ==> forall a :: a in Contents() && Contents()[a].live ==> Contents()[a].mark != marked
      ensures Abs() == After(old(Abs()), Start(isMinor))
    {
      hide SpansOk, MapOk, QuarantineOk, NurseryOk, View;
      ghost var s := Snap();
      phase := if isMinor then MinorGc else MajorGc;
      if !isMinor {
        marked := Toggled(marked);
      }
      assert Snap() == s;
    }

    /** A live object that the collection did not mark goes to the quarantine. */
    method SweepOne(node: Node)
      requires OkBut(Snap(), pageSize) && node in tree
      modifies this`quarantine, tree`live, tree`age
      ensures OkBut(Snap(), pageSize) && node.addr in old(View(Snap()))
      ensures View(Snap()) == old(View(Snap()))[node.addr := Swept(old(View(Snap()))[node.addr], marked)]
    {
      hide SizeClass, Unique, SpansOk, QuarantineOk;
      ghost var s := Snap();
      SameView(s, node);
      if node.live && node.mark != marked {
        BuryOk(s, pageSize, node);
        hide MapOk, View;
        var i := SizeClass(node.size);
        node.live, node.age := false, 0;
        quarantine := quarantine[i := [node] + quarantine[i]];
        assert Snap().info == Bury(s, node).info;
      }
    }

    /**
      Sweeps the nursery after a minor collection and everything after a major one.  An object that
      came from the system was never put into the nursery, so only a major collection can free it.
    */
    method FinishGc(isMinor: bool)
      requires Valid() && phase == if isMinor then MinorGc else MajorGc
      modifies this`quarantine, this`nursery, this`phase, tree
      ensures Valid() && Abs() == After(old(Abs()), Finish(isMinor))
      ensures Contents() == SweepOf(old(Contents()), marked,
                                    if generational && isMinor then old(nursery.Keys) else old(Contents().Keys))
      ensures generational ==> nursery == map[]
    {
      hide SpansOk, QuarantineOk, MapOk, NurseryOk, View, SizeClass, Snap, SweepOf, MarksOk;
      ghost var v, p := Contents(), phase;
      KeysAre(Snap());
      NurseryIn(Snap(), pageSize);
      SnapIs();
      var swept := if generational && isMinor then nursery else objectMap;
      SweepAll(swept);
      ClearNursery();
      SweptMarks(v, marked, p, swept.Keys);
      Unlock();
    }

    ghost method Unlock()
      modifies this`phase
      ensures phase == Idle && Snap() == old(Snap())
    {
      phase := Idle;
      assert Snap().info == old(Snap()).info;
    }

    method SweepAll(swept: map<nat, Node>)
      requires OkBut(Snap(), pageSize)
      requires forall x :: x in swept ==> swept[x] in tree && swept[x].addr == x
      requires swept.Keys <= View(Snap()).Keys
      modifies this`quarantine, tree`live, tree`age
      ensures OkBut(Snap(), pageSize)
      ensures View(Snap()) == SweepOf(old(View(Snap())), marked, swept.Keys)
    {
      hide SpansOk, QuarantineOk, MapOk, View, SizeClass, Snap, SweepOf, Swept;
      ghost var v := View(Snap());
      var todo := swept.Keys;
      SweepNone(v, marked);
      assert swept.Keys - todo == {};
      while todo != {}
        invariant todo <= swept.Keys
        invariant OkBut(Snap(), pageSize) && View(Snap()) == SweepOf(v, marked, swept.Keys - todo)
        decreases |todo|
      {
        var x :| x in todo;
        SweepOne(swept[x]);
        SweepMore(v, marked, swept.Keys - todo, x);
        assert swept.Keys - todo + {x} == swept.Keys - (todo - {x});
        todo := todo - {x};
      }
      assert swept.Keys - todo == swept.Keys;
    }

    /** One more turn in the quarantine for a node, or its end there. */
    method AgeOrRelease(idx: nat, j: nat) returns (kept: bool)
      requires pageSize > 0 && Ok(Snap(), pageSize)
      requires idx < |quarantine| && j < |quarantine[idx]| && quarantine[idx][j] in tree
      modifies this`quarantine, this`tree, this`objectMap, tree`age
      ensures Ok(Snap(), pageSize)
      ensures var n := old(quarantine[idx][j]);
              n.addr in old(View(Snap())) && !old(View(Snap()))[n.addr].live &&
              View(Snap()) == AgedOne(old(View(Snap())), n.addr) &&
              (kept <==> old(View(Snap()))[n.addr].age < 1)
      ensures quarantine == if kept then old(quarantine) else old(quarantine[idx := Without(quarantine[idx], j)])
      ensures Snap().info.Keys <= old(Snap()).info.Keys
      ensures forall n :: n in Snap().info ==> Snap().info[n].addr == old(Snap()).info[n].addr
    {
      hide SizeClass, Unique, SpansOk, QuarantineOk, NurseryOk, MapOk, View, Without;
      var node := quarantine[idx][j];
      ghost var s := Snap();
      QuarantineSize(s);
      DeadAt(s, idx, j);
      SameView(s, node);
      ghost var d := s.info[node].(age := node.age + 1);
      UpdateOk(s, pageSize, node, d);
      node.age := node.age + 1;
      ghost var s' := Snap();
      assert s'.info == s.info[node := d];
      if node.age < 2 {
        return true;
      }
      DropOk(s', pageSize, idx, j);
      quarantine := quarantine[idx := Without(quarantine[idx], j)];
      objectMap := objectMap - {node.addr};
      tree := tree - {node};
      assert Snap().info == Drop(s', idx, j).info;
      UpdateThenDrop(old(View(Snap())), node.addr, d);
      return false;
    }

    /** A turn in the quarantine for every dead node: the first ages it, the second gives it back. */
    method ProcessQuarantine()
      requires Valid() && phase == Idle
      modifies this`quarantine, this`tree, this`objectMap, tree`age
      ensures Valid() && Abs() == After(old(Abs()), QuarantineTurn)
      ensures Contents() == AgedSome(old(Contents()), DeadAddresses(old(Contents())))
    {
      hide SizeClass, Unique, SpansOk, MapOk, QuarantineOk, NurseryOk, View, Snap, Without, AgedSome, Progress, MarksOk;
      ghost var v := Contents();
      ghost var done: set<nat> := {};
      AgedNone(v);
      SnapQuarantine();
      StartProgress(Snap(), pageSize);
      var idx := 0;
      while idx < NUM_CLASSES
        invariant idx <= NUM_CLASSES && Ok(Snap(), pageSize) && |quarantine| == NUM_CLASSES
        invariant View(Snap()) == AgedSome(v, done) && Progress(Snap(), idx, 0, done)
        invariant done <= DeadAddresses(v) && tree <= old(tree)
        invariant pageSize > 0
      {
        var j := 0;
        while j < |quarantine[idx]|
          invariant Ok(Snap(), pageSize) && |quarantine| == NUM_CLASSES && j <= |quarantine[idx]|
          invariant View(Snap()) == AgedSome(v, done) && Progress(Snap(), idx, j, done)
          invariant done <= DeadAddresses(v) && tree <= old(tree)
          decreases |quarantine[idx]| - j
        {
          ghost var s := Snap();
          SnapQuarantine();
          InTree(idx, j);
          ghost var a := quarantine[idx][j].addr;
          var kept := AgeOrRelease(idx, j);
          SnapQuarantine();
          AgedStep(v, done, a, s, pageSize, idx, j);
          Advance(s, Snap(), pageSize, idx, j, done, kept);
          done := done + {a};
          if kept {
            j := j + 1;
          }
        }
        SnapQuarantine();
        NextClass(Snap(), idx, j, done);
        idx := idx + 1;
      }
      AllDone(Snap(), pageSize, v, done);
      AgedMarks(v, marked, phase);
    }

    lemma SnapQuarantine()
      ensures Snap().quarantine == quarantine && Snap().info.Keys == tree
    {}

    lemma InTree(idx: nat, j: nat)
      requires Ok(Snap(), pageSize) && idx < |quarantine| && j < |quarantine[idx]|
      ensures quarantine[idx][j] in tree && Snap().info[quarantine[idx][j]].addr == quarantine[idx][j].addr
    {
      hide SizeClass, Unique, SpansOk, MapOk, NurseryOk;
      QuarantineSize(Snap());
      DeadAt(Snap(), idx, j);
    }

    method ClearNursery()
      requires OkBut(Snap(), pageSize) && (generational || nursery == map[])
      modifies this`nursery
      ensures Ok(Snap(), pageSize) && View(Snap()) == old(View(Snap())) && nursery == map[]
    {
      hide SpansOk, QuarantineOk, SizeClass;
      ghost var s := Snap();
      if generational {
        nursery := map[];
      }
      assert Snap().info == s.info;
      SpansSame(s, Snap(), pageSize);
      QuarantineSame(s, Snap());
    }

    lemma SnapIs()
      ensures Snap().info.Keys == tree && Snap().byAddr == objectMap && Snap().nursery == nursery
      ensures forall n :: n in tree ==> Snap().info[n] == Info(n.addr, n.size, n.live, n.mark, n.age)
    {}

    ghost predicate HasHole(size: nat)
      reads this, tree
    {
      exists n :: n in tree && !n.live && n.size >= size
    }

    lemma HoleIsDead(idx: nat, j: nat)
      requires Ok(Snap(), pageSize) && idx < |quarantine| && j < |quarantine[idx]|
      ensures quarantine[idx][j] in tree && !quarantine[idx][j].live
    {
      hide SizeClass, Unique, SpansOk, MapOk, NurseryOk;
      QuarantineSize(Snap());
      DeadAt(Snap(), idx, j);
    }

    method Insert(addr: nat, size: nat, ghost pages: nat)
      requires pageSize > 0 && Ok(Snap(), pageSize) && size == pages * pageSize && size > 0
      requires forall n :: n in tree ==> Outside(n.addr, n.size, addr, size)
      modifies this`tree, this`objectMap
      ensures Ok(Snap(), pageSize) && fresh(tree - old(tree)) && addr !in old(View(Snap()))
      ensures View(Snap()) == old(View(Snap()))[addr := Info(addr, size, true, NURSERY, 0)]
    {
      hide SizeClass, Unique, SpansOk, MapOk, NurseryOk, QuarantineOk, View;
      ghost var s := Snap();
      var node := new Node(addr, size, true);
      assert IsPages(size, pageSize, pages);
      hide IsPages;
      KeysAre(s);
      AddOk(s, pageSize, node, addr, size, pages);
      tree := tree + {node};
      objectMap := objectMap[addr := node];
      assert Snap().info == Add(s, node, addr, size).info;
    }

    method CutTail(node: Node, size: nat, ghost pages: nat)
      requires pageSize > 0 && Ok(Snap(), pageSize) && marked in {MARK_0, MARK_1}
      requires node in tree && node.live && 0 < size < node.size && size == pages * pageSize
      modifies this`tree, this`objectMap, this`quarantine, tree
      ensures Ok(Snap(), pageSize) && fresh(tree - old(tree)) && node in tree && node.live
      ensures node.addr == old(node.addr) && node.size == size && nursery == old(nursery)
      ensures node.addr + size !in old(View(Snap()))
      ensures View(Snap()) == old(View(Snap()))
                [node.addr := Info(node.addr, size, true, old(node.mark), old(node.age))]
                [node.addr + size := Info(node.addr + size, old(node.size) - size, false, NURSERY, 0)]
    {
      hide SizeClass, Unique, SpansOk, MapOk, NurseryOk, QuarantineOk, View;
      ghost var s := Snap();
      QuarantineSize(s);
      var tail := new Node(node.addr + size, node.size - size, false);
      assert IsPages(size, pageSize, pages);
      hide IsPages;
      TrimOk(s, pageSize, node, size, pages, tail);
      var i := SizeClass(node.size - size);
      node.size := size;
      tree := tree + {tail};
      objectMap := objectMap[tail.addr := tail];
      quarantine := quarantine[i := [tail] + quarantine[i]];
      ghost var r := Snap();
      assert r.info == Trim(s, node, size, tail).info;
      assert r == Trim(s, node, size, tail);
    }
  }

  /** The hole at `a` holds an object of a given size, and what was too much is a hole of its own. */
  ghost function WithHole(v: map<nat, Info>, a: nat, size: nat): map<nat, Info>
    requires a in v
  {
    var v' := v[a := Info(a, size, true, NURSERY, 0)];
    if v[a].size > size then v'[a + size := Info(a + size, v[a].size - size, false, NURSERY, 0)] else v'
  }

  predicate Outside(a: nat, n: nat, b: nat, m: nat) {
    a + n <= b || b + m <= a
  }

  lemma Product(a: nat, b: nat)
    requires a > 0 && b > 0
    ensures a * b > 0
  {}

  lemma AddToNursery<N>(s: Space<N>, page: nat, n: N)
    requires Ok(s, page) && n in s.info && s.info[n].live
    ensures Ok(s.(nursery := s.nursery[s.info[n].addr := n]), page)
    ensures View(s.(nursery := s.nursery[s.info[n].addr := n])) == View(s)
  {
    var s' := s.(nursery := s.nursery[s.info[n].addr := n]);
    SpansSame(s, s', page);
    QuarantineSame(s, s');
    NurseKeeps(s, n);
    hide SpansOk, QuarantineOk, NurseryOk;
  }

  lemma NurseKeeps<N>(s: Space<N>, n: N)
    requires MapOk(s) && NurseryOk(s) && n in s.info && s.info[n].live
    ensures NurseryOk(s.(nursery := s.nursery[s.info[n].addr := n]))
  {}

  lemma OneSpan<N>(s: Space<N>, page: nat, n: N, x: nat)
    requires SpansOk(s, page) && MapOk(s) && n in s.info && s.info[n].addr <= x < s.info[n].addr + s.info[n].size
    ensures s.info[n].addr in View(s) && View(s)[s.info[n].addr] == s.info[n]
    ensures forall a :: a in View(s) && View(s)[a].addr <= x < View(s)[a].addr + View(s)[a].size ==> a == s.info[n].addr
  {
    hide IsPages;
    forall a | a in View(s) && View(s)[a].addr <= x < View(s)[a].addr + View(s)[a].size ensures a == s.info[n].addr {
      var m := s.byAddr[a];
      assert m != n ==> Apart(s.info[m], s.info[n]);
    }
  }

  lemma NoSpan<N>(s: Space<N>, x: nat)
    requires MapOk(s) && forall n :: n in s.info ==> !(s.info[n].addr <= x < s.info[n].addr + s.info[n].size)
    ensures forall a :: a in View(s) ==> !(View(s)[a].addr <= x < View(s)[a].addr + View(s)[a].size)
  {}

  /** A change of a node that is none of address, size and liveness. */
  lemma UpdateOk<N>(s: Space<N>, page: nat, n: N, d: Info)
    requires Ok(s, page) && n in s.info
    requires d.addr == s.info[n].addr && d.size == s.info[n].size && d.live == s.info[n].live
    ensures Ok(s.(info := s.info[n := d]), page)
    ensures View(s.(info := s.info[n := d])) == View(s)[d.addr := d]
  {
    var s' := s.(info := s.info[n := d]);
    SpansSame(s, s', page);
    QuarantineSame(s, s');
    UpdateMap(s, n, d);
    hide SpansOk, QuarantineOk, MapOk, View;
  }

  lemma UpdateMap<N>(s: Space<N>, n: N, d: Info)
    requires MapOk(s) && n in s.info && d.addr == s.info[n].addr
    ensures MapOk(s.(info := s.info[n := d]))
    ensures View(s.(info := s.info[n := d])) == View(s)[d.addr := d]
  {}

  lemma QuarantineSame<N>(s: Space<N>, s': Space<N>)
    requires QuarantineOk(s) && s'.quarantine == s.quarantine && s'.info.Keys == s.info.Keys
    requires forall n :: n in s.info ==> s'.info[n].live == s.info[n].live && s'.info[n].size == s.info[n].size
    ensures QuarantineOk(s')
  {
    hide SizeClass, Unique;
    forall i, n | 0 <= i < NUM_CLASSES && n in s.info ensures DeadIn(s', n, i) == DeadIn(s, n, i) {
    }
  }

  function Swept(d: Info, marked: nat): Info {
    if d.live && d.mark != marked then d.(live := false, age := 0) else d
  }

  ghost function SweepOf(v: map<nat, Info>, marked: nat, swept: set<nat>): map<nat, Info> {
    map x | x in v :: if x in swept then Swept(v[x], marked) else v[x]
  }

  lemma SweepNone(v: map<nat, Info>, marked: nat)
    ensures SweepOf(v, marked, {}) == v
  {}

  lemma SweepMore(v: map<nat, Info>, marked: nat, swept: set<nat>, x: nat)
    requires x in v && x !in swept
    ensures x in SweepOf(v, marked, swept) && SweepOf(v, marked, swept)[x] == v[x]
    ensures SweepOf(v, marked, swept + {x}) == SweepOf(v, marked, swept)[x := Swept(v[x], marked)]
  {}

  lemma SameView<N>(s: Space<N>, n: N)
    requires MapOk(s) && n in s.info
    ensures s.info[n].addr in View(s) && View(s)[s.info[n].addr] == s.info[n]
    ensures View(s)[s.info[n].addr := s.info[n]] == View(s)
  {}

  ghost function AgedOne(v: map<nat, Info>, a: nat): map<nat, Info>
    requires a in v
  {
    if v[a].age < 1 then v[a := v[a].(age := v[a].age + 1)] else v - {a}
  }

  ghost function DeadAddresses(v: map<nat, Info>): set<nat> {
    set a | a in v && !v[a].live
  }

  /** Of the dead nodes in `done` the ones in their first turn are a turn older, and the others are gone. */
  ghost function AgedSome(v: map<nat, Info>, done: set<nat>): map<nat, Info> {
    map a | a in v && (a in done ==> v[a].age < 1) :: if a in done then v[a].(age := v[a].age + 1) else v[a]
  }

  lemma AgedNone(v: map<nat, Info>)
    ensures AgedSome(v, {}) == v
  {}

  lemma AgedMore(v: map<nat, Info>, done: set<nat>, a: nat)
    requires a in AgedSome(v, done) && a !in done
    ensures a in v && AgedSome(v, done)[a] == v[a]
    ensures AgedSome(v, done + {a}) == AgedOne(AgedSome(v, done), a)
  {}

  /** The nodes before a place in the quarantine, and only those, have had their turn. */
  ghost predicate Progress<N>(s: Space<N>, idx: nat, j: nat, done: set<nat>) {
    && |s.quarantine| == NUM_CLASSES
    && (forall k, l :: 0 <= k < NUM_CLASSES && 0 <= l < |s.quarantine[k]| ==> Turn(s, k, l, idx, j, done))
  }

  ghost predicate Turn<N>(s: Space<N>, k: nat, l: nat, idx: nat, j: nat, done: set<nat>)
    requires k < |s.quarantine| && l < |s.quarantine[k]|
  {
    var n := s.quarantine[k][l];
    n in s.info && (s.info[n].addr in done <==> k < idx || (k == idx && l < j))
  }

  lemma StartProgress<N>(s: Space<N>, page: nat)
    requires Ok(s, page)
    ensures Progress(s, 0, 0, {}) && |s.quarantine| == NUM_CLASSES
  {
    hide SizeClass, Unique, SpansOk, MapOk, NurseryOk;
    QuarantineSize(s);
    forall k, l | 0 <= k < NUM_CLASSES && 0 <= l < |s.quarantine[k]| ensures Turn(s, k, l, 0, 0, {}) {
      DeadAt(s, k, l);
    }
  }

  lemma NextClass<N>(s: Space<N>, idx: nat, j: nat, done: set<nat>)
    requires Progress(s, idx, j, done) && idx < NUM_CLASSES && j == |s.quarantine[idx]|
    ensures Progress(s, idx + 1, 0, done)
  {
    var next := idx + 1;
    forall k, l | 0 <= k < NUM_CLASSES && 0 <= l < |s.quarantine[k]| ensures Turn(s, k, l, next, 0, done) {
      assert Turn(s, k, l, idx, j, done);
    }
  }

  /** Different places in the quarantine hold nodes of different addresses. */
  lemma PlacesDiffer<N>(s: Space<N>, page: nat, i: nat, j: nat, k: nat, l: nat)
    requires Ok(s, page) && |s.quarantine| == NUM_CLASSES
    requires i < NUM_CLASSES && j < |s.quarantine[i]| && k < NUM_CLASSES && l < |s.quarantine[k]|
    ensures s.quarantine[i][j] in s.info && s.quarantine[k][l] in s.info
    ensures (i, j) != (k, l) ==> s.info[s.quarantine[i][j]].addr != s.info[s.quarantine[k][l]].addr
  {
    hide SizeClass, SpansOk, NurseryOk;
    DeadAt(s, i, j);
    DeadAt(s, k, l);
  }

  lemma Advance<N>(s: Space<N>, s': Space<N>, page: nat, idx: nat, j: nat, done: set<nat>, kept: bool)
    requires Ok(s, page) && Ok(s', page) && |s.quarantine| == NUM_CLASSES
    requires Progress(s, idx, j, done) && idx < NUM_CLASSES && j < |s.quarantine[idx]|
    requires s'.quarantine ==
             if kept then s.quarantine else s.quarantine[idx := Without(s.quarantine[idx], j)]
    requires s'.info.Keys <= s.info.Keys && forall n :: n in s'.info ==> s'.info[n].addr == s.info[n].addr
    requires s.quarantine[idx][j] in s.info
    ensures Progress(s', idx, if kept then j + 1 else j, done + {s.info[s.quarantine[idx][j]].addr})
  {
    hide SizeClass, Unique, Ok;
    var a, j' := s.info[s.quarantine[idx][j]].addr, if kept then j + 1 else j;
    forall k, l | 0 <= k < NUM_CLASSES && 0 <= l < |s'.quarantine[k]| ensures Turn(s', k, l, idx, j', done + {a}) {
      PlaceIn(s', page, k, l);
      var l0 := if !kept && k == idx && l >= j then l + 1 else l;
      assert s'.quarantine[k][l] == s.quarantine[k][l0];
      assert Turn(s, k, l0, idx, j, done);
      PlacesDiffer(s, page, idx, j, k, l0);
    }
  }

  lemma PlaceIn<N>(s: Space<N>, page: nat, i: nat, j: nat)
    requires Ok(s, page) && |s.quarantine| == NUM_CLASSES && i < NUM_CLASSES && j < |s.quarantine[i]|
    ensures s.quarantine[i][j] in s.info
  {
    hide SizeClass, SpansOk, NurseryOk, MapOk;
    DeadAt(s, i, j);
  }

  lemma AgedStep<N>(v: map<nat, Info>, done: set<nat>, a: nat, s: Space<N>, page: nat, idx: nat, j: nat)
    requires Ok(s, page) && View(s) == AgedSome(v, done) && Progress(s, idx, j, done)
    requires idx < NUM_CLASSES && j < |s.quarantine[idx]| && s.quarantine[idx][j] in s.info
    requires a == s.info[s.quarantine[idx][j]].addr
    ensures a in AgedSome(v, done) && a in DeadAddresses(v)
    ensures AgedSome(v, done + {a}) == AgedOne(AgedSome(v, done), a)
  {
    hide SizeClass, Unique, SpansOk, NurseryOk, AgedSome, View;
    DeadAt(s, idx, j);
    SameView(s, s.quarantine[idx][j]);
    assert Turn(s, idx, j, idx, j, done);
    AgedMore(v, done, a);
  }

  lemma AllDone<N>(s: Space<N>, page: nat, v: map<nat, Info>, done: set<nat>)
    requires Ok(s, page) && View(s) == AgedSome(v, done) && Progress(s, NUM_CLASSES, 0, done) && done <= DeadAddresses(v)
    ensures done == DeadAddresses(v)
  {
    hide SizeClass, Unique, SpansOk, NurseryOk, QuarantineOk;
    forall n | n in s.info && !s.info[n].live ensures s.info[n].addr in done {
      InQuarantine(s, n);
      var k := SizeClass(s.info[n].size);
      var l :| 0 <= l < |s.quarantine[k]| && s.quarantine[k][l] == n;
      assert Turn(s, k, l, NUM_CLASSES, 0, done);
    }
    forall a | a in DeadAddresses(v) ensures a in done {
      assert a in View(s) || a in done;
    }
  }

  lemma UpdateThenDrop(v: map<nat, Info>, a: nat, d: Info)
    ensures v[a := d] - {a} == v - {a}
  {}

  lemma KeysAre<N>(s: Space<N>)
    requires MapOk(s)
    ensures View(s).Keys == s.byAddr.Keys
    ensures forall x :: x in s.byAddr ==> s.byAddr[x] in s.info && s.info[s.byAddr[x]].addr == x
  {}

  lemma NurseryIn<N>(s: Space<N>, page: nat)
    requires Ok(s, page)
    ensures forall x :: x in s.nursery ==> x in s.byAddr && s.byAddr[x] == s.nursery[x]
  {}

  lemma ViewAt<N>(s: Space<N>, page: nat, n: N)
    requires Ok(s, page) && n in s.info
    ensures s.info[n].addr in View(s) && View(s)[s.info[n].addr] == s.info[n]
  {
    hide SpansOk, QuarantineOk;
  }

  lemma InQuarantine<N>(s: Space<N>, n: N)
    requires QuarantineOk(s) && n in s.info && !s.info[n].live
    ensures SizeClass(s.info[n].size) < |s.quarantine| && n in s.quarantine[SizeClass(s.info[n].size)]
  {
    SizeClassBound(s.info[n].size);
    hide SizeClass, Unique;
    assert DeadIn(s, n, SizeClass(s.info[n].size));
  }

  // ---------- Over several calls ----------

  /** Allocation from the quarantine neither loses nor invents a byte. */
  lemma ReuseCovers(v: map<nat, Info>, a: nat, size: nat, x: nat)
    requires forall b :: b in v ==> v[b].addr == b
    requires a in v && 0 < size <= v[a].size && (size < v[a].size ==> a + size !in v)
    ensures Covered(WithHole(v, a, size), x) <==> Covered(v, x)
  {
    var v' := WithHole(v, a, size);
    if Covered(v, x) {
      var b :| b in v && v[b].addr <= x < v[b].addr + v[b].size;
      var c := if b == a && x >= a + size then a + size else b;
      assert c in v' && v'[c].addr <= x < v'[c].addr + v'[c].size;
    }
    if Covered(v', x) {
      var b :| b in v' && v'[b].addr <= x < v'[b].addr + v'[b].size;
      var c := if b == a + size && b !in v then a else b;
      assert c in v && v[c].addr <= x < v[c].addr + v[c].size;
    }
  }

  ghost function Run(s: State, es: seq<Event>): State {
    if es == [] then s else After(Run(s, es[..|es| - 1]), es[|es| - 1])
  }

  ghost predicate CanRun(s: State, es: seq<Event>) {
    es == [] || (CanRun(s, es[..|es| - 1]) && Enabled(Run(s, es[..|es| - 1]), es[|es| - 1]))
  }

  /** What a live object outside the nursery goes through until the next major collection. */
  ghost predicate Settled(s: State, x: nat, size: nat) {
    x in s.v && s.v[x].live && s.v[x].addr == x && s.v[x].size == size && x !in s.nursery && s.phase != MajorGc
  }

  lemma SettledStays(s: State, e: Event, x: nat, size: nat)
    requires Settled(s, x, size) && Enabled(s, e) && s.generational && e != Start(false)
    ensures Settled(After(s, e), x, size)
  {}

  /** An object that came from the system outlives every collection until the next major one, marked or not. */
  lemma {:induction false} SystemOutlivesMinors(s: State, x: nat, size: nat, es: seq<Event>)
    requires StateOk(s) && s.generational && Enabled(s, FromSystem(x, size))
    requires CanRun(After(s, FromSystem(x, size)), es) && Start(false) !in es
    ensures Settled(Run(After(s, FromSystem(x, size)), es), x, size)
  {
    hide Enabled, After;
    if es == [] {
      SystemSettled(s, x, size);
    } else {
      var front := es[..|es| - 1];
      SystemOutlivesMinors(s, x, size, front);
      SameSpace(s, FromSystem(x, size));
      AllSameSpace(After(s, FromSystem(x, size)), front);
      SettledStays(Run(After(s, FromSystem(x, size)), front), es[|es| - 1], x, size);
    }
  }

  lemma SystemSettled(s: State, x: nat, size: nat)
    requires StateOk(s) && Enabled(s, FromSystem(x, size))
    ensures Settled(After(s, FromSystem(x, size)), x, size)
  {}

  lemma SameSpace(s: State, e: Event)
    ensures After(s, e).generational == s.generational
  {}

  lemma {:induction false} AllSameSpace(s: State, es: seq<Event>)
    ensures Run(s, es).generational == s.generational
  {
    if es != [] {
      AllSameSpace(s, es[..|es| - 1]);
      SameSpace(Run(s, es[..|es| - 1]), es[|es| - 1]);
    }
  }

  function Visits(list: seq<nat>): seq<Event> {
    seq(|list|, i requires 0 <= i < |list| => Visit(list[i]))
  }

  /** A collection that visits the objects of `list`: StartGc, Mark for each of them, FinishGc. */
  ghost function Collected(s: State, isMinor: bool, list: seq<nat>): State {
    After(Run(After(s, Start(isMinor)), Visits(list)), Finish(isMinor))
  }

  lemma {:induction false} AllVisited(s: State, list: seq<nat>)
    ensures var s' := Run(s, Visits(list));
      && s'.nursery == s.nursery && s'.marked == s.marked && s'.phase == s.phase && s'.generational == s.generational
      && s'.v.Keys == s.v.Keys
      && forall x :: x in s.v ==> s'.v[x] == if x in list then s.v[x].(mark := s.marked) else s.v[x]
  {
    if list != [] {
      var n := |list| - 1;
      AllVisited(s, list[..n]);
      assert Visits(list)[..n] == Visits(list[..n]);
      assert list == list[..n] + [list[n]];
    }
  }

  /** A major collection keeps exactly the live objects marked during it: no mark of an earlier one counts. */
  lemma MajorKeepsMarked(s: State, list: seq<nat>, x: nat)
    requires StateOk(s) && s.phase == Idle && x in s.v
    ensures var s' := Collected(s, false, list); x in s'.v && (s'.v[x].live <==> s.v[x].live && x in list)
  {
    hide Run, Visits;
    AllVisited(After(s, Start(false)), list);
  }

  /** A minor one also keeps whatever an earlier one marked, and whatever is not in the nursery. */
  lemma MinorKeeps(s: State, list: seq<nat>, x: nat)
    requires StateOk(s) && s.phase == Idle && x in s.v && s.generational
    ensures var s' := Collected(s, true, list);
            x in s'.v && (s'.v[x].live <==> s.v[x].live && (x in list || s.v[x].mark == s.marked || x !in s.nursery))
  {
    hide Run, Visits;
    AllVisited(After(s, Start(true)), list);
  }

  /** The second turn after its death gives a node back, whatever its age, and touches no live one. */
  lemma TwoTurnsRelease(v: map<nat, Info>)
    ensures var v1 := AgedSome(v, DeadAddresses(v));
            AgedSome(v1, DeadAddresses(v1)) == map a | a in v && v[a].live :: v[a]
  {}
}
