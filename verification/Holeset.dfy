/**
  The segregated hole set of src/nofl-holeset.h: holes by size class with a bitmap of the classes
  that are not empty, one set for each allocator and one that they share.

  A list of holes, which the C code links through the holes themselves, is a sequence; the bitmap is
  the sequence of its bits.  The size is stored in a hole only in the sparse classes.
*/
module Holeset {

  const PACKED := 50
  const SPARSE := 13
  const MAX_GRANULES := 512
  const CLASSES := 64

  // ---------- Size classes ----------

  /** The class among the sparse ones: rounded down to insert, up to look one up. */
  function SparseBucket(granules: nat, forInsert: bool): (i: nat)
    requires granules >= PACKED
    ensures PACKED <= i < CLASSES
  {
    var num := granules - PACKED;
    var denom := MAX_GRANULES - PACKED;
    var frac := if forInsert then num * SPARSE / denom else (num * SPARSE + denom - 1) / denom;
    PACKED + if frac < SPARSE then frac else SPARSE
  }

  function BucketForInsert(granules: nat): (i: nat)
    requires granules > 0
    ensures i < CLASSES
  {
    if granules <= PACKED then granules - 1 else SparseBucket(granules, true)
  }

  function BucketForLookup(granules: nat): (i: nat)
    requires granules > 0
    ensures i < CLASSES
  {
    if granules <= PACKED then granules - 1 else SparseBucket(granules, false)
  }

  /** Any hole in the class looked up, or above, is large enough: for every size up to 512. */
  lemma ClassIsEnough(g: nat, h: nat)
    requires 0 < g <= MAX_GRANULES && h > 0 && BucketForInsert(h) >= BucketForLookup(g)
    ensures h >= g
  {}

  /**
    A hole that is large enough may still lie below the class looked up, but not when the request is
    in a packed class, nor when the hole has 36 granules to spare ...
  */
  lemma MissesAreSmall(g: nat, h: nat)
    requires 0 < g <= MAX_GRANULES && h >= g
    ensures g <= PACKED || h >= g + 36 ==> BucketForInsert(h) >= BucketForLookup(g)
  {}

  /** ... and between 51 and 511 granules a hole of exactly the size asked for is never found. */
  lemma ExactFitFound(g: nat)
    requires 0 < g <= MAX_GRANULES
    ensures BucketForInsert(g) >= BucketForLookup(g) <==> g <= PACKED || g == MAX_GRANULES
  {
    if PACKED < g < MAX_GRANULES {
      var num := g - PACKED;
      var q := num * SPARSE / 462;
      assert num * SPARSE != q * 462;
    }
  }

  /** No class is idle: each holds the holes of some sizes. */
  lemma EveryClassUsed(i: nat) returns (h: nat)
    requires i < CLASSES
    ensures 0 < h <= MAX_GRANULES && BucketForInsert(h) == i
  {
    h := if i < PACKED then i + 1 else if i == PACKED then PACKED + 1 else PACKED + ((i - PACKED) * 462 + SPARSE - 1) / SPARSE;
  }

  // ---------- Holes in classes ----------

  datatype Hole = Hole(start: nat, granules: nat)

  /** What memory records of a hole: its address, and its size if its class is sparse. */
  datatype Entry = Entry(start: nat, granules: nat)

  function EntryFor(h: Hole): Entry {
    Entry(h.start, if h.granules <= PACKED then 0 else h.granules)
  }

  function HoleIn(i: nat, e: Entry): Hole {
    Hole(e.start, if i < PACKED then i + 1 else e.granules)
  }

  lemma HoleOfEntry(h: Hole)
    requires h.granules > 0
    ensures HoleIn(BucketForInsert(h.granules), EntryFor(h)) == h
  {}

  ghost predicate Apart(a: Hole, b: Hole) {
    a.start + a.granules <= b.start || b.start + b.granules <= a.start
  }

  /** Holes that do not overlap. */
  ghost predicate Disjoint(holes: set<Hole>) {
    && (forall h :: h in holes ==> h.granules > 0)
    && (forall a, b :: a in holes && b in holes && a != b ==> Apart(a, b))
  }

  /** The granules in holes. */
  ghost function Area(holes: set<Hole>): set<nat> {
    set h, k: nat | h in holes && k in Span(h) :: k
  }

  ghost function Span(h: Hole): set<nat> {
    set k: nat | h.start <= k < h.start + h.granules && Within(h, k)
  }

  ghost predicate Within(h: Hole, k: nat) {
    h.start <= k < h.start + h.granules
  }

  /** The list of class `i` holds exactly the holes of that class, each once. */
  ghost predicate Listed(list: seq<Entry>, i: nat, holes: set<Hole>) {
    && (forall j :: 0 <= j < |list| ==> IsEntryOf(list[j], i, holes))
    && (forall h :: h in holes && h.granules > 0 && BucketForInsert(h.granules) == i ==> EntryFor(h) in list)
    && (forall j, k :: 0 <= j < k < |list| ==> list[j].start != list[k].start)
  }

  ghost predicate IsEntryOf(e: Entry, i: nat, holes: set<Hole>) {
    var h := HoleIn(i, e);
    h in holes && h.granules > 0 && BucketForInsert(h.granules) == i && EntryFor(h) == e
  }

  /** Local and shared lists alike: a set of chains, with no chain empty. */
  ghost predicate Chained(chains: seq<seq<Entry>>, i: nat, holes: set<Hole>) {
    && (forall c :: 0 <= c < |chains| ==> chains[c] != [])
    && Listed(Flatten(chains), i, holes)
  }

  ghost function Flatten(chains: seq<seq<Entry>>): seq<Entry> {
    if chains == [] then [] else chains[0] + Flatten(chains[1..])
  }

  // ---------- Lists ----------

  lemma PushListed(list: seq<Entry>, i: nat, holes: set<Hole>, h: Hole)
    requires Listed(list, i, holes) && Disjoint(holes) && h.granules > 0
    requires forall a :: a in holes ==> Apart(a, h)
    ensures Listed(if i == BucketForInsert(h.granules) then [EntryFor(h)] + list else list, i, holes + {h})
  {
    hide BucketForInsert;
    HoleOfEntry(h);
    var holes' := holes + {h};
    var list' := if i == BucketForInsert(h.granules) then [EntryFor(h)] + list else list;
    forall j | 0 <= j < |list'| ensures IsEntryOf(list'[j], i, holes') {
      if i == BucketForInsert(h.granules) && j > 0 {
        assert list'[j] == list[j - 1];
        assert IsEntryOf(list[j - 1], i, holes);
      }
    }
    if i == BucketForInsert(h.granules) {
      forall j | 0 <= j < |list| ensures list[j].start != h.start {
        assert IsEntryOf(list[j], i, holes);
      }
    }
  }

  lemma PopListed(list: seq<Entry>, i: nat, holes: set<Hole>, h: Hole)
    requires Listed(list, i, holes) && h in holes && h.granules > 0
    requires i == BucketForInsert(h.granules) ==> list != [] && list[0] == EntryFor(h)
    ensures Listed(if i == BucketForInsert(h.granules) then list[1..] else list, i, holes - {h})
  {
    hide BucketForInsert;
    HoleOfEntry(h);
    var holes' := holes - {h};
    var list' := if i == BucketForInsert(h.granules) then list[1..] else list;
    if i == BucketForInsert(h.granules) {
      forall j | 0 <= j < |list'| ensures IsEntryOf(list'[j], i, holes') {
        assert list'[j] == list[j + 1];
        assert IsEntryOf(list[j + 1], i, holes);
      }
      forall a | a in holes' && a.granules > 0 && BucketForInsert(a.granules) == i ensures EntryFor(a) in list' {
        HoleOfEntry(a);
        assert EntryFor(a) in list;
        assert EntryFor(a) != list[0];
      }
    } else {
      forall j | 0 <= j < |list'| ensures IsEntryOf(list'[j], i, holes') {
        assert IsEntryOf(list[j], i, holes);
      }
    }
  }

  lemma EmptyListed(i: nat, holes: set<Hole>)
    ensures Listed([], i, holes) <==>
            forall h :: h in holes && h.granules > 0 ==> BucketForInsert(h.granules) != i
  {}

  // ---------- The area of a set of holes ----------

  lemma AreaUnion(a: set<Hole>, b: set<Hole>)
    ensures Area(a + b) == Area(a) + Area(b)
  {}

  /** The holes that remain when a hole gives up its first granules. */
  ghost function Remainder(holes: set<Hole>, h: Hole, granules: nat): set<Hole> {
    if h.granules > granules then holes - {h} + {Hole(h.start + granules, h.granules - granules)}
    else holes - {h}
  }

  /** Taking `granules` off the front of a hole takes exactly those granules out of the area. */
  lemma AreaTake(holes: set<Hole>, h: Hole, granules: nat, rest: set<Hole>)
    requires Disjoint(holes) && h in holes && 0 < granules <= h.granules
    requires rest == Remainder(holes, h, granules)
    ensures Disjoint(rest)
    ensures Area(rest) == Area(holes) - Span(Hole(h.start, granules))
    ensures Span(Hole(h.start, granules)) <= Area(holes)
  {
    var taken := Span(Hole(h.start, granules));
    var tail := Hole(h.start + granules, h.granules - granules);
    forall k: nat ensures k in Area(rest) <==> k in Area(holes) && k !in taken {
      if k in Area(rest) {
        var a :| a in rest && k in Span(a);
        if a in holes && a != h {
          assert Apart(a, h);
        } else {
          assert k in Span(h);
        }
      }
      if k in Area(holes) && k !in taken {
        var a :| a in holes && k in Span(a);
        if a == h {
          assert k in Span(tail) && tail in rest;
        } else {
          assert a in rest;
        }
      }
    }
    forall k | k in taken ensures k in Area(holes) {
      assert k in Span(h);
    }
    forall a, b | a in rest && b in rest && a != b ensures Apart(a, b) {
      if a in holes && b in holes {
      } else if a in holes {
        assert Apart(a, h);
      } else if b in holes {
        assert Apart(b, h);
      }
    }
  }

  // ---------- The set of one allocator ----------

  /** The least index from `from` on whose bit is set, or the number of bits. */
  function FirstSet(bits: seq<bool>, from: nat): (i: nat)
    requires from <= |bits|
    ensures from <= i <= |bits| && (i < |bits| ==> bits[i])
    ensures forall j :: from <= j < i ==> !bits[j]
    decreases |bits| - from
  {
    if from == |bits| then from else if bits[from] then from else FirstSet(bits, from + 1)
  }

  datatype Popped = Null | Ref(start: nat)

  ghost predicate Represents(buckets: seq<seq<Entry>>, nonempty: seq<bool>, holes: set<Hole>) {
    && |buckets| == |nonempty| == CLASSES
    && Disjoint(holes)
    && (forall i :: 0 <= i < CLASSES ==> Listed(buckets[i], i, holes))
    && (forall i :: 0 <= i < CLASSES ==> (nonempty[i] <==> buckets[i] != []))
  }

  lemma Classified(buckets: seq<seq<Entry>>, nonempty: seq<bool>, holes: set<Hole>, h: Hole)
    requires Represents(buckets, nonempty, holes) && h in holes
    ensures h.granules > 0 && nonempty[BucketForInsert(h.granules)]
  {
    var i := BucketForInsert(h.granules);
    assert Listed(buckets[i], i, holes);
    assert EntryFor(h) in buckets[i];
  }

  lemma FirstOf(buckets: seq<seq<Entry>>, nonempty: seq<bool>, holes: set<Hole>, i: nat)
    requires Represents(buckets, nonempty, holes) && i < CLASSES && nonempty[i]
    ensures buckets[i] != []
    ensures var h := HoleIn(i, buckets[i][0]);
            h in holes && h.granules > 0 && BucketForInsert(h.granules) == i && EntryFor(h) == buckets[i][0]
  {
    assert Listed(buckets[i], i, holes);
    assert IsEntryOf(buckets[i][0], i, holes);
  }

  lemma PushRepresents(buckets: seq<seq<Entry>>, nonempty: seq<bool>, holes: set<Hole>, h: Hole)
    requires Represents(buckets, nonempty, holes) && h.granules > 0
    requires forall a :: a in holes ==> Apart(a, h)
    ensures var i := BucketForInsert(h.granules);
            Represents(buckets[i := [EntryFor(h)] + buckets[i]], nonempty[i := true], holes + {h})
  {
    hide Listed, BucketForInsert, EntryFor;
    forall j | 0 <= j < CLASSES {
      PushListed(buckets[j], j, holes, h);
    }
  }

  lemma PopRepresents(buckets: seq<seq<Entry>>, nonempty: seq<bool>, holes: set<Hole>, i: nat)
    requires Represents(buckets, nonempty, holes) && i < CLASSES && nonempty[i]
    ensures buckets[i] != []
    ensures Represents(buckets[i := buckets[i][1..]], nonempty[i := buckets[i][1..] != []],
                       holes - {HoleIn(i, buckets[i][0])})
  {
    hide Listed, BucketForInsert, EntryFor, HoleIn;
    FirstOf(buckets, nonempty, holes, i);
    var h := HoleIn(i, buckets[i][0]);
    forall j | 0 <= j < CLASSES {
      PopListed(buckets[j], j, holes, h);
    }
  }

  class Holes {
    var nonempty: seq<bool>
    var buckets: seq<seq<Entry>>
    ghost var holes: set<Hole>

    ghost predicate Valid()
      reads this
    {
      Represents(buckets, nonempty, holes)
    }

    constructor ()
      ensures Valid() && holes == {}
    {
      nonempty := seq(CLASSES, _ => false);
      buckets := seq(CLASSES, _ => []);
      holes := {};
    }

    method PushLocal(start: nat, granules: nat)
      requires Valid() && granules > 0
      requires forall a :: a in holes ==> Apart(a, Hole(start, granules))
      modifies this
      ensures Valid() && holes == old(holes) + {Hole(start, granules)}
    {
      hide Represents, EntryFor, BucketForInsert, Apart;
      PushRepresents(buckets, nonempty, holes, Hole(start, granules));
      RepresentsSizes(buckets, nonempty, holes);
      var idx := BucketForInsert(granules);
      buckets := buckets[idx := [EntryFor(Hole(start, granules))] + buckets[idx]];
      nonempty := nonempty[idx := true];
      holes := holes + {Hole(start, granules)};
    }

    /** Takes a hole from the least class that is sure to be large enough, and pushes the rest of it back. */
    method TryPop(granules: nat) returns (r: Popped, ghost hole: Hole)
      requires Valid() && 0 < granules <= MAX_GRANULES
      modifies this
      ensures Valid()
      ensures r == Null <==>
              forall h :: h in old(holes) ==> BucketForInsert(h.granules) < BucketForLookup(granules)
      ensures r == Null ==> holes == old(holes)
      ensures r.Ref? ==> hole in old(holes) && r.start == hole.start && hole.granules >= granules
      ensures r.Ref? ==> holes == Remainder(old(holes), hole, granules)
      ensures r.Ref? ==> Area(holes) == old(Area(holes)) - Span(Hole(r.start, granules))
      ensures r.Ref? ==> forall h :: h in old(holes) && BucketForInsert(h.granules) >= BucketForLookup(granules) ==>
                BucketForInsert(hole.granules) <= BucketForInsert(h.granules)
    {
      hide Represents, EntryFor, BucketForInsert, BucketForLookup, HoleIn, Area, Span, Disjoint;
      RepresentsSizes(buckets, nonempty, holes);
      var minIdx := BucketForLookup(granules);
      var idx := FirstSet(nonempty, minIdx);
      hole := Hole(0, 0);
      forall h | h in holes ensures h.granules > 0 && nonempty[BucketForInsert(h.granules)] {
        Classified(buckets, nonempty, holes, h);
      }
      if idx == CLASSES {
        return Null, hole;
      }
      FirstOf(buckets, nonempty, holes, idx);
      PopRepresents(buckets, nonempty, holes, idx);
      var ret := buckets[idx][0];
      hole := HoleIn(idx, ret);
      ClassIsEnough(granules, hole.granules);
      ghost var rest := holes - {hole};
      var left := buckets[idx][1..];
      PoppedSize(idx, ret);
      var holeGranules := if idx < PACKED then idx + 1 else ret.granules;
      ghost var was := holes;
      buckets := buckets[idx := left];
      nonempty := nonempty[idx := left != []];
      holes := rest;
      var tailGranules := holeGranules - granules;
      TailApart(was, hole, granules);
      if tailGranules > 0 {
        PushLocal(ret.start + granules, tailGranules);
      }
      AreaTake(was, hole, granules, holes);
      r := Ref(ret.start);
    }

    /** Moves every list to the shared set. */
    method Release(shared: SharedHoles)
      requires Valid() && shared.Valid()
      requires forall a, b :: a in holes && b in shared.holes ==> Apart(a, b)
      modifies this, shared
      ensures Valid() && shared.Valid()
      ensures holes == {} && shared.holes == old(shared.holes) + old(holes)
    {
      hide Represents, SharedRepresents, Apart;
      RepresentsSizes(buckets, nonempty, holes);
      SharedSizes(shared.buckets, shared.nonempty, shared.holes);
      NothingSet(buckets, nonempty, holes);
      ghost var lists, chains := buckets, shared.buckets;
      var wereSet := shared.nonempty;
      var todo := nonempty;
      if FirstSet(todo, 0) == CLASSES {
        return;
      }
      nonempty := seq(CLASSES, _ => false);
      shared.nonempty := seq(CLASSES, i requires 0 <= i < CLASSES => wereSet[i] || todo[i]);
      var idx := FirstSet(todo, 0);
      while idx < CLASSES
        invariant 0 <= idx <= CLASSES && |buckets| == |shared.buckets| == CLASSES
        invariant idx < CLASSES ==> todo[idx]
        invariant forall i :: 0 <= i < idx && todo[i] ==> buckets[i] == [] && shared.buckets[i] == [lists[i]] + chains[i]
        invariant forall i :: 0 <= i < CLASSES && (i >= idx || !todo[i]) ==>
                    buckets[i] == lists[i] && shared.buckets[i] == chains[i]
        modifies this`buckets, shared`buckets
      {
        var list := buckets[idx];
        buckets := buckets[idx := []];
        shared.buckets := shared.buckets[idx := [list] + shared.buckets[idx]];
        idx := FirstSet(todo, idx + 1);
      }
      MergeRepresents(lists, todo, holes, chains, wereSet, shared.holes, shared.buckets, shared.nonempty);
      EmptyRepresents(lists, todo, holes, buckets, nonempty);
      shared.holes := shared.holes + holes;
      holes := {};
    }

    /**
      Takes one list from the shared set, for an allocator that has none that would do.  The first look
      at the shared bitmap takes no lock, so it may be out of date.
    */
    method Acquire(shared: SharedHoles, granules: nat, sloppyNonempty: bool) returns (ok: bool)
      requires Valid() && shared.Valid() && 0 < granules <= MAX_GRANULES
      requires forall a, b :: a in holes && b in shared.holes ==> Apart(a, b)
      requires forall h :: h in holes ==> BucketForInsert(h.granules) < BucketForLookup(granules)
      modifies this, shared
      ensures Valid() && shared.Valid()
      ensures !ok ==> holes == old(holes) && shared.holes == old(shared.holes)
      ensures !ok && sloppyNonempty ==>
                forall h :: h in shared.holes ==> BucketForInsert(h.granules) < BucketForLookup(granules)
      ensures ok ==> shared.holes < old(shared.holes) && holes == old(holes) + (old(shared.holes) - shared.holes)
      ensures ok ==> exists h :: h in holes && BucketForInsert(h.granules) >= BucketForLookup(granules)
    {
      hide Represents, SharedRepresents, Apart, BucketForInsert, BucketForLookup, HoleIn;
      RepresentsSizes(buckets, nonempty, holes);
      SharedSizes(shared.buckets, shared.nonempty, shared.holes);
      if !sloppyNonempty {
        return false;
      }
      forall h | h in shared.holes ensures h.granules > 0 && shared.nonempty[BucketForInsert(h.granules)] {
        SharedClassified(shared.buckets, shared.nonempty, shared.holes, h);
      }
      var idx := FirstSet(shared.nonempty, BucketForLookup(granules));
      if idx == CLASSES {
        return false;
      }
      TakeRepresents(shared.buckets, shared.nonempty, shared.holes, idx);
      ghost var moved := Moved(shared.buckets, idx);
      GiveRepresents(buckets, nonempty, holes, shared.buckets, shared.nonempty, shared.holes, idx);
      var chain := shared.buckets[idx][0];
      var left := shared.buckets[idx][1..];
      shared.buckets := shared.buckets[idx := left];
      shared.nonempty := shared.nonempty[idx := left != []];
      buckets := buckets[idx := chain];
      nonempty := nonempty[idx := true];
      holes := holes + moved;
      shared.holes := shared.holes - moved;
      ok := true;
    }
  }

  class SharedHoles {
    var nonempty: seq<bool>
    var buckets: seq<seq<seq<Entry>>>
    ghost var holes: set<Hole>

    ghost predicate Valid()
      reads this
    {
      SharedRepresents(buckets, nonempty, holes)
    }

    constructor ()
      ensures Valid() && holes == {}
    {
      nonempty := seq(CLASSES, _ => false);
      buckets := seq(CLASSES, _ => []);
      holes := {};
    }
  }

  ghost predicate SharedRepresents(buckets: seq<seq<seq<Entry>>>, nonempty: seq<bool>, holes: set<Hole>) {
    && |buckets| == |nonempty| == CLASSES
    && Disjoint(holes)
    && (forall i :: 0 <= i < CLASSES ==> Chained(buckets[i], i, holes))
    && (forall i :: 0 <= i < CLASSES ==> (nonempty[i] <==> buckets[i] != []))
  }

  lemma SharedSizes(buckets: seq<seq<seq<Entry>>>, nonempty: seq<bool>, holes: set<Hole>)
    requires SharedRepresents(buckets, nonempty, holes)
    ensures |buckets| == |nonempty| == CLASSES && Disjoint(holes)
  {}

  lemma SharedClassified(buckets: seq<seq<seq<Entry>>>, nonempty: seq<bool>, holes: set<Hole>, h: Hole)
    requires SharedRepresents(buckets, nonempty, holes) && h in holes
    ensures h.granules > 0 && nonempty[BucketForInsert(h.granules)]
  {
    var i := BucketForInsert(h.granules);
    assert Chained(buckets[i], i, holes);
    assert EntryFor(h) in Flatten(buckets[i]);
  }

  lemma NothingSet(buckets: seq<seq<Entry>>, nonempty: seq<bool>, holes: set<Hole>)
    requires Represents(buckets, nonempty, holes)
    ensures FirstSet(nonempty, 0) == CLASSES ==> holes == {}
  {
    forall h | h in holes ensures FirstSet(nonempty, 0) != CLASSES {
      Classified(buckets, nonempty, holes, h);
    }
  }

  lemma MergeChained(list: seq<Entry>, chains: seq<seq<Entry>>, i: nat, a: set<Hole>, b: set<Hole>)
    requires Listed(list, i, a) && Chained(chains, i, b) && Disjoint(a) && Disjoint(b)
    requires forall x, y :: x in a && y in b ==> Apart(x, y)
    ensures Chained(if list != [] then [list] + chains else chains, i, a + b)
  {
    hide BucketForInsert, HoleIn, EntryFor;
    var flat := list + Flatten(chains);
    var chains' := if list != [] then [list] + chains else chains;
    if list != [] {
      assert chains'[1..] == chains;
    }
    assert Flatten(chains') == flat;
    forall j | 0 <= j < |flat| ensures IsEntryOf(flat[j], i, a + b) {
      if j < |list| {
        assert IsEntryOf(list[j], i, a);
      } else {
        assert IsEntryOf(Flatten(chains)[j - |list|], i, b);
      }
    }
    forall j, k | 0 <= j < |list| && 0 <= k < |Flatten(chains)| ensures list[j].start != Flatten(chains)[k].start {
      EntriesApart(list[j], Flatten(chains)[k], i, a, b);
    }
    forall h | h in a + b && h.granules > 0 && BucketForInsert(h.granules) == i ensures EntryFor(h) in flat {
      if h in a {
        assert EntryFor(h) in list;
      } else {
        assert EntryFor(h) in Flatten(chains);
      }
    }
  }

  lemma EntriesApart(d: Entry, e: Entry, i: nat, a: set<Hole>, b: set<Hole>)
    requires IsEntryOf(d, i, a) && IsEntryOf(e, i, b)
    requires forall x, y :: x in a && y in b ==> Apart(x, y)
    ensures d.start != e.start
  {
    assert Apart(HoleIn(i, d), HoleIn(i, e));
  }

  lemma DisjointUnion(a: set<Hole>, b: set<Hole>)
    requires Disjoint(a) && Disjoint(b) && forall x, y :: x in a && y in b ==> Apart(x, y)
    ensures Disjoint(a + b)
  {}

  lemma MergeRepresents(lists: seq<seq<Entry>>, bits: seq<bool>, a: set<Hole>,
                        chains: seq<seq<seq<Entry>>>, sharedBits: seq<bool>, b: set<Hole>,
                        chains': seq<seq<seq<Entry>>>, bits': seq<bool>)
    requires Represents(lists, bits, a) && SharedRepresents(chains, sharedBits, b)
    requires forall x, y :: x in a && y in b ==> Apart(x, y)
    requires |chains'| == |bits'| == CLASSES
    requires forall i :: 0 <= i < CLASSES ==> bits'[i] == (sharedBits[i] || bits[i])
    requires forall i :: 0 <= i < CLASSES ==>
               chains'[i] == if bits[i] then [lists[i]] + chains[i] else chains[i]
    ensures SharedRepresents(chains', bits', b + a)
  {
    hide Listed, Chained, Disjoint, Apart;
    DisjointUnion(a, b);
    assert a + b == b + a;
    forall i | 0 <= i < CLASSES ensures Chained(chains'[i], i, b + a) {
      MergeChained(lists[i], chains[i], i, a, b);
    }
  }

  lemma EmptyRepresents(lists: seq<seq<Entry>>, bits: seq<bool>, a: set<Hole>, lists': seq<seq<Entry>>, bits': seq<bool>)
    requires Represents(lists, bits, a) && |lists'| == |bits'| == CLASSES
    requires forall i :: 0 <= i < CLASSES ==> !bits'[i]
    requires forall i :: 0 <= i < CLASSES ==> lists'[i] == if bits[i] then [] else lists[i]
    ensures Represents(lists', bits', {})
  {
    hide Listed, BucketForInsert;
    forall i | 0 <= i < CLASSES ensures Listed(lists'[i], i, {}) {
      EmptyListed(i, {});
    }
  }

  /** The holes of the first chain of a class. */
  ghost function Moved(chains: seq<seq<seq<Entry>>>, i: nat): set<Hole>
    requires i < |chains| && chains[i] != []
  {
    set e | e in chains[i][0] :: HoleIn(i, e)
  }

  lemma SplitChained(chains: seq<seq<Entry>>, i: nat, holes: set<Hole>, moved: set<Hole>)
    requires Chained(chains, i, holes) && chains != []
    requires moved == set e | e in chains[0] :: HoleIn(i, e)
    ensures moved <= holes && moved != {}
    ensures forall h :: h in moved ==> h.granules > 0 && BucketForInsert(h.granules) == i
    ensures Listed(chains[0], i, moved) && Chained(chains[1..], i, holes - moved)
  {
    hide BucketForInsert, HoleIn, EntryFor, Listed;
    var list, rest := chains[0], Flatten(chains[1..]);
    assert Flatten(chains) == list + rest;
    FrontListed(list, rest, i, holes, moved);
    BackListed(list, rest, i, holes, moved);
    assert HoleIn(i, list[0]) in moved;
  }

  lemma FrontListed(list: seq<Entry>, rest: seq<Entry>, i: nat, holes: set<Hole>, moved: set<Hole>)
    requires Listed(list + rest, i, holes)
    requires moved == set e | e in list :: HoleIn(i, e)
    ensures moved <= holes && Listed(list, i, moved)
    ensures forall h :: h in moved ==> h.granules > 0 && BucketForInsert(h.granules) == i && EntryFor(h) in list
  {
    hide BucketForInsert, HoleIn, EntryFor;
    var flat := list + rest;
    forall j | 0 <= j < |list| ensures IsEntryOf(list[j], i, holes) && IsEntryOf(list[j], i, moved) {
      assert IsEntryOf(flat[j], i, holes);
      assert list[j] in list;
    }
    forall h | h in moved
      ensures h in holes && h.granules > 0 && BucketForInsert(h.granules) == i && EntryFor(h) in list
    {
      var e :| e in list && HoleIn(i, e) == h;
      var j :| 0 <= j < |list| && list[j] == e;
    }
    forall j, k | 0 <= j < k < |list| ensures list[j].start != list[k].start {
      assert flat[j] == list[j] && flat[k] == list[k];
    }
  }

  lemma BackListed(list: seq<Entry>, rest: seq<Entry>, i: nat, holes: set<Hole>, moved: set<Hole>)
    requires Listed(list + rest, i, holes)
    requires moved == set e | e in list :: HoleIn(i, e)
    ensures Listed(rest, i, holes - moved)
  {
    hide BucketForInsert, HoleIn, EntryFor;
    var flat := list + rest;
    forall k | 0 <= k < |list| ensures IsEntryOf(list[k], i, holes) && flat[k] == list[k] {
      assert IsEntryOf(flat[k], i, holes);
    }
    forall j | 0 <= j < |rest| ensures IsEntryOf(rest[j], i, holes - moved) {
      assert rest[j] == flat[|list| + j];
      assert IsEntryOf(flat[|list| + j], i, holes);
      forall e | e in list ensures HoleIn(i, e) != HoleIn(i, rest[j]) {
        var k :| 0 <= k < |list| && list[k] == e;
        assert flat[k].start != flat[|list| + j].start;
      }
    }
    forall h | h in holes - moved && h.granules > 0 && BucketForInsert(h.granules) == i ensures EntryFor(h) in rest {
      assert EntryFor(h) in flat;
      HoleOfEntry(h);
      assert EntryFor(h) in list ==> HoleIn(i, EntryFor(h)) in moved;
    }
    forall j, k | 0 <= j < k < |rest| ensures rest[j].start != rest[k].start {
      assert flat[|list| + j] == rest[j] && flat[|list| + k] == rest[k];
    }
  }

  lemma OtherChained(chains: seq<seq<Entry>>, i: nat, holes: set<Hole>, moved: set<Hole>, j: nat)
    requires Chained(chains, j, holes) && i != j
    requires forall h :: h in moved ==> h.granules > 0 && BucketForInsert(h.granules) == i
    ensures Chained(chains, j, holes - moved)
  {
    hide BucketForInsert, HoleIn, EntryFor;
    var flat := Flatten(chains);
    forall k | 0 <= k < |flat| ensures IsEntryOf(flat[k], j, holes - moved) {
      assert IsEntryOf(flat[k], j, holes);
    }
  }

  lemma TakeRepresents(chains: seq<seq<seq<Entry>>>, bits: seq<bool>, holes: set<Hole>, i: nat)
    requires SharedRepresents(chains, bits, holes) && i < CLASSES && bits[i]
    ensures chains[i] != [] && Moved(chains, i) <= holes && Moved(chains, i) != {}
    ensures forall h :: h in Moved(chains, i) ==> h.granules > 0 && BucketForInsert(h.granules) == i
    ensures SharedRepresents(chains[i := chains[i][1..]], bits[i := chains[i][1..] != []], holes - Moved(chains, i))
  {
    hide Listed, Chained, BucketForInsert, HoleIn;
    var moved := Moved(chains, i);
    SplitChained(chains[i], i, holes, moved);
    forall j | 0 <= j < CLASSES && j != i ensures Chained(chains[j], j, holes - moved) {
      OtherChained(chains[j], i, holes, moved, j);
    }
  }

  lemma OtherListed(list: seq<Entry>, i: nat, holes: set<Hole>, moved: set<Hole>, j: nat)
    requires Listed(list, j, holes) && i != j
    requires forall h :: h in moved ==> h.granules > 0 && BucketForInsert(h.granules) == i
    ensures Listed(list, j, holes + moved)
  {
    hide BucketForInsert, HoleIn, EntryFor;
    forall k | 0 <= k < |list| ensures IsEntryOf(list[k], j, holes + moved) {
      assert IsEntryOf(list[k], j, holes);
    }
  }

  lemma SameListed(list: seq<Entry>, i: nat, holes: set<Hole>, moved: set<Hole>)
    requires Listed(list, i, moved)
    requires forall h :: h in holes && h.granules > 0 ==> BucketForInsert(h.granules) != i
    ensures Listed(list, i, holes + moved)
  {
    hide BucketForInsert, HoleIn, EntryFor;
    forall k | 0 <= k < |list| ensures IsEntryOf(list[k], i, holes + moved) {
      assert IsEntryOf(list[k], i, moved);
    }
  }

  lemma GiveRepresents(lists: seq<seq<Entry>>, bits: seq<bool>, a: set<Hole>,
                       chains: seq<seq<seq<Entry>>>, sharedBits: seq<bool>, b: set<Hole>, i: nat)
    requires Represents(lists, bits, a) && SharedRepresents(chains, sharedBits, b)
    requires forall x, y :: x in a && y in b ==> Apart(x, y)
    requires i < CLASSES && sharedBits[i]
    requires forall h :: h in a ==> BucketForInsert(h.granules) < i
    ensures chains[i] != []
    ensures Represents(lists[i := chains[i][0]], bits[i := true], a + Moved(chains, i))
  {
    hide Listed, Chained, BucketForInsert, HoleIn;
    TakeRepresents(chains, sharedBits, b, i);
    var moved := Moved(chains, i);
    SplitChained(chains[i], i, b, moved);
    NotEmptyChain(chains[i], i, b);
    SameListed(chains[i][0], i, a, moved);
    DisjointUnion(a, moved);
    forall j | 0 <= j < CLASSES && j != i ensures Listed(lists[j], j, a + moved) {
      OtherListed(lists[j], i, a, moved, j);
    }
  }

  lemma NotEmptyChain(chains: seq<seq<Entry>>, i: nat, holes: set<Hole>)
    requires Chained(chains, i, holes) && chains != []
    ensures chains[0] != []
  {}

  lemma RepresentsSizes(buckets: seq<seq<Entry>>, nonempty: seq<bool>, holes: set<Hole>)
    requires Represents(buckets, nonempty, holes)
    ensures |buckets| == |nonempty| == CLASSES && Disjoint(holes)
  {}

  lemma PoppedSize(i: nat, e: Entry)
    ensures HoleIn(i, e) == Hole(e.start, if i < PACKED then i + 1 else e.granules)
  {}

  lemma TailApart(holes: set<Hole>, h: Hole, granules: nat)
    requires Disjoint(holes) && h in holes && granules <= h.granules
    ensures forall a :: a in holes - {h} ==> Apart(a, Hole(h.start + granules, h.granules - granules))
  {
    forall a | a in holes - {h} ensures Apart(a, Hole(h.start + granules, h.granules - granules)) {
      assert Apart(a, h);
    }
  }

  // ---------- Allocators at work ----------

  /**
    Allocation from the holes that sweeping left behind: after a failed pop, one list acquired is
    enough for the next pop to succeed.
  */
  method AllocateSecondChance(local: Holes, shared: SharedHoles, granules: nat, sloppyNonempty: bool)
    returns (r: Popped)
    requires local.Valid() && shared.Valid() && 0 < granules <= MAX_GRANULES
    requires forall a, b :: a in local.holes && b in shared.holes ==> Apart(a, b)
    modifies local, shared
    ensures local.Valid() && shared.Valid()
    ensures r == Null ==> local.holes == old(local.holes) && shared.holes == old(shared.holes)
    ensures r == Null && sloppyNonempty ==>
              forall h :: h in local.holes + shared.holes ==> BucketForInsert(h.granules) < BucketForLookup(granules)
    ensures r.Ref? ==>
              Area(local.holes) + Area(shared.holes) ==
              old(Area(local.holes) + Area(shared.holes)) - Span(Hole(r.start, granules))
    ensures r.Ref? ==> Span(Hole(r.start, granules)) <= old(Area(local.holes) + Area(shared.holes))
  {
    hide Represents, SharedRepresents, BucketForInsert, BucketForLookup, Area, Span, Remainder, Apart;
    ghost var a, b := local.holes, shared.holes;
    SharedSizes(shared.buckets, shared.nonempty, b);
    AreasApart(a, b);
    ghost var hole;
    r, hole := local.TryPop(granules);
    if r.Ref? {
      SpanInside(a, hole, granules);
      return;
    }
    var ok := local.Acquire(shared, granules, sloppyNonempty);
    if ok {
      ghost var mid := local.holes;
      assert mid + shared.holes == a + b;
      AreaUnion(mid, shared.holes);
      AreaUnion(a, b);
      SharedDisjoint(shared, local, a, b);
      AreasApart(mid, shared.holes);
      r, hole := local.TryPop(granules);
      SpanInside(mid, hole, granules);
    }
  }

  lemma AreasApart(a: set<Hole>, b: set<Hole>)
    requires forall x, y :: x in a && y in b ==> Apart(x, y)
    ensures Area(a) !! Area(b)
  {}

  lemma SpanInside(holes: set<Hole>, h: Hole, granules: nat)
    requires h in holes && granules <= h.granules
    ensures Span(Hole(h.start, granules)) <= Area(holes)
  {
    forall k | k in Span(Hole(h.start, granules)) ensures k in Area(holes) {
      assert k in Span(h);
    }
  }

  lemma SharedDisjoint(shared: SharedHoles, local: Holes, a: set<Hole>, b: set<Hole>)
    requires Disjoint(b) && shared.holes <= b && local.holes == a + (b - shared.holes)
    requires forall x, y :: x in a && y in b ==> Apart(x, y)
    ensures forall x, y :: x in local.holes && y in shared.holes ==> Apart(x, y)
  {}

  // ---------- Conservation over runs ----------

  /** Any number of allocators, the shared set, the granules handed out, and all that was ever pushed. */
  datatype World = World(locals: seq<set<Hole>>, shared: set<Hole>, used: set<nat>, swept: set<nat>)

  datatype Action =
    | Push(t: nat, h: Hole)
    | Pop(t: nat, h: Hole, granules: nat)
    | ReleaseAll(t: nat)
    | Take(t: nat, moved: set<Hole>)

  ghost predicate Enabled(w: World, a: Action) {
    && a.t < |w.locals|
    && match a
       case Push(_, h) => h.granules > 0 && Span(h) !! w.swept
       case Pop(t, h, granules) => h in w.locals[t] && 0 < granules <= h.granules
       case ReleaseAll(_) => true
       case Take(_, moved) => moved <= w.shared
  }

  ghost function Next(w: World, a: Action): World
    requires Enabled(w, a)
  {
    match a
    case Push(t, h) => w.(locals := w.locals[t := w.locals[t] + {h}], swept := w.swept + Span(h))
    case Pop(t, h, granules) =>
      w.(locals := w.locals[t := Remainder(w.locals[t], h, granules)], used := w.used + Span(Hole(h.start, granules)))
    case ReleaseAll(t) => w.(locals := w.locals[t := {}], shared := w.shared + w.locals[t])
    case Take(t, moved) => w.(locals := w.locals[t := w.locals[t] + moved], shared := w.shared - moved)
  }

  datatype Owner = Local(t: nat) | Shared | Used

  ghost function Owned(w: World, o: Owner): set<nat> {
    match o
    case Local(t) => if t < |w.locals| then Area(w.locals[t]) else {}
    case Shared => Area(w.shared)
    case Used => w.used
  }

  /** Every granule ever pushed has exactly one owner, and no set holds overlapping holes. */
  ghost predicate Inv(w: World) {
    && (forall t :: 0 <= t < |w.locals| ==> Disjoint(w.locals[t]))
    && Disjoint(w.shared)
    && (forall o: Owner :: Owned(w, o) <= w.swept)
    && (forall k :: k in w.swept ==> exists o: Owner :: k in Owned(w, o))
    && (forall o: Owner, o': Owner :: o != o' ==> Owned(w, o) !! Owned(w, o'))
  }

  ghost predicate Initial(w: World) {
    (forall t :: 0 <= t < |w.locals| ==> w.locals[t] == {}) && w.shared == {} && w.used == {} && w.swept == {}
  }

  ghost predicate IsRun(run: seq<World>) {
    && run != [] && Initial(run[0])
    && (forall i :: 0 <= i < |run| - 1 ==> exists a: Action :: Enabled(run[i], a) && run[i + 1] == Next(run[i], a))
  }

  lemma NextPush(w: World, t: nat, h: Hole)
    requires Inv(w) && Enabled(w, Push(t, h))
    ensures Inv(Next(w, Push(t, h)))
  {
    var w' := Next(w, Push(t, h));
    AreaUnion(w.locals[t], {h});
    AreaOfOne(h);
    forall o: Owner ensures Owned(w', o) == if o == Local(t) then Owned(w, o) + Span(h) else Owned(w, o) {
    }
    assert Owned(w, Local(t)) == Area(w.locals[t]);
    SpanApart(w.locals[t], h);
    hide Area, Span, Disjoint;
    assert Owned(w, Local(t)) <= w.swept;
    forall k | k in w'.swept ensures exists o: Owner :: k in Owned(w', o) {
      if k in w.swept {
        var o: Owner :| k in Owned(w, o);
        assert k in Owned(w', o);
      } else {
        assert k in Owned(w', Local(t));
      }
    }
    forall o: Owner, o': Owner | o != o' ensures Owned(w', o) !! Owned(w', o') {
      assert Owned(w, o) !! Owned(w, o') && Owned(w, o) <= w.swept && Owned(w, o') <= w.swept;
    }
  }

  lemma AreaOfOne(h: Hole)
    ensures Area({h}) == Span(h)
  {}

  lemma Meeting(a: Hole, b: Hole)
    requires a.granules > 0 && b.granules > 0
    ensures Apart(a, b) || !(Span(a) !! Span(b))
  {
    var k := if a.start >= b.start then a.start else b.start;
    assert k in Span(a) <==> Within(a, k);
    assert k in Span(b) <==> Within(b, k);
  }

  lemma SpanApart(holes: set<Hole>, h: Hole)
    requires Disjoint(holes) && h.granules > 0 && Area(holes) !! Span(h)
    ensures Disjoint(holes + {h})
  {
    forall a | a in holes ensures Apart(a, h) {
      Meeting(a, h);
      SpanInside(holes, a, a.granules);
    }
  }

  lemma NextPop(w: World, t: nat, h: Hole, granules: nat)
    requires Inv(w) && Enabled(w, Pop(t, h, granules))
    ensures Inv(Next(w, Pop(t, h, granules)))
  {
    var w' := Next(w, Pop(t, h, granules));
    var taken := Span(Hole(h.start, granules));
    AreaTake(w.locals[t], h, granules, Remainder(w.locals[t], h, granules));
    hide Area, Span, Disjoint, Remainder;
    forall o: Owner ensures Owned(w', o) ==
        if o == Local(t) then Owned(w, o) - taken else if o == Used then Owned(w, o) + taken else Owned(w, o) {
    }
    assert taken <= Owned(w, Local(t)) <= w.swept;
    forall k | k in w'.swept ensures exists o: Owner :: k in Owned(w', o) {
      var o: Owner :| k in Owned(w, o);
      assert k in Owned(w', if k in taken then Used else o);
    }
    forall o: Owner, o': Owner | o != o' ensures Owned(w', o) !! Owned(w', o') {
      assert Owned(w, o) !! Owned(w, o');
      assert o != Local(t) ==> Owned(w, o) !! Owned(w, Local(t));
      assert o' != Local(t) ==> Owned(w, o') !! Owned(w, Local(t));
    }
  }

  lemma NextRelease(w: World, t: nat)
    requires Inv(w) && Enabled(w, ReleaseAll(t))
    ensures Inv(Next(w, ReleaseAll(t)))
  {
    var w' := Next(w, ReleaseAll(t));
    AreaUnion(w.shared, w.locals[t]);
    var area := Owned(w, Local(t));
    assert Owned(w, Shared) !! area;
    JoinDisjoint(w.shared, w.locals[t]);
    assert Area({}) == {};
    hide Area, Disjoint;
    forall o: Owner ensures Owned(w', o) ==
        if o == Local(t) then {} else if o == Shared then Owned(w, o) + area else Owned(w, o) {
    }
    forall k | k in w'.swept ensures exists o: Owner :: k in Owned(w', o) {
      var o: Owner :| k in Owned(w, o);
      assert k in Owned(w', if o == Local(t) then Shared else o);
    }
    forall o: Owner, o': Owner | o != o' ensures Owned(w', o) !! Owned(w', o') {
      assert Owned(w, o) !! Owned(w, o');
      assert o != Local(t) ==> Owned(w, o) !! area;
      assert o' != Local(t) ==> Owned(w, o') !! area;
    }
  }

  lemma JoinDisjoint(a: set<Hole>, b: set<Hole>)
    requires Disjoint(a) && Disjoint(b) && Area(a) !! Area(b)
    ensures Disjoint(a + b)
  {
    forall x, y | x in a && y in b ensures Apart(x, y) {
      Meeting(x, y);
      SpanInside(a, x, x.granules);
      SpanInside(b, y, y.granules);
    }
  }

  lemma NextTake(w: World, t: nat, moved: set<Hole>)
    requires Inv(w) && Enabled(w, Take(t, moved))
    ensures Inv(Next(w, Take(t, moved)))
  {
    var w' := Next(w, Take(t, moved));
    AreaUnion(w.locals[t], moved);
    AreaUnion(w.shared - moved, moved);
    assert w.shared - moved + moved == w.shared;
    DisjointSub(w.shared, moved);
    var area := Area(moved);
    assert area <= Owned(w, Shared) && Owned(w, Shared) !! Owned(w, Local(t));
    JoinDisjoint(w.locals[t], moved);
    hide Area, Disjoint;
    forall o: Owner ensures Owned(w', o) ==
        if o == Local(t) then Owned(w, o) + area else if o == Shared then Owned(w, o) - area else Owned(w, o) {
    }
    forall k | k in w'.swept ensures exists o: Owner :: k in Owned(w', o) {
      var o: Owner :| k in Owned(w, o);
      assert k in Owned(w', if k in area then Local(t) else o);
    }
    forall o: Owner, o': Owner | o != o' ensures Owned(w', o) !! Owned(w', o') {
      assert Owned(w, o) !! Owned(w, o');
      assert o != Shared ==> Owned(w, o) !! Owned(w, Shared);
      assert o' != Shared ==> Owned(w, o') !! Owned(w, Shared);
    }
  }

  /** Part of a disjoint set is disjoint, and its area is what the rest does not cover. */
  lemma DisjointSub(holes: set<Hole>, part: set<Hole>)
    requires Disjoint(holes) && part <= holes
    ensures Disjoint(part) && Disjoint(holes - part)
    ensures Area(holes - part) == Area(holes) - Area(part)
  {
    forall k | k in Area(holes - part) ensures k !in Area(part) {
      var a :| a in holes - part && k in Span(a);
      forall b | b in part ensures k !in Span(b) {
        assert Apart(a, b);
      }
    }
    AreaUnion(holes - part, part);
    assert holes - part + part == holes;
  }

  lemma StepInv(w: World, a: Action)
    requires Inv(w) && Enabled(w, a)
    ensures Inv(Next(w, a))
  {
    hide Inv, Enabled, Next;
    match a
    case Push(t, h) => NextPush(w, t, h);
    case Pop(t, h, granules) => NextPop(w, t, h, granules);
    case ReleaseAll(t) => NextRelease(w, t);
    case Take(t, moved) => NextTake(w, t, moved);
  }

  /** At every point of every run each granule ever pushed is in one hole of one set, or handed out: never both. */
  lemma {:induction false} RunInv(run: seq<World>, i: nat)
    requires IsRun(run) && i < |run|
    ensures Inv(run[i])
  {
    if i == 0 {
      InitialInv(run[0]);
    } else {
      hide Inv, Enabled, Next;
      RunInv(run, i - 1);
      assert i - 1 + 1 == i;
      var a: Action :| Enabled(run[i - 1], a) && run[i] == Next(run[i - 1], a);
      StepInv(run[i - 1], a);
    }
  }

  lemma InitialInv(w: World)
    requires Initial(w)
    ensures Inv(w)
  {
    assert Area({}) == {};
    forall o: Owner ensures Owned(w, o) == {} {
    }
  }
}
