/**
  One block of the nofl space (src/nofl-space.h): lazy sweeping of its mark bytes, allocation into
  the holes, and the resolution of a possibly interior address to an object.

  The block is its metadata array, one byte a granule.  An object is a run of granules whose first
  byte has a mark and whose last byte has the END bit.
*/
module NoflBlock {
  import opened Swar

  const MARK_MASK: Byte := 7
  const YOUNG: Byte := 1
  const END: Byte := 32
  const GRANULE_SIZE := 16

  function Mark(b: Byte): Byte { b & MARK_MASK }

  predicate Starts(b: Byte) { Mark(b) != 0 }

  predicate Ends(b: Byte) { b & END != 0 }

  // ---------- Objects in mark bytes ----------

  ghost predicate ObjectAt(m: seq<Byte>, i: int, j: int) {
    && 0 <= i <= j < |m|
    && Starts(m[i]) && Ends(m[j])
    && (forall k :: i < k <= j ==> !Starts(m[k]))
    && (forall k :: i <= k < j ==> !Ends(m[k]))
  }

  ghost predicate Begun(m: seq<Byte>, i: int) {
    exists j :: ObjectAt(m, i, j)
  }

  ghost predicate Ended(m: seq<Byte>, j: int) {
    exists i :: ObjectAt(m, i, j)
  }

  ghost predicate WellFormed(m: seq<Byte>) {
    && (forall i :: 0 <= i < |m| && Starts(m[i]) ==> Begun(m, i))
    && (forall j :: 0 <= j < |m| && Ends(m[j]) ==> Ended(m, j))
  }

  /** No object lies across the boundary before granule `k`. */
  ghost predicate Boundary(m: seq<Byte>, k: int) {
    forall i, j :: ObjectAt(m, i, j) ==> j < k || k <= i
  }

  lemma ObjectsDisjoint(m: seq<Byte>, i: int, j: int, i': int, j': int)
    requires ObjectAt(m, i, j) && ObjectAt(m, i', j') && i <= j' && i' <= j
    ensures i == i' && j == j'
  {}

  lemma EndOf(m: seq<Byte>, i: nat) returns (j: nat)
    requires WellFormed(m) && i < |m| && Starts(m[i])
    ensures ObjectAt(m, i, j)
  {
    assert Begun(m, i);
    hide WellFormed;
    j :| ObjectAt(m, i, j);
  }

  lemma StartOf(m: seq<Byte>, j: nat) returns (i: nat)
    requires WellFormed(m) && j < |m| && Ends(m[j])
    ensures ObjectAt(m, i, j)
  {
    assert Ended(m, j);
    hide WellFormed;
    i :| ObjectAt(m, i, j);
  }

  lemma StartIsBoundary(m: seq<Byte>, i: int)
    requires 0 <= i < |m| && Starts(m[i])
    ensures Boundary(m, i)
  {
    hide Starts, Ends;
  }

  lemma AfterEndIsBoundary(m: seq<Byte>, i: int, j: int)
    requires ObjectAt(m, i, j)
    ensures Boundary(m, j + 1)
  {
    hide Starts, Ends;
  }

  // ---------- Interior addresses ----------

  /** The object at `i` covers granule `k`. */
  ghost predicate Covers(m: seq<Byte>, i: int, k: int) {
    exists j :: ObjectAt(m, i, j) && i <= k <= j
  }

  lemma HitIsStartOrEnd(b: Byte)
    ensures Hit(Bits(MARK_MASK | END), b) <==> Starts(b) || Ends(b)
  {}

  /** Neither a start nor an end. */
  ghost predicate Quiet(m: seq<Byte>, from: int, to: int) {
    forall k :: 0 <= k < |m| && from <= k < to ==> !Starts(m[k]) && !Ends(m[k])
  }

  lemma NoHitIsQuiet(m: seq<Byte>, from: int, to: int)
    requires NoHit(m, Bits(MARK_MASK | END), from, to)
    ensures Quiet(m, from, to)
  {
    hide Hit, Starts, Ends;
    forall k | 0 <= k < |m| && from <= k < to ensures !Starts(m[k]) && !Ends(m[k]) {
      HitIsStartOrEnd(m[k]);
    }
  }

  lemma ResolveStart(m: seq<Byte>, k: nat)
    requires WellFormed(m) && k < |m| && Starts(m[k])
    ensures Covers(m, k, k)
  {
    assert Begun(m, k);
  }

  lemma ResolveNothing(m: seq<Byte>, k: nat, i: int)
    requires WellFormed(m) && k < |m| && !Starts(m[k])
    requires Quiet(m, 0, k)
    ensures !Covers(m, i, k)
  {
    hide Starts, Ends;
  }

  lemma ResolveHit(m: seq<Byte>, k: nat, r: nat)
    requires WellFormed(m) && k < |m| && !Starts(m[k])
    requires r < k && (Starts(m[r]) || Ends(m[r]))
    requires Quiet(m, r + 1, k)
    ensures !Ends(m[r]) ==> Covers(m, r, k)
    ensures forall i :: Covers(m, i, k) ==> i == r && !Ends(m[r])
  {
    hide Starts, Ends, WellFormed;
    if !Ends(m[r]) {
      var j := EndOf(m, r);
    }
    forall i | Covers(m, i, k) ensures i == r && !Ends(m[r]) {
      var j :| ObjectAt(m, i, j) && i <= k <= j;
    }
  }

  /**
    The object that a byte address in a block refers to, by its first granule.  Whether the block
    is paged out, and whether a displacement into a granule is valid, are for others to say.
  */
  method ResolveConservativeRef(meta: array<Byte>, addr: nat, possiblyInterior: bool, unavailable: bool,
                                validDisplacement: nat -> bool)
    returns (r: Found)
    requires Aligned(meta.Length) && WellFormed(meta[..]) && addr < meta.Length * GRANULE_SIZE
    ensures unavailable ==> r == Nothing
    ensures !unavailable && possiblyInterior ==>
              forall i: nat :: r == At(i) <==> Covers(meta[..], i, addr / GRANULE_SIZE)
    ensures !unavailable && !possiblyInterior ==>
              forall i: nat :: r == At(i) <==>
                validDisplacement(addr % GRANULE_SIZE) && i == addr / GRANULE_SIZE && Starts(meta[i])
  {
    hide Hit, Aligned, Starts, Ends, NoHit;
    var granule := addr / GRANULE_SIZE;
    if !possiblyInterior && !validDisplacement(addr % GRANULE_SIZE) {
      return Nothing;
    }
    if unavailable {
      return Nothing;
    }
    if Starts(meta[granule]) {
      OnlyStart(meta[..], granule);
      return At(granule);
    }
    if !possiblyInterior {
      return Nothing;
    }
    BaseAligned();
    var loc := ScanBackwards(meta, granule, 0, Bits(MARK_MASK | END));
    if loc.Nothing? {
      NoHitIsQuiet(meta[..], 0, granule);
      forall i: nat ensures !Covers(meta[..], i, granule) {
        ResolveNothing(meta[..], granule, i);
      }
      return Nothing;
    }
    NoHitIsQuiet(meta[..], loc.index + 1, granule);
    HitIsStartOrEnd(meta[loc.index]);
    ResolveHit(meta[..], granule, loc.index);
    if Ends(meta[loc.index]) {
      return Nothing;
    }
    return At(loc.index);
  }

  lemma BaseAligned()
    ensures Aligned(0)
  {}

  lemma OnlyStart(m: seq<Byte>, k: nat)
    requires WellFormed(m) && k < |m| && Starts(m[k])
    ensures forall i: nat :: i == k <==> Covers(m, i, k)
  {
    hide Starts, Ends;
    ResolveStart(m, k);
  }

  // ---------- Survivors and holes ----------

  datatype Hole = Hole(start: nat, granules: nat)

  ghost predicate Survivor(m: seq<Byte>, s: Byte, i: int, j: int) {
    ObjectAt(m, i, j) && Mark(m[i]) == s
  }

  ghost predicate SurvivorGranule(m: seq<Byte>, s: Byte, k: int) {
    exists i, j :: Survivor(m, s, i, j) && i <= k <= j
  }

  ghost function SurvivorGranules(m: seq<Byte>, s: Byte, n: nat): (c: nat)
    ensures c <= n
  {
    if n == 0 then 0 else SurvivorGranules(m, s, n - 1) + if SurvivorGranule(m, s, n - 1) then 1 else 0
  }

  ghost predicate InHole(holes: seq<Hole>, k: int) {
    exists a :: 0 <= a < |holes| && holes[a].start <= k < holes[a].start + holes[a].granules
  }

  ghost function Granules(holes: seq<Hole>): nat {
    if holes == [] then 0 else Granules(holes[..|holes| - 1]) + holes[|holes| - 1].granules
  }

  /** A hole that cannot be made longer on either side. */
  ghost predicate Maximal(m: seq<Byte>, s: Byte, h: Hole) {
    && h.granules > 0 && h.start + h.granules <= |m|
    && (h.start == 0 || SurvivorGranule(m, s, h.start - 1))
    && (h.start + h.granules == |m| || SurvivorGranule(m, s, h.start + h.granules))
  }

  /** The holes so far split the first `n` granules of the block into holes and survivors. */
  ghost predicate Split(m: seq<Byte>, s: Byte, holes: seq<Hole>, n: nat) {
    && n <= |m| && Boundary(m, n)
    && (forall k :: 0 <= k < n ==> (InHole(holes, k) <==> !SurvivorGranule(m, s, k)))
    && (forall a :: 0 <= a < |holes| ==> Maximal(m, s, holes[a]) && holes[a].start + holes[a].granules <= n)
    && (forall a, b :: 0 <= a < b < |holes| ==> holes[a].start + holes[a].granules < holes[b].start)
    && Granules(holes) + SurvivorGranules(m, s, n) == n
    && (n == 0 || n == |m| || SurvivorGranule(m, s, n))
  }

  lemma SkipSurvivor(m: seq<Byte>, s: Byte, i: nat, j: int)
    requires Survivor(m, s, i, j)
    ensures forall k :: i <= k <= j ==> SurvivorGranule(m, s, k)
    ensures SurvivorGranules(m, s, j + 1) == SurvivorGranules(m, s, i) + (j + 1 - i)
    ensures Boundary(m, j + 1)
  {
    hide Starts, Ends;
    AfterEndIsBoundary(m, i, j);
    SurvivorRun(m, s, i, j + 1);
  }

  lemma {:induction false} SurvivorRun(m: seq<Byte>, s: Byte, a: nat, b: nat)
    requires a <= b && forall k :: a <= k < b ==> SurvivorGranule(m, s, k)
    ensures SurvivorGranules(m, s, b) == SurvivorGranules(m, s, a) + (b - a)
  {
    hide SurvivorGranule;
    if a < b {
      SurvivorRun(m, s, a, b - 1);
    }
  }

  lemma {:induction false} HoleRun(m: seq<Byte>, s: Byte, a: nat, b: nat)
    requires a <= b && forall k :: a <= k < b ==> !SurvivorGranule(m, s, k)
    ensures SurvivorGranules(m, s, b) == SurvivorGranules(m, s, a)
  {
    hide SurvivorGranule;
    if a < b {
      HoleRun(m, s, a, b - 1);
    }
  }

  /** Up to the next survivor there are no survivor granules. */
  lemma HoleRegion(m: seq<Byte>, s: Byte, a: nat, b: nat)
    requires a <= b <= |m| && Boundary(m, a)
    requires forall k :: a <= k < b ==> Mark(m[k]) != s
    requires b < |m| ==> Starts(m[b])
    ensures forall k :: a <= k < b ==> !SurvivorGranule(m, s, k)
    ensures SurvivorGranules(m, s, b) == SurvivorGranules(m, s, a)
    ensures Boundary(m, b)
  {
    hide Starts, Ends;
    if b < |m| {
      StartIsBoundary(m, b);
    }
    HoleRun(m, s, a, b);
  }

  /** A whole pass: no survivor granule in any hole, none outside that is not a survivor's, and the exact count. */
  lemma SplitIsExact(m: seq<Byte>, s: Byte, holes: seq<Hole>)
    requires Split(m, s, holes, |m|)
    ensures forall k :: 0 <= k < |m| ==> (InHole(holes, k) <==> !SurvivorGranule(m, s, k))
    ensures |m| - Granules(holes) == SurvivorGranules(m, s, |m|)
  {}

  /** Skipping survivors and then a hole extends the split. */
  lemma SplitExtends(m: seq<Byte>, s: Byte, holes: seq<Hole>, n: nat, a: nat, b: nat)
    requires Split(m, s, holes, n) && n <= a < b <= |m|
    requires forall k :: n <= k < a ==> SurvivorGranule(m, s, k)
    requires forall k :: a <= k < b ==> !SurvivorGranule(m, s, k)
    requires Boundary(m, b) && (b == |m| || SurvivorGranule(m, s, b))
    ensures Split(m, s, holes + [Hole(a, b - a)], b)
  {
    hide SurvivorGranule, Boundary, InHole, Granules, SurvivorGranules;
    var h := Hole(a, b - a);
    var holes' := holes + [h];
    MoreGranules(holes, h);
    SurvivorRun(m, s, n, a);
    HoleRun(m, s, a, b);
    assert n < a || n == 0;
    assert Maximal(m, s, h);
    forall k | 0 <= k < b ensures InHole(holes', k) <==> !SurvivorGranule(m, s, k) {
      MoreHoles(holes, h, k);
      if k >= n {
        NotAhead(m, s, holes, n, k);
      }
    }
    hide Maximal;
    forall i | 0 <= i < |holes'| ensures Maximal(m, s, holes'[i]) && holes'[i].start + holes'[i].granules <= b {
    }
    forall i, j | 0 <= i < j < |holes'| ensures holes'[i].start + holes'[i].granules < holes'[j].start {
      if j == |holes| && n == 0 {
        NoHolesYet(m, s, holes, i);
      }
    }
  }

  lemma NoHolesYet(m: seq<Byte>, s: Byte, holes: seq<Hole>, i: nat)
    requires Split(m, s, holes, 0)
    ensures i >= |holes|
  {}

  lemma NotAhead(m: seq<Byte>, s: Byte, holes: seq<Hole>, n: nat, k: int)
    requires Split(m, s, holes, n) && n <= k
    ensures !InHole(holes, k)
  {
    hide Maximal, Boundary, SurvivorGranule;
  }

  lemma MoreHoles(holes: seq<Hole>, h: Hole, k: int)
    ensures InHole(holes + [h], k) <==> InHole(holes, k) || h.start <= k < h.start + h.granules
  {
    var holes' := holes + [h];
    assert holes'[|holes|] == h;
    if InHole(holes, k) {
      var i :| 0 <= i < |holes| && holes[i].start <= k < holes[i].start + holes[i].granules;
      assert holes'[i] == holes[i];
    }
  }

  lemma MoreGranules(holes: seq<Hole>, h: Hole)
    ensures Granules(holes + [h]) == Granules(holes) + h.granules
  {
    assert (holes + [h])[..|holes|] == holes;
  }

  /** ... and so does skipping the survivors at the end of the block. */
  lemma SplitEnds(m: seq<Byte>, s: Byte, holes: seq<Hole>, n: nat)
    requires Split(m, s, holes, n)
    requires forall k :: n <= k < |m| ==> SurvivorGranule(m, s, k)
    ensures Split(m, s, holes, |m|)
  {
    hide SurvivorGranule;
    SurvivorRun(m, s, n, |m|);
  }

  // ---------- What sweeping and allocation leave in the mark bytes ----------

  /** An object of the mark bytes that the last collection left: unswept still, or a survivor. */
  ghost predicate Kept(m: seq<Byte>, s: Byte, sweep: int, i: int, j: int) {
    ObjectAt(m, i, j) && (i >= sweep || Mark(m[i]) == s)
  }

  ghost predicate Zeroed(m: seq<Byte>, m': seq<Byte>, a: int, b: int) {
    && |m'| == |m|
    && (forall k :: 0 <= k < |m| ==> m'[k] == if a <= k < b then 0 else m[k])
  }

  lemma ZeroIsQuiet()
    ensures !Starts(0) && !Ends(0)
  {}

  /** Clearing between two boundaries takes away the objects there and no others. */
  lemma ZeroedObjects(m: seq<Byte>, m': seq<Byte>, a: nat, b: nat, i: int, j: int)
    requires WellFormed(m) && Zeroed(m, m', a, b) && a <= b <= |m| && Boundary(m, a) && Boundary(m, b)
    ensures ObjectAt(m', i, j) <==> ObjectAt(m, i, j) && (j < a || b <= i)
  {
    hide Starts, Ends, WellFormed;
    ZeroIsQuiet();
    if 0 <= i < |m| && Starts(m[i]) {
      var e := EndOf(m, i);
    }
  }

  lemma WellFormedIs(m: seq<Byte>)
    ensures WellFormed(m) <==>
            (forall i :: 0 <= i < |m| && Starts(m[i]) ==> Begun(m, i)) &&
            (forall j :: 0 <= j < |m| && Ends(m[j]) ==> Ended(m, j))
  {}

  lemma ZeroedWellFormed(m: seq<Byte>, m': seq<Byte>, a: nat, b: nat)
    requires WellFormed(m) && Zeroed(m, m', a, b) && a <= b <= |m| && Boundary(m, a) && Boundary(m, b)
    ensures WellFormed(m')
  {
    hide Starts, Ends, WellFormed;
    ZeroIsQuiet();
    forall i | 0 <= i < |m'| && Starts(m'[i]) ensures Begun(m', i) {
      var j := EndOf(m, i);
      ZeroedObjects(m, m', a, b, i, j);
    }
    forall j | 0 <= j < |m'| && Ends(m'[j]) ensures Ended(m', j) {
      var i := StartOf(m, j);
      ZeroedObjects(m, m', a, b, i, j);
    }
    WellFormedIs(m');
  }

  /** What the allocation table gets for an object of `g` granules at `a`. */
  ghost predicate Tabled(m: seq<Byte>, m': seq<Byte>, a: nat, g: nat, pattern: Byte) {
    && 0 < g && a + g <= |m| == |m'|
    && (forall k :: a <= k < a + g ==> m[k] == 0)
    && (forall k :: 0 <= k < |m| && (k < a || a + g <= k) ==> m'[k] == m[k])
    && (forall k :: a < k < a + g - 1 ==> m'[k] == 0)
    && (if g == 1 then m'[a] == pattern | END else m'[a] == pattern && m'[a + g - 1] == END)
  }

  /** Young, and with neither an END bit nor a field logged. */
  predicate BeginPattern(b: Byte) {
    Mark(b) == YOUNG && b & 0xe0 == 0
  }

  lemma PatternBytes(b: Byte)
    requires BeginPattern(b)
    ensures Starts(b) && !Ends(b) && Mark(b) == YOUNG && !Starts(END) && Ends(END)
    ensures Starts(b | END) && Ends(b | END) && Mark(b | END) == YOUNG
  {}

  lemma TabledObjects(m: seq<Byte>, m': seq<Byte>, a: nat, g: nat, pattern: Byte, i: int, j: int)
    requires WellFormed(m) && Tabled(m, m', a, g, pattern) && Boundary(m, a) && Boundary(m, a + g)
    requires BeginPattern(pattern)
    ensures ObjectAt(m', i, j) <==> ObjectAt(m, i, j) || (i == a && j == a + g - 1)
  {
    if i == a {
      TabledNew(m, m', a, g, pattern, j);
    } else {
      TabledOld(m, m', a, g, pattern, i, j);
    }
  }

  lemma TabledNew(m: seq<Byte>, m': seq<Byte>, a: nat, g: nat, pattern: Byte, j: int)
    requires Tabled(m, m', a, g, pattern) && BeginPattern(pattern)
    ensures !ObjectAt(m, a, j)
    ensures ObjectAt(m', a, j) <==> j == a + g - 1
  {
    PatternBytes(pattern);
    ZeroIsQuiet();
    hide Starts, Ends, BeginPattern;
  }

  lemma TabledOld(m: seq<Byte>, m': seq<Byte>, a: nat, g: nat, pattern: Byte, i: int, j: int)
    requires WellFormed(m) && Tabled(m, m', a, g, pattern) && Boundary(m, a)
    requires BeginPattern(pattern) && i != a
    ensures ObjectAt(m', i, j) <==> ObjectAt(m, i, j)
  {
    PatternBytes(pattern);
    ZeroIsQuiet();
    hide Starts, Ends, WellFormed, BeginPattern;
    if 0 <= i < |m| && Starts(m[i]) {
      var e := EndOf(m, i);
    }
  }

  lemma TabledWellFormed(m: seq<Byte>, m': seq<Byte>, a: nat, g: nat, pattern: Byte)
    requires WellFormed(m) && Tabled(m, m', a, g, pattern) && Boundary(m, a) && Boundary(m, a + g)
    requires BeginPattern(pattern)
    ensures WellFormed(m')
  {
    PatternBytes(pattern);
    ZeroIsQuiet();
    TabledObjects(m, m', a, g, pattern, a, a + g - 1);
    hide Starts, Ends, WellFormed, BeginPattern;
    forall i | 0 <= i < |m'| && Starts(m'[i]) ensures Begun(m', i) {
      if i != a {
        var j := EndOf(m, i);
        TabledObjects(m, m', a, g, pattern, i, j);
      }
    }
    forall j | 0 <= j < |m'| && Ends(m'[j]) ensures Ended(m', j) {
      if j != a + g - 1 {
        var i := StartOf(m, j);
        TabledObjects(m, m', a, g, pattern, i, j);
      }
    }
    WellFormedIs(m');
  }

  /**
    In the middle of sweeping, the objects of the mark bytes are the survivors of the part swept, all
    of the rest, and those allocated since; what lies ahead, and every survivor, is as it was.
  */
  ghost predicate Live(m: seq<Byte>, m0: seq<Byte>, s: Byte, alloc: int, sweep: int, objects: set<(int, int)>) {
    && WellFormed(m0) && WellFormed(m) && Boundary(m, alloc) && Boundary(m, sweep)
    && (forall i, j :: ObjectAt(m, i, j) <==> Kept(m0, s, sweep, i, j) || (i, j) in objects)
    && LiveBytes(m, m0, s, alloc, sweep, objects)
  }

  ghost predicate LiveBytes(m: seq<Byte>, m0: seq<Byte>, s: Byte, alloc: int, sweep: int, objects: set<(int, int)>) {
    && |m| == |m0| && 0 <= alloc <= sweep <= |m|
    && (forall k :: sweep <= k < |m| ==> m[k] == m0[k])
    && (forall k :: 0 <= k < |m| && SurvivorGranule(m0, s, k) ==> m[k] == m0[k])
    && (forall k :: alloc <= k < sweep ==> m[k] == 0)
    && (forall o :: o in objects ==> 0 <= o.0 <= o.1 < alloc && Mark(m[o.0]) == YOUNG)
  }

  /** Clearing the hole that was found. */
  lemma SweepKeepsLive(m: seq<Byte>, m': seq<Byte>, m0: seq<Byte>, s: Byte, n: nat, a: nat, b: nat,
                       objects: set<(int, int)>)
    requires Live(m, m0, s, n, n, objects) && n <= a <= b <= |m| && Zeroed(m, m', a, b)
    requires Boundary(m0, a) && Boundary(m0, b)
    requires forall k :: n <= k < a ==> SurvivorGranule(m0, s, k)
    requires forall k :: a <= k < b ==> !SurvivorGranule(m0, s, k)
    ensures Live(m', m0, s, a, b, objects)
  {
    hide Starts, Ends, WellFormed, SurvivorGranule, Mark, ObjectAt;
    BoundaryAhead(m, m0, s, n, a, objects);
    BoundaryAhead(m, m0, s, n, b, objects);
    ZeroedWellFormed(m, m', a, b);
    forall i, j ensures ObjectAt(m', i, j) <==> Kept(m0, s, b, i, j) || (i, j) in objects {
      ZeroedObjects(m, m', a, b, i, j);
      if ObjectAt(m0, i, j) {
        ObjectHere(m0, s, i, j);
      }
    }
    forall k | k == a || k == b ensures Boundary(m', k) {
      forall i, j | ObjectAt(m', i, j) ensures j < k || k <= i {
        ZeroedObjects(m, m', a, b, i, j);
      }
    }
  }

  /** An object is a survivor or none of its granules is a survivor's. */
  lemma ObjectHere(m: seq<Byte>, s: Byte, i: int, j: int)
    requires ObjectAt(m, i, j)
    ensures 0 <= i <= j < |m|
    ensures Mark(m[i]) == s <==> SurvivorGranule(m, s, i)
    ensures Mark(m[i]) == s <==> SurvivorGranule(m, s, j)
  {
    hide Starts, Ends, Mark;
    if Mark(m[i]) == s {
      assert Survivor(m, s, i, j);
    }
    if a, b :| Survivor(m, s, a, b) && a <= i <= b {
      ObjectsDisjoint(m, i, j, a, b);
    }
    if a, b :| Survivor(m, s, a, b) && a <= j <= b {
      ObjectsDisjoint(m, i, j, a, b);
    }
  }

  lemma BoundaryAhead(m: seq<Byte>, m0: seq<Byte>, s: Byte, n: int, k: int, objects: set<(int, int)>)
    requires Live(m, m0, s, n, n, objects) && n <= k && Boundary(m0, k)
    ensures Boundary(m, k)
  {
    hide Starts, Ends, WellFormed, SurvivorGranule, Mark, ObjectAt;
  }

  /** Nothing begins in cleared granules, so any place there is a boundary. */
  lemma BoundaryInZeros(m: seq<Byte>, a: nat, k: nat, b: nat)
    requires Boundary(m, a) && a <= k <= b <= |m| && forall g :: a <= g < b ==> m[g] == 0
    ensures Boundary(m, k)
  {
    hide Starts, Ends;
    ZeroIsQuiet();
  }

  lemma TableKeepsBytes(m: seq<Byte>, m': seq<Byte>, m0: seq<Byte>, s: Byte, a: nat, n: nat, g: nat, pattern: Byte,
                        objects: set<(int, int)>)
    requires LiveBytes(m, m0, s, a, n, objects) && a + g <= n && Tabled(m, m', a, g, pattern) && BeginPattern(pattern)
    requires forall k :: a <= k < n ==> !SurvivorGranule(m0, s, k)
    ensures LiveBytes(m', m0, s, a + g, n, objects + {(a, a + g - 1)})
  {
    PatternBytes(pattern);
    hide SurvivorGranule, Mark, BeginPattern;
  }

  lemma TableKeepsLive(m: seq<Byte>, m': seq<Byte>, m0: seq<Byte>, s: Byte, a: nat, n: nat, g: nat, pattern: Byte,
                       objects: set<(int, int)>)
    requires Live(m, m0, s, a, n, objects) && a + g <= n && Tabled(m, m', a, g, pattern) && BeginPattern(pattern)
    requires forall k :: a <= k < n ==> !SurvivorGranule(m0, s, k)
    ensures Live(m', m0, s, a + g, n, objects + {(a, a + g - 1)})
  {
    hide Starts, Ends, WellFormed, SurvivorGranule, ObjectAt, BeginPattern, Kept;
    TableKeepsBytes(m, m', m0, s, a, n, g, pattern, objects);
    BoundaryInZeros(m, a, a + g, n);
    TabledWellFormed(m, m', a, g, pattern);
    var objects' := objects + {(a, a + g - 1)};
    hide LiveBytes, Tabled;
    forall i, j ensures ObjectAt(m', i, j) <==> Kept(m0, s, n, i, j) || (i, j) in objects' {
      TabledObjects(m, m', a, g, pattern, i, j);
    }
    forall k | k == a + g || k == n ensures Boundary(m', k) {
      forall i, j | ObjectAt(m', i, j) ensures j < k || k <= i {
        TabledObjects(m, m', a, g, pattern, i, j);
      }
    }
  }

  // ---------- The allocator of a block ----------

  class Allocator {
    const meta: array<Byte>
    const survivorMark: Byte
    var alloc: nat
    var sweep: nat
    var holeCount: nat
    var holeGranules: nat
    var holesWithFragmentation: nat
    var fragmentationGranules: nat
    /** Rests of holes pushed to the allocator's hole set. */
    var collected: seq<Hole>

    /** The mark bytes as the last collection left them. */
    ghost const initial: seq<Byte>
    ghost var holes: seq<Hole>
    ghost var objects: set<(int, int)>
    ghost var allocatedGranules: nat

    ghost predicate Valid()
      reads this, meta
    {
      && Aligned(meta.Length) && meta.Length <= 4096
      && Live(meta[..], initial, survivorMark, alloc, sweep, objects)
      && Split(initial, survivorMark, holes, sweep)
      && (forall k :: alloc <= k < sweep ==> !SurvivorGranule(initial, survivorMark, k))
      && survivorMark != 0 && survivorMark & MARK_MASK == survivorMark
      && Counts()
    }

    ghost predicate Counts()
      reads `alloc, `sweep, `holes, `holeCount, `holeGranules, `fragmentationGranules, `allocatedGranules
    {
      && holeCount == |holes| && holeGranules == Granules(holes)
      && allocatedGranules + fragmentationGranules + (sweep - alloc) == holeGranules
    }

    /** Takes a block to sweep. */
    constructor (block: array<Byte>, mark: Byte)
      requires Aligned(block.Length) && block.Length <= 4096 && WellFormed(block[..])
      requires mark != 0 && mark & MARK_MASK == mark
      ensures Valid() && meta == block && survivorMark == mark && initial == block[..]
      ensures sweep == 0 && holes == [] && objects == {} && collected == []
    {
      meta, survivorMark := block, mark;
      alloc, sweep := 0, 0;
      holeCount, holeGranules, holesWithFragmentation, fragmentationGranules := 0, 0, 0, 0;
      collected := [];
      initial := block[..];
      holes, objects, allocatedGranules := [], {}, 0;
      new;
      StartLive(block[..], mark);
    }

    /** Puts an object into the hole, if there is room: the fast path of allocation. */
    method Allocate(granules: nat, pattern: Byte) returns (start: nat, ok: bool)
      requires Valid() && granules > 0 && BeginPattern(pattern)
      modifies this`alloc, this`objects, this`allocatedGranules, meta
      ensures Valid() && start == old(alloc) && (ok <==> granules <= sweep - start)
      ensures ok ==> alloc == start + granules && objects == old(objects) + {(start, start + granules - 1)}
      ensures allocatedGranules == old(allocatedGranules) + if ok then granules else 0
      ensures !ok ==> alloc == start && objects == old(objects) && meta[..] == old(meta[..])
    {
      hide Live, Split, SurvivorGranule, BeginPattern, Mark, Aligned, Granules;
      start, ok := alloc, granules <= sweep - alloc;
      if !ok {
        return;
      }
      ghost var m := meta[..];
      LiveZeros(m, initial, survivorMark, alloc, sweep, objects);
      alloc := alloc + granules;
      if granules == 1 {
        meta[start] := pattern | END;
      } else {
        meta[start] := pattern;
        meta[start + granules - 1] := END;
      }
      TableKeepsLive(m, meta[..], initial, survivorMark, start, sweep, granules, pattern, objects);
      objects := objects + {(start, start + granules - 1)};
      allocatedGranules := allocatedGranules + granules;
    }

    /** Gives up the rest of the hole. */
    method FinishHole(collectHoles: bool)
      requires Valid()
      modifies this`alloc, this`holesWithFragmentation, this`fragmentationGranules, this`collected
      ensures Valid() && alloc == sweep
      ensures fragmentationGranules == old(fragmentationGranules) + (sweep - old(alloc))
      ensures holesWithFragmentation == old(holesWithFragmentation) + if sweep > old(alloc) then 1 else 0
      ensures collected == if collectHoles && sweep > old(alloc)
                           then old(collected) + [Hole(old(alloc), sweep - old(alloc))] else old(collected)
    {
      hide Split, SurvivorGranule, Mark, Aligned, Granules;
      GiveUpRest(meta[..], initial, survivorMark, alloc, sweep, objects);
      var granules := sweep - alloc;
      if granules > 0 {
        if collectHoles {
          collected := collected + [Hole(alloc, granules)];
        }
        holesWithFragmentation := holesWithFragmentation + 1;
        fragmentationGranules := fragmentationGranules + granules;
        alloc := sweep;
      }
    }

    /** Past the survivors that lie at `from`. */
    method SkipSurvivors(from: nat) returns (pos: nat)
      requires Valid() && from == sweep
      ensures from <= pos <= meta.Length && Boundary(initial, pos)
      ensures forall k :: from <= k < pos ==> SurvivorGranule(initial, survivorMark, k)
      ensures pos < meta.Length ==> Mark(meta[pos]) != survivorMark
    {
      hide Live, Split, SurvivorGranule, Survivor, Boundary, Mark, Hit, NoHit, Aligned, AlignUp, Counts, ObjectAt;
      SplitBoundary(initial, survivorMark, holes, sweep);
      LiveAhead(meta[..], initial, survivorMark, alloc, sweep, objects);
      pos := from;
      while pos < meta.Length && Mark(meta[pos]) == survivorMark
        invariant from <= pos <= meta.Length && Boundary(initial, pos)
        invariant forall k :: from <= k < pos ==> SurvivorGranule(initial, survivorMark, k)
      {
        AlignUpIs(pos + 0xffff_ffff_ffff_ffff);
        EndAhead(meta[..], initial, survivorMark, from, pos, AlignUp(pos + 0xffff_ffff_ffff_ffff));
        var objectGranules := Scan(meta, pos, 0xffff_ffff_ffff_ffff, Bits(END));
        objectGranules := objectGranules + 1;
        SurvivorEnds(meta[..], initial, survivorMark, from, pos, objectGranules - 1);
        SkipSurvivor(initial, survivorMark, pos, pos + objectGranules - 1);
        pos := pos + objectGranules;
      }
    }

    /** Sweeps on to the next hole and clears it; 0 at the end of the block. */
    method NextHole() returns (granules: nat)
      requires Valid() && alloc == sweep
      modifies this`alloc, this`sweep, this`holeCount, this`holeGranules, this`holes, meta
      ensures Valid()
      ensures granules == 0 ==> alloc == sweep == meta.Length && holes == old(holes)
      ensures granules > 0 ==> sweep == alloc + granules && holes == old(holes) + [Hole(alloc, granules)]
      ensures old(sweep) <= alloc
      ensures granules > 0 ==> forall k :: alloc <= k < sweep ==> meta[k] == 0
    {
      hide Live, Split, SurvivorGranule, Survivor, Boundary, Mark, Hit, NoHit, Aligned, AlignUp, ObjectAt, Granules;
      ghost var m := meta[..];
      var limit := meta.Length;
      if sweep == limit {
        return 0;
      }
      var pos := SkipSurvivors(sweep);
      LiveAhead(m, initial, survivorMark, alloc, sweep, objects);
      if pos == limit {
        SplitEnds(initial, survivorMark, holes, sweep);
        ReachEnd(m, initial, survivorMark, sweep, objects);
        alloc, sweep := limit, limit;
        return 0;
      }
      MarkScan(limit, pos, survivorMark);
      granules := Scan(meta, pos, limit - pos, Tag(MARK_MASK, survivorMark));
      HoleFound(m, initial, survivorMark, sweep, pos, granules);
      forall k | pos <= k < pos + granules {
        meta[k] := 0;
      }
      SweepKeepsLive(m, meta[..], initial, survivorMark, sweep, pos, pos + granules, objects);
      SplitExtends(initial, survivorMark, holes, sweep, pos, pos + granules);
      MoreGranules(holes, Hole(pos, granules));
      holeCount := holeCount + 1;
      holeGranules := holeGranules + granules;
      holes := holes + [Hole(pos, granules)];
      alloc, sweep := pos, pos + granules;
    }

    /** Sweeps the rest of the block, giving up every hole. */
    method FinishSweeping(collectHoles: bool)
      requires Valid()
      modifies this, meta
      ensures Valid() && alloc == sweep == meta.Length
      ensures objects == old(objects) && allocatedGranules == old(allocatedGranules)
      ensures meta.Length - holeGranules == SurvivorGranules(initial, survivorMark, meta.Length)
      ensures allocatedGranules + fragmentationGranules == holeGranules
      ensures forall k :: 0 <= k < meta.Length ==> (InHole(holes, k) <==> !SurvivorGranule(initial, survivorMark, k))
      ensures forall i, j :: ObjectAt(meta[..], i, j) <==>
                             Survivor(initial, survivorMark, i, j) || (i, j) in objects
    {
      hide Live, ObjectAt, Survivor, Split, SurvivorGranule, Boundary, Mark, Aligned, Granules, SurvivorGranules;
      FinishHole(collectHoles);
      var granules := NextHole();
      SweepBound();
      while granules > 0
        invariant Valid() && (granules == 0 ==> alloc == sweep == meta.Length)
        invariant granules > 0 ==> sweep == alloc + granules
        invariant sweep <= meta.Length
        invariant objects == old(objects) && allocatedGranules == old(allocatedGranules)
        decreases meta.Length - sweep, granules
      {
        FinishHole(collectHoles);
        granules := NextHole();
        SweepBound();
      }
      SweepBound();
      SplitIsExact(initial, survivorMark, holes);
      SweptObjects(meta[..], initial, survivorMark, objects);
    }

    lemma SweepBound()
      requires Valid()
      ensures sweep <= meta.Length == |initial|
    {}
  }

  lemma SplitBoundary(m: seq<Byte>, s: Byte, holes: seq<Hole>, n: nat)
    requires Split(m, s, holes, n)
    ensures n <= |m| && Boundary(m, n)
  {}

  lemma LiveAhead(m: seq<Byte>, m0: seq<Byte>, s: Byte, alloc: int, sweep: int, objects: set<(int, int)>)
    requires Live(m, m0, s, alloc, sweep, objects)
    ensures |m| == |m0| && 0 <= alloc <= sweep <= |m| && WellFormed(m0)
    ensures forall k :: sweep <= k < |m| ==> m[k] == m0[k]
  {}

  /** A swept block holds the survivors and the objects allocated since, and nothing else. */
  lemma SweptObjects(m: seq<Byte>, m0: seq<Byte>, s: Byte, objects: set<(int, int)>)
    requires Live(m, m0, s, |m0|, |m0|, objects)
    ensures forall i, j :: ObjectAt(m, i, j) <==> Survivor(m0, s, i, j) || (i, j) in objects
  {
    hide Starts, Ends, WellFormed, Mark, ObjectAt, LiveBytes;
    forall i, j | ObjectAt(m0, i, j) ensures 0 <= i < |m0| {
      ObjectInside(m0, i, j);
    }
  }

  lemma ReachEnd(m: seq<Byte>, m0: seq<Byte>, s: Byte, n: nat, objects: set<(int, int)>)
    requires Live(m, m0, s, n, n, objects)
    requires forall k :: n <= k < |m0| ==> SurvivorGranule(m0, s, k)
    ensures Live(m, m0, s, |m0|, |m0|, objects)
  {
    hide Starts, Ends, WellFormed, SurvivorGranule, Mark, ObjectAt;
    forall i, j | ObjectAt(m0, i, j) && 0 <= i < |m0| ensures i >= n ==> Mark(m0[i]) == s {
      ObjectHere(m0, s, i, j);
    }
    forall i, j | ObjectAt(m, i, j) ensures j < |m0| {
      ObjectInside(m, i, j);
    }
    forall i, j ensures Kept(m0, s, n, i, j) == Kept(m0, s, |m0|, i, j) {
      if ObjectAt(m0, i, j) {
        ObjectInside(m0, i, j);
      }
    }
  }

  lemma ObjectInside(m: seq<Byte>, i: int, j: int)
    requires ObjectAt(m, i, j)
    ensures 0 <= i <= j < |m|
  {}

  lemma EndHit(b: Byte)
    ensures Hit(Bits(END), b) <==> Ends(b)
    ensures Good(Bits(END))
  {}

  /** An END bit lies ahead of a survivor's first granule. */
  lemma EndAhead(m: seq<Byte>, m0: seq<Byte>, s: Byte, n: nat, pos: nat, far: nat)
    requires |m| == |m0| && n <= pos < |m| && WellFormed(m0) && Mark(m[pos]) == s && s != 0
    requires forall k :: n <= k < |m| ==> m[k] == m0[k]
    ensures !NoHit(m, Bits(END), pos, |m|)
    ensures far >= |m| ==> !NoHit(m, Bits(END), pos, far)
    ensures Good(Bits(END))
  {
    hide WellFormed, Hit, Ends;
    var j := EndOf(m0, pos);
    EndHit(m[j]);
  }

  lemma SurvivorEnds(m: seq<Byte>, m0: seq<Byte>, s: Byte, n: nat, pos: nat, e: nat)
    requires |m| == |m0| && n <= pos < |m| && WellFormed(m0) && Mark(m[pos]) == s && s != 0
    requires forall k :: n <= k < |m| ==> m[k] == m0[k]
    requires pos + e < |m| && Hit(Bits(END), m[pos + e]) && NoHit(m, Bits(END), pos, pos + e)
    ensures Survivor(m0, s, pos, pos + e)
  {
    hide WellFormed, Hit, Ends;
    var j := EndOf(m0, pos);
    EndHit(m[j]);
    EndHit(m[pos + e]);
    assert j >= pos + e;
  }

  lemma MarkScan(limit: nat, pos: nat, s: Byte)
    requires Aligned(limit) && pos <= limit && s != 0 && s & MARK_MASK == s
    ensures Good(Tag(MARK_MASK, s)) && AlignUp(pos + (limit - pos)) == limit
  {}

  /** The scan for the next survivor ends the hole. */
  lemma HoleFound(m: seq<Byte>, m0: seq<Byte>, s: Byte, n: nat, pos: nat, h: nat)
    requires |m| == |m0| && n <= pos < |m| && Mark(m[pos]) != s && s != 0 && Boundary(m0, pos) && WellFormed(m0)
    requires forall k :: n <= k < |m| ==> m[k] == m0[k]
    requires NoHit(m, Tag(MARK_MASK, s), pos, |m|) ==> h == |m| - pos
    requires !NoHit(m, Tag(MARK_MASK, s), pos, |m|) ==>
               pos + h < |m| && Hit(Tag(MARK_MASK, s), m[pos + h]) && NoHit(m, Tag(MARK_MASK, s), pos, pos + h)
    ensures 0 < h <= |m| - pos
    ensures forall k :: pos <= k < pos + h ==> !SurvivorGranule(m0, s, k)
    ensures Boundary(m0, pos + h) && (pos + h == |m| || SurvivorGranule(m0, s, pos + h))
  {
    hide WellFormed, SurvivorGranule, Boundary;
    HoleRegion(m0, s, pos, pos + h);
    if pos + h < |m| {
      var j := EndOf(m0, pos + h);
      assert Survivor(m0, s, pos + h, j);
      SkipSurvivor(m0, s, pos + h, j);
    }
  }

  lemma StartLive(m: seq<Byte>, s: Byte)
    requires WellFormed(m)
    ensures Live(m, m, s, 0, 0, {}) && Split(m, s, [], 0)
  {
    hide Starts, Ends, WellFormed;
    assert Boundary(m, 0);
  }

  lemma LiveZeros(m: seq<Byte>, m0: seq<Byte>, s: Byte, alloc: int, sweep: int, objects: set<(int, int)>)
    requires Live(m, m0, s, alloc, sweep, objects)
    ensures 0 <= alloc <= sweep <= |m| && forall k :: alloc <= k < sweep ==> m[k] == 0
  {}

  lemma GiveUpRest(m: seq<Byte>, m0: seq<Byte>, s: Byte, alloc: int, sweep: int, objects: set<(int, int)>)
    requires Live(m, m0, s, alloc, sweep, objects)
    ensures Live(m, m0, s, sweep, sweep, objects)
  {
    hide WellFormed, ObjectAt, SurvivorGranule;
  }
}
