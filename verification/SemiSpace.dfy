/**
  The Cheney collector of src/semi.c, on heaps without ephemerons and finalizers: flip, copy,
  scan, forward, visit, trace_closure and collect, with the large-object space beside the
  two semi-spaces.

  Memory is a map from an object's address to the object.  Small objects are copied and
  their headers overwritten with the new address; large ones are marked and traced on the
  spot, so that `visit` is recursive.  The proof compares the heap at any moment with the
  heap before the collection through one invariant: an edge holds what it held before, or,
  once visited, the new address of that.
*/
module SemiSpace {

  type Addr = nat

  datatype Value = Null | Immediate(n: int) | Ref(a: Addr)
  datatype Header = Tag(kind: nat) | ForwardedTo(to: Addr)
  datatype Obj = Obj(header: Header, size: nat, fields: seq<Value>)
  datatype Region = Region(base: Addr, active: nat)
  datatype Edge = RootEdge(i: nat) | FieldEdge(obj: Addr, j: nat)
  type Memory = map<Addr, Obj>

  const Alignment: nat := 8

  function AlignUp(n: nat): (r: nat)
    ensures n <= r < n + Alignment
  {
    (n + Alignment - 1) / Alignment * Alignment
  }

  /** region_contains, whose subtraction wraps around below the base. */
  predicate Contains(r: Region, a: Addr) {
    r.base <= a < r.base + r.active
  }

  /** The test by one subtraction on 64-bit words. */
  lemma ContainsByDifference(r: Region, a: Addr)
    requires a < 0x1_0000_0000_0000_0000 && r.base + r.active <= 0x1_0000_0000_0000_0000
    ensures Contains(r, a) <==> (a - r.base) % 0x1_0000_0000_0000_0000 < r.active
  {
    if a < r.base { assert (a - r.base) % 0x1_0000_0000_0000_0000 == a - r.base + 0x1_0000_0000_0000_0000; }
  }

  // ---------- Reachability ----------

  /** A path of references that starts at a root. */
  ghost predicate Path(h: Memory, roots: seq<Value>, p: seq<Addr>) {
    && p != [] && Ref(p[0]) in roots
    && (forall i :: 0 <= i < |p| ==> p[i] in h)
    && (forall i :: 0 <= i < |p| - 1 ==> Ref(p[i + 1]) in h[p[i]].fields)
  }

  ghost predicate Reachable(h: Memory, roots: seq<Value>, a: Addr) {
    exists p :: Path(h, roots, p) && p[|p| - 1] == a
  }

  lemma ReachRoot(h: Memory, roots: seq<Value>, a: Addr)
    requires Ref(a) in roots && a in h
    ensures Reachable(h, roots, a)
  {
    assert Path(h, roots, [a]);
  }

  lemma ReachField(h: Memory, roots: seq<Value>, a: Addr, b: Addr)
    requires Reachable(h, roots, a) && a in h && Ref(b) in h[a].fields && b in h
    ensures Reachable(h, roots, b)
  {
    var p :| Path(h, roots, p) && p[|p| - 1] == a;
    assert Path(h, roots, p + [b]);
  }

  /** A set that holds the roots' targets and is closed under references holds all that is reachable. */
  lemma {:induction false} ClosedHoldsPath(h: Memory, roots: seq<Value>, s: set<Addr>, p: seq<Addr>)
    requires Path(h, roots, p)
    requires forall a :: Ref(a) in roots ==> a in s
    requires forall a, b :: a in s && a in h && Ref(b) in h[a].fields ==> b in s
    ensures p[|p| - 1] in s
  {
    if |p| > 1 {
      ClosedHoldsPath(h, roots, s, p[..|p| - 1]);
    }
  }

  // ---------- Isomorphism ----------

  function Moved(f: map<Addr, Addr>, v: Value): Value {
    if v.Ref? && v.a in f then Ref(f[v.a]) else v
  }

  ghost predicate Injective(f: map<Addr, Addr>) {
    forall a, b :: a in f && b in f && f[a] == f[b] ==> a == b
  }

  /** `f` carries the reachable part of one heap onto the other: same headers, same sizes, and
      fields that correspond. */
  ghost predicate Isomorphic(h: Memory, roots: seq<Value>, h': Memory, roots': seq<Value>, f: map<Addr, Addr>) {
    && Injective(f)
    && (forall a :: a in f <==> a in h && Reachable(h, roots, a))
    && |roots'| == |roots| && (forall i :: 0 <= i < |roots| ==> roots'[i] == Moved(f, roots[i]))
    && (forall a :: a in f ==> SameObject(h, h', f, a))
  }

  ghost predicate SameObject(h: Memory, h': Memory, f: map<Addr, Addr>, a: Addr)
    requires a in f
  {
    && a in h && f[a] in h'
    && h'[f[a]].header == h[a].header && h'[f[a]].size == h[a].size && |h'[f[a]].fields| == |h[a].fields|
    && forall j :: 0 <= j < |h[a].fields| ==> h'[f[a]].fields[j] == Moved(f, h[a].fields[j])
  }

  /** What the program sees: start at a value and follow a list of field numbers. */
  ghost function Follow(h: Memory, v: Value, path: seq<nat>): Value
    decreases |path|
  {
    if path == [] then v
    else if v.Ref? && v.a in h && path[0] < |h[v.a].fields| then Follow(h, h[v.a].fields[path[0]], path[1..])
    else Null
  }

  // ---------- State ----------

  /** What stays fixed during a collection, after the flip. */
  datatype Consts = Consts(
    h0: Memory, roots0: seq<Value>,
    objs: seq<Addr>,              // the objects in from-space
    large: set<Addr>,
    from: Region, to: Region)

  datatype State = State(
    mem: Memory, roots: seq<Value>, hp: Addr,
    marked: set<Addr>,                 // large objects
    fwd: map<Addr, Addr>,              // forwarding addresses
    copied: seq<Addr>, at: seq<Addr>,  // the objects copied, in order, and where to
    origin: map<Addr, Addr>,           // which object each copy is of
    done: set<Edge>)                   // the edges visited

  function Size(h: Memory, a: Addr): nat {
    if a in h then AlignUp(h[a].size) else 0
  }

  function Bytes(h: Memory, s: seq<Addr>): nat {
    if s == [] then 0 else Bytes(h, s[..|s| - 1]) + Size(h, s[|s| - 1])
  }

  ghost predicate Distinct(s: seq<Addr>) {
    forall i, j :: 0 <= i < j < |s| ==> s[i] != s[j]
  }

  ghost predicate RefsIn(vs: seq<Value>, h: Memory) {
    forall v :: v in vs && v.Ref? ==> v.a in h
  }

  ghost predicate ObjectOk(h: Memory, a: Addr) {
    a in h ==> h[a].header.Tag? && h[a].size > 0 && RefsIn(h[a].fields, h)
  }

  /** A well-formed heap just after a flip, with room in to-space for all of from-space. */
  ghost predicate Start(c: Consts) {
    && (forall a :: a in c.h0 <==> a in c.objs || a in c.large)
    && (forall a :: a in c.objs ==> Contains(c.from, a))
    && (forall a :: Contains(c.from, a) || Contains(c.to, a) ==> a !in c.large)
    && (forall a :: Contains(c.from, a) ==> !Contains(c.to, a))
    && (forall a :: ObjectOk(c.h0, a))
    && RefsIn(c.roots0, c.h0)
    && Distinct(c.objs) && Bytes(c.h0, c.objs) <= c.to.active
  }

  predicate Visited(s: State, a: Addr) {
    a in s.fwd || a in s.marked
  }

  /** The object before the collection that is now at `p`. */
  function Source(s: State, p: Addr): Addr {
    if p in s.origin then s.origin[p] else p
  }

  function Fields0(c: Consts, a: Addr): seq<Value> {
    if a in c.h0 then c.h0[a].fields else []
  }

  predicate IsEdge(c: Consts, s: State, e: Edge) {
    match e
    case RootEdge(i) => i < |c.roots0|
    case FieldEdge(p, j) => (p in s.origin || p in s.marked) && j < |Fields0(c, Source(s, p))|
  }

  /** What an edge held before the collection. */
  function Before(c: Consts, s: State, e: Edge): Value {
    match e
    case RootEdge(i) => if i < |c.roots0| then c.roots0[i] else Null
    case FieldEdge(p, j) =>
      var fields := Fields0(c, Source(s, p));
      if j < |fields| then fields[j] else Null
  }

  function Fields(s: State, p: Addr): seq<Value> {
    if p in s.mem then s.mem[p].fields else []
  }

  /** What it holds now. */
  function Now(s: State, e: Edge): Value {
    match e
    case RootEdge(i) => if i < |s.roots| then s.roots[i] else Null
    case FieldEdge(p, j) => if j < |Fields(s, p)| then Fields(s, p)[j] else Null
  }

  // ---------- Invariant ----------

  ghost predicate EdgeInv(c: Consts, s: State, e: Edge) {
    && (IsEdge(c, s, e) ==> Now(s, e) == if e in s.done then Moved(s.fwd, Before(c, s, e)) else Before(c, s, e))
    && (e in s.done ==> IsEdge(c, s, e) && (Before(c, s, e).Ref? ==> Visited(s, Before(c, s, e).a)))
  }

  ghost predicate Layout(c: Consts, s: State) {
    && |s.at| == |s.copied| && Distinct(s.copied)
    && s.hp == c.to.base + Bytes(c.h0, s.copied)
    && (forall i :: 0 <= i < |s.at| ==>
          s.at[i] == c.to.base + Bytes(c.h0, s.copied[..i]) && s.at[i] < s.hp)
    && (forall i, j :: 0 <= i < j < |s.at| ==> s.at[i] < s.at[j])
  }

  ghost predicate Tables(c: Consts, s: State) {
    && (forall i :: 0 <= i < |s.copied| && i < |s.at| ==>
          s.copied[i] in s.fwd && s.fwd[s.copied[i]] == s.at[i] && s.at[i] in s.origin && s.origin[s.at[i]] == s.copied[i])
    && (forall a :: a in s.fwd ==> a in s.copied && a in c.objs)
    && (forall p :: p in s.origin ==> p in s.at)
    && (forall l :: l in s.marked ==> l in c.large)
  }

  /** Headers and sizes; the fields are the business of EdgeInv. */
  ghost predicate MemInv(c: Consts, s: State, a: Addr) {
    && (a in s.mem <==> a in c.h0 || a in s.origin)
    && (a in c.objs && a in c.h0 && a in s.mem ==>
          s.mem[a] == if a in s.fwd then c.h0[a].(header := ForwardedTo(s.fwd[a])) else c.h0[a])
    && (a in c.large && a in c.h0 && a in s.mem ==>
          && s.mem[a].header == c.h0[a].header && s.mem[a].size == c.h0[a].size
          && |s.mem[a].fields| == |c.h0[a].fields| && (a !in s.marked ==> s.mem[a] == c.h0[a]))
    && (a in s.origin && a in s.mem && s.origin[a] in c.h0 ==>
          var o := c.h0[s.origin[a]];
          s.mem[a].header == o.header && s.mem[a].size == o.size && |s.mem[a].fields| == |o.fields|)
  }

  ghost predicate Inv(c: Consts, s: State) {
    && Start(c)
    && Layout(c, s) && Tables(c, s) && |s.roots| == |c.roots0|
    && (forall a :: MemInv(c, s, a))
    && (forall e :: EdgeInv(c, s, e))
    && (forall a :: Visited(s, a) ==> Reachable(c.h0, c.roots0, a))
  }

  // ---------- Bytes ----------

  lemma {:induction false} BytesWithout(h: Memory, s: seq<Addr>, i: nat)
    requires i < |s|
    ensures Bytes(h, s) == Bytes(h, s[..i] + s[i + 1..]) + Size(h, s[i])
  {
    if i == |s| - 1 {
      assert s[..i] + s[i + 1..] == s[..|s| - 1];
    } else {
      var t := s[..i] + s[i + 1..];
      var s1 := s[..|s| - 1];
      BytesWithout(h, s1, i);
      assert t[..|t| - 1] == s1[..i] + s1[i + 1..];
      assert t[|t| - 1] == s[|s| - 1];
    }
  }

  /** Objects of `t`, no object twice, take no more room than `t`. */
  lemma {:induction false} BytesSubset(h: Memory, s: seq<Addr>, t: seq<Addr>)
    requires Distinct(s) && forall a :: a in s ==> a in t
    ensures Bytes(h, s) <= Bytes(h, t) && |s| <= |t|
    decreases |s|
  {
    if s != [] {
      var a := s[|s| - 1];
      assert a in s && a in t;
      var i :| 0 <= i < |t| && t[i] == a;
      var t' := t[..i] + t[i + 1..];
      BytesWithout(h, t, i);
      forall b | b in s[..|s| - 1] ensures b in t' {
        assert b in s && b in t;
        var j :| 0 <= j < |t| && t[j] == b;
        assert b != a;
        assert if j < i then t'[j] == b else t'[j - 1] == b;
      }
      BytesSubset(h, s[..|s| - 1], t');
    }
  }

  // ---------- The three changes of state ----------

  /** copy */
  function CopyState(s: State, a: Addr): State
    requires a in s.mem
  {
    var o := s.mem[a];
    s.(mem := s.mem[s.hp := o][a := o.(header := ForwardedTo(s.hp))],
       hp := s.hp + AlignUp(o.size), fwd := s.fwd[a := s.hp], origin := s.origin[s.hp := a],
       copied := s.copied + [a], at := s.at + [s.hp])
  }

  /** large_object_space_mark */
  function MarkState(s: State, l: Addr): State {
    s.(marked := s.marked + {l})
  }

  /** gc_edge_update, and the edge counts as visited. */
  function DoneState(s: State, e: Edge, v: Value): State {
    var s' := s.(done := s.done + {e});
    match e
    case RootEdge(i) => if i < |s.roots| then s'.(roots := s.roots[i := v]) else s'
    case FieldEdge(p, j) =>
      if j < |Fields(s, p)| then s'.(mem := s.mem[p := s.mem[p].(fields := s.mem[p].fields[j := v])]) else s'
  }

  /** Everything a traversal may do: copy, mark, visit; never undo. */
  ghost predicate Grows(s: State, s': State) {
    && s.copied <= s'.copied && s.at <= s'.at && s.marked <= s'.marked && s.done <= s'.done
    && |s'.roots| == |s.roots| && s.hp <= s'.hp
    && (forall a :: a in s.fwd ==> a in s'.fwd && s'.fwd[a] == s.fwd[a])
    && (forall p :: p in s.origin ==> p in s'.origin && s'.origin[p] == s.origin[p])
  }

  lemma NotYetCopied(c: Consts, s: State, a: Addr)
    requires Start(c) && Tables(c, s) && MemInv(c, s, a) && |s.at| == |s.copied| && a in c.objs && a !in s.fwd
    ensures a in s.mem && a in c.h0 && s.mem[a] == c.h0[a] && c.h0[a].size > 0 && a !in s.copied
  {
    assert ObjectOk(c.h0, a);
    CopiedAreObjs(c, s);
  }

  /** What is copied next still fits, because no object is copied twice. */
  lemma RoomForCopy(c: Consts, copied: seq<Addr>, a: Addr)
    requires Start(c) && Distinct(copied) && a in c.objs && a !in copied && forall b :: b in copied ==> b in c.objs
    ensures Distinct(copied + [a]) && Bytes(c.h0, copied + [a]) == Bytes(c.h0, copied) + Size(c.h0, a) <= c.to.active
    ensures |copied| < |c.objs|
  {
    var s := copied + [a];
    BytesSubset(c.h0, s, c.objs);
    assert s[..|s| - 1] == copied;
  }

  lemma CopiedAreObjs(c: Consts, s: State)
    requires Tables(c, s) && |s.at| == |s.copied|
    ensures forall b :: b in s.copied ==> b in c.objs && b in s.fwd
  {
    forall b | b in s.copied ensures b in c.objs && b in s.fwd {
      var i :| 0 <= i < |s.copied| && s.copied[i] == b;
    }
  }

  lemma LayoutCopy(c: Consts, s: State, a: Addr)
    requires Start(c) && Layout(c, s) && Tables(c, s) && MemInv(c, s, a) && a in c.objs && a !in s.fwd
    ensures a in s.mem && Layout(c, CopyState(s, a)) && s.hp < CopyState(s, a).hp <= c.to.base + c.to.active
  {
    hide MemInv, Start, Tables;
    NotYetCopied(c, s, a);
    CopiedAreObjs(c, s);
    RoomForCopy(c, s.copied, a);
    hide Bytes;
    var s' := CopyState(s, a);
    forall i | 0 <= i < |s'.at|
      ensures s'.at[i] == c.to.base + Bytes(c.h0, s'.copied[..i]) && s'.at[i] < s'.hp
    {
      if i < |s.copied| { assert s'.copied[..i] == s.copied[..i]; } else { assert s'.copied[..i] == s.copied; }
    }
  }

  lemma TablesCopy(c: Consts, s: State, a: Addr)
    requires Layout(c, s) && Tables(c, s) && a in c.objs && a !in s.fwd && a in s.mem
    ensures Tables(c, CopyState(s, a))
  {
    hide Bytes;
    CopiedAreObjs(c, s);
    var s' := CopyState(s, a);
    forall i | 0 <= i < |s'.copied|
      ensures s'.copied[i] in s'.fwd && s'.fwd[s'.copied[i]] == s'.at[i]
      ensures s'.at[i] in s'.origin && s'.origin[s'.at[i]] == s'.copied[i]
    {
      if i < |s.copied| { assert s.copied[i] in s.copied && s.at[i] != s.hp; }
    }
  }

  /** To-space beyond hp is empty, so the new copy lands on nothing. */
  lemma HpIsFree(c: Consts, s: State)
    requires Start(c) && Layout(c, s) && Tables(c, s) && s.hp < c.to.base + c.to.active
    ensures s.hp !in c.h0 && s.hp !in s.origin
  {
    hide Bytes;
    assert Contains(c.to, s.hp);
  }

  lemma MemCopy(c: Consts, s: State, a: Addr, b: Addr)
    requires MemInv(c, s, b) && MemInv(c, s, a) && a in c.objs && a !in s.fwd && a in s.mem && a in c.h0 && Start(c)
    requires s.hp !in c.h0 && s.hp !in s.origin && a !in s.origin && (b in s.origin ==> s.origin[b] in s.fwd)
    ensures MemInv(c, CopyState(s, a), b)
  {
  }

  /** An edge of an object already visited, or of the new copy. */
  lemma EdgeCopy(c: Consts, s: State, a: Addr, e: Edge)
    requires EdgeInv(c, s, e) && a in c.objs && a !in s.fwd && a in s.mem && a in c.h0 && s.mem[a] == c.h0[a]
    requires s.hp !in c.h0 && s.hp !in s.origin && s.hp !in s.marked && a !in s.origin && a !in s.marked
    ensures EdgeInv(c, CopyState(s, a), e)
  {
  }

  /** Copies lie in to-space, below hp. */
  lemma OriginFacts(c: Consts, s: State, p: Addr)
    requires Start(c) && Layout(c, s) && Tables(c, s) && p in s.origin && s.hp <= c.to.base + c.to.active
    ensures Contains(c.to, p) && p < s.hp && s.origin[p] in s.fwd && s.fwd[s.origin[p]] == p
    ensures p !in c.h0 && s.origin[p] in c.objs && s.origin[p] in c.h0
  {
    hide Bytes;
    var i :| 0 <= i < |s.at| && s.at[i] == p;
    CopiedAreObjs(c, s);
  }

  lemma HpInRange(c: Consts, s: State)
    requires Start(c) && Layout(c, s) && Tables(c, s)
    ensures c.to.base <= s.hp <= c.to.base + c.to.active && |s.copied| <= |c.objs|
  {
    CopiedAreObjs(c, s);
    BytesSubset(c.h0, s.copied, c.objs);
  }

  lemma CopyKeeps(c: Consts, s: State, a: Addr)
    requires Inv(c, s) && a in c.objs && a !in s.fwd && Reachable(c.h0, c.roots0, a)
    ensures a in s.mem && Inv(c, CopyState(s, a)) && Grows(s, CopyState(s, a))
    ensures s.mem[a] == c.h0[a] && s.hp < CopyState(s, a).hp <= c.to.base + c.to.active
  {
    hide Layout, Tables, MemInv, EdgeInv, Start, Reachable, ObjectOk, IsEdge;
    assert MemInv(c, s, a);
    assert |s.at| == |s.copied| by { LayoutLength(c, s); }
    NotYetCopied(c, s, a);
    LayoutCopy(c, s, a);
    TablesCopy(c, s, a);
    HpInRange(c, s);
    HpIsFree(c, s);
    var s' := CopyState(s, a);
    NotLarge(c, s, a);
    if a in s.origin { OriginFacts(c, s, a); }
    forall b ensures MemInv(c, s', b) {
      assert MemInv(c, s, b);
      if b in s.origin { OriginFacts(c, s, b); }
      MemCopy(c, s, a, b);
    }
    forall e ensures EdgeInv(c, s', e) {
      assert EdgeInv(c, s, e);
      EdgeCopy(c, s, a, e);
    }
  }

  lemma LayoutLength(c: Consts, s: State)
    requires Layout(c, s)
    ensures |s.at| == |s.copied|
  {
  }

  lemma NotLarge(c: Consts, s: State, a: Addr)
    requires Start(c) && Tables(c, s) && a in c.objs && s.hp !in c.h0
    ensures a !in s.marked && s.hp !in s.marked && a in c.h0
  {
    assert Contains(c.from, a);
  }

  lemma MarkKeeps(c: Consts, s: State, l: Addr)
    requires Inv(c, s) && l in c.large && l !in s.marked && Reachable(c.h0, c.roots0, l)
    ensures Inv(c, MarkState(s, l)) && Grows(s, MarkState(s, l))
  {
    hide Layout, Bytes, Reachable, ObjectOk, MemInv, EdgeInv;
    var s' := MarkState(s, l);
    LayoutSame(c, s, s');
    HpInRange(c, s);
    if l in s.origin { OriginFacts(c, s, l); }
    forall b ensures MemInv(c, s', b) {
      assert MemInv(c, s, b) && MemInv(c, s, l);
      MemMark(c, s, l, b);
    }
    forall e ensures EdgeInv(c, s', e) {
      assert EdgeInv(c, s, e);
      EdgeMark(c, s, l, e);
    }
  }

  lemma MemMark(c: Consts, s: State, l: Addr, b: Addr)
    requires MemInv(c, s, b) && MemInv(c, s, l) && l in c.large && l !in s.marked
    ensures MemInv(c, MarkState(s, l), b)
  {
  }

  lemma EdgeMark(c: Consts, s: State, l: Addr, e: Edge)
    requires Start(c) && Tables(c, s) && MemInv(c, s, l) && EdgeInv(c, s, e) && l in c.large && l !in s.marked
    ensures EdgeInv(c, MarkState(s, l), e)
  {
  }

  lemma LayoutSame(c: Consts, s: State, s': State)
    requires Layout(c, s) && s'.at == s.at && s'.copied == s.copied && s'.hp == s.hp
    ensures Layout(c, s')
  {
  }

  /** Visiting an edge whose target has been copied or marked, or that holds no reference. */
  lemma DoneKeeps(c: Consts, s: State, e: Edge, v: Value)
    requires Inv(c, s) && IsEdge(c, s, e) && v == Moved(s.fwd, Before(c, s, e))
    requires Before(c, s, e).Ref? ==> Visited(s, Before(c, s, e).a)
    ensures Inv(c, DoneState(s, e, v)) && Grows(s, DoneState(s, e, v))
  {
    hide Layout, Tables, Start, Bytes, Reachable, ObjectOk, EdgeInv, MemInv, IsEdge, Before, Moved, DoneState;
    var s' := DoneState(s, e, v);
    DoneSame(s, e, v);
    LayoutSame(c, s, s');
    TablesSame(c, s, s');
    HpInRange(c, s);
    DoneOutside(c, s, e);
    forall b ensures MemInv(c, s', b) { assert MemInv(c, s, b); DoneMem(c, s, e, v, b); }
    EdgeHere(c, s, e);
    forall d ensures EdgeInv(c, s', d) {
      assert EdgeInv(c, s, d);
      DoneEdge(c, s, e, v, d);
    }
  }

  /** All that a visited edge changes is the edge. */
  lemma DoneSame(s: State, e: Edge, v: Value)
    ensures var s' := DoneState(s, e, v);
      && s'.hp == s.hp && s'.marked == s.marked && s'.fwd == s.fwd && s'.copied == s.copied && s'.at == s.at
      && s'.origin == s.origin && s'.done == s.done + {e} && |s'.roots| == |s.roots| && Grows(s, s')
  {
  }

  lemma TablesSame(c: Consts, s: State, s': State)
    requires Tables(c, s) && s'.at == s.at && s'.copied == s.copied && s'.fwd == s.fwd && s'.origin == s.origin
    requires s'.marked == s.marked
    ensures Tables(c, s')
  {
  }

  /** Visited edges are not in from-space. */
  lemma DoneOutside(c: Consts, s: State, e: Edge)
    requires Start(c) && Layout(c, s) && Tables(c, s) && s.hp <= c.to.base + c.to.active && IsEdge(c, s, e)
    ensures e.FieldEdge? && e.obj in s.origin ==> e.obj !in c.objs && e.obj !in c.large
    ensures e.FieldEdge? && e.obj in s.marked ==> e.obj in c.large && e.obj !in c.objs
  {
    hide Layout, Bytes;
    if e.FieldEdge? && e.obj in s.origin { OriginFacts(c, s, e.obj); }
  }

  lemma DoneMem(c: Consts, s: State, e: Edge, v: Value, b: Addr)
    requires MemInv(c, s, b) && IsEdge(c, s, e)
    requires e.FieldEdge? && e.obj in s.origin ==> e.obj !in c.objs && e.obj !in c.large
    requires e.FieldEdge? && e.obj in s.marked ==> e.obj in c.large && e.obj !in c.objs
    ensures MemInv(c, DoneState(s, e, v), b)
  {
  }

  /** An edge is where the invariant says it is. */
  lemma EdgeHere(c: Consts, s: State, e: Edge)
    requires Inv(c, s) && IsEdge(c, s, e)
    ensures match e case RootEdge(i) => i < |s.roots| case FieldEdge(p, j) => p in s.mem && j < |Fields(s, p)|
  {
    hide Layout, Bytes, Reachable, ObjectOk, EdgeInv;
    HpInRange(c, s);
    if e.FieldEdge? {
      assert MemInv(c, s, e.obj);
      if e.obj in s.origin { OriginFacts(c, s, e.obj); }
    }
  }

  lemma DoneEdge(c: Consts, s: State, e: Edge, v: Value, d: Edge)
    requires EdgeInv(c, s, d) && IsEdge(c, s, e) && v == Moved(s.fwd, Before(c, s, e))
    requires Before(c, s, e).Ref? ==> Visited(s, Before(c, s, e).a)
    requires match e case RootEdge(i) => i < |s.roots| case FieldEdge(p, j) => p in s.mem && j < |Fields(s, p)|
    ensures EdgeInv(c, DoneState(s, e, v), d)
  {
  }

  // ---------- Reachability of what is visited ----------

  /** The target of an edge of a visited object, or of a root, is reachable. */
  lemma TargetReachable(c: Consts, s: State, e: Edge)
    requires Inv(c, s) && IsEdge(c, s, e) && Before(c, s, e).Ref?
    ensures var a := Before(c, s, e).a; a in c.h0 && Reachable(c.h0, c.roots0, a)
  {
    hide Layout, Bytes, EdgeInv, MemInv, Reachable;
    var a := Before(c, s, e).a;
    match e
    case RootEdge(i) =>
      assert c.roots0[i] in c.roots0;
      ReachRoot(c.h0, c.roots0, a);
    case FieldEdge(p, j) =>
      HpInRange(c, s);
      if p in s.origin { OriginFacts(c, s, p); }
      var q := Source(s, p);
      assert Visited(s, q) && ObjectOk(c.h0, q);
      assert Fields0(c, q)[j] in c.h0[q].fields;
      ReachField(c.h0, c.roots0, q, a);
  }

  // ---------- Progress of the traversal ----------

  predicate AllDone(c: Consts, s: State, p: Addr) {
    forall j: nat :: j < |Fields0(c, Source(s, p))| ==> FieldEdge(p, j) in s.done
  }

  ghost predicate NoneDone(s: State, p: Addr) {
    forall j: nat :: FieldEdge(p, j) !in s.done
  }

  /** What one call of `visit` on edges of `p` (or on a root) may leave behind: marked objects are
      black, and no other edge has been touched. */
  ghost predicate Confined(c: Consts, s: State, s': State, d: Edge) {
    d in s'.done && d !in s.done ==> d.FieldEdge? && d.obj in s'.marked && d.obj !in s.marked
  }

  ghost predicate NewMarksBlack(c: Consts, s: State, s': State) {
    forall l :: l in s'.marked && l !in s.marked ==> AllDone(c, s', l)
  }

  /** The traversal invariant: copies before index `g` are black, the others white of edges. */
  ghost predicate Wave(c: Consts, s: State, g: nat) {
    && g <= |s.at|
    && (forall i :: 0 <= i < g ==> AllDone(c, s, s.at[i]))
    && (forall i :: g <= i < |s.at| ==> NoneDone(s, s.at[i]))
    && (forall l :: l in s.marked ==> AllDone(c, s, l))
  }

  /** The two-space invariant: scanned objects hold no from-space references, the others no
      to-space references. */
  lemma ScannedAndUnscanned(c: Consts, s: State, g: nat, i: nat, j: nat)
    requires Inv(c, s) && Wave(c, s, g) && i < |s.at| && j < |Fields(s, s.at[i])| && Fields(s, s.at[i])[j].Ref?
    ensures var a := Fields(s, s.at[i])[j].a;
      if i < g then !Contains(c.from, a) else !Contains(c.to, a)
  {
    hide Layout, Bytes, Reachable;
    var e := FieldEdge(s.at[i], j);
    HpInRange(c, s);
    LayoutLength(c, s);
    assert s.at[i] in s.origin;
    OriginFacts(c, s, s.at[i]);
    assert MemInv(c, s, s.at[i]) && IsEdge(c, s, e) && EdgeInv(c, s, e);
    TargetReachable(c, s, e);
    if i < g {
      assert AllDone(c, s, s.at[i]);
      var a := Before(c, s, e).a;
      if a in s.fwd { FwdInTo(c, s, a); }
    } else {
      assert NoneDone(s, s.at[i]);
    }
  }

  lemma FwdInTo(c: Consts, s: State, a: Addr)
    requires Start(c) && Layout(c, s) && Tables(c, s) && a in s.fwd && s.hp <= c.to.base + c.to.active
    ensures Contains(c.to, s.fwd[a]) && s.fwd[a] in s.origin && s.origin[s.fwd[a]] == a
  {
    hide Bytes;
    var i :| 0 <= i < |s.copied| && s.copied[i] == a;
    assert s.at[i] in s.origin;
    OriginFacts(c, s, s.at[i]);
  }

  /** The tag word of a from-space object tells whether it has been forwarded. */
  lemma ForwardedIff(c: Consts, s: State, a: Addr)
    requires Inv(c, s) && a in c.objs
    ensures a in s.mem && (s.mem[a].header.ForwardedTo? <==> a in s.fwd)
    ensures a in s.fwd ==> s.mem[a].header.to == s.fwd[a]
  {
    hide Layout, Bytes, Reachable;
    assert MemInv(c, s, a) && ObjectOk(c.h0, a);
  }

  lemma EdgeReads(c: Consts, s: State, e: Edge)
    requires Inv(c, s) && IsEdge(c, s, e) && e !in s.done
    ensures match e case RootEdge(i) => i < |s.roots| case FieldEdge(p, j) => p in s.mem && j < |s.mem[p].fields|
    ensures Now(s, e) == Before(c, s, e)
  {
    hide Layout, Bytes, Reachable, MemInv;
    EdgeHere(c, s, e);
    assert EdgeInv(c, s, e);
  }

  /** As each edge is visited once, what it holds is in from-space or is a large object. */
  lemma TargetSpace(c: Consts, s: State, a: Addr)
    requires Inv(c, s) && a in c.h0
    ensures if Contains(c.from, a) then a in c.objs else a in c.large
    ensures !Contains(c.to, a)
  {
    hide Layout, Bytes, Reachable, MemInv;
  }

  lemma StillEdge(c: Consts, s: State, s': State, e: Edge)
    requires Inv(c, s) && Inv(c, s') && Grows(s, s') && IsEdge(c, s, e)
    ensures IsEdge(c, s', e) && Before(c, s', e) == Before(c, s, e)
  {
    if e.FieldEdge? { SameSource(c, s, s', e.obj); }
  }

  lemma SameSource(c: Consts, s: State, s': State, p: Addr)
    requires Inv(c, s) && Inv(c, s') && Grows(s, s') && (p in s.origin || p in s.marked)
    ensures Source(s', p) == Source(s, p)
  {
    hide Layout, Bytes, Reachable, MemInv, EdgeInv;
    HpInRange(c, s');
    if p !in s.origin && p in s'.origin { OriginFacts(c, s', p); }
  }

  lemma StillDone(c: Consts, s: State, s': State, p: Addr)
    requires Inv(c, s) && Inv(c, s') && Grows(s, s') && (p in s.origin || p in s.marked) && AllDone(c, s, p)
    ensures AllDone(c, s', p)
  {
    SameSource(c, s, s', p);
  }

  /** Writing back what an edge already holds only notes that it has been visited. */
  lemma DoneHere(s: State, e: Edge, v: Value)
    requires Now(s, e) == v
    requires match e case RootEdge(i) => i < |s.roots| case FieldEdge(p, j) => p in s.mem && j < |s.mem[p].fields|
    ensures DoneState(s, e, v) == s.(done := s.done + {e})
  {
    match e
    case RootEdge(i) => assert s.roots[i := v] == s.roots;
    case FieldEdge(p, j) =>
      assert s.mem[p].fields[j := v] == s.mem[p].fields;
      assert s.mem[p := s.mem[p]] == s.mem;
  }

  lemma GrowsTrans(s: State, s1: State, s2: State)
    requires Grows(s, s1) && Grows(s1, s2)
    ensures Grows(s, s2)
  {
  }

  lemma LargeFields(c: Consts, s: State, l: Addr)
    requires Inv(c, s) && l in c.large
    ensures l in s.mem && |s.mem[l].fields| == |Fields0(c, l)| && Source(s, l) == l
    ensures l !in s.marked ==> NoneDone(s, l)
  {
    hide Layout, Bytes, Reachable;
    assert MemInv(c, s, l);
    HpInRange(c, s);
    if l in s.origin { OriginFacts(c, s, l); }
    if l !in s.marked {
      forall j: nat ensures FieldEdge(l, j) !in s.done { assert EdgeInv(c, s, FieldEdge(l, j)); }
    }
  }

  lemma MovedLarge(c: Consts, s: State, a: Addr)
    requires Inv(c, s) && a in c.large
    ensures a !in s.fwd && Moved(s.fwd, Ref(a)) == Ref(a)
  {
    hide Layout, Bytes, Reachable, MemInv, EdgeInv;
    assert a in s.fwd ==> Contains(c.from, a);
  }

  lemma GrowsRefl(s: State)
    ensures Grows(s, s)
  {
  }

  lemma GrownMarks(s: State, s': State)
    requires Grows(s, s')
    ensures s.marked <= s'.marked && s.done <= s'.done
  {
  }

  /** A traversal that began after `e` was found unvisited has not visited it behind our back. */
  lemma NotNewEdge(c: Consts, s: State, s': State, e: Edge)
    requires Inv(c, s) && IsEdge(c, s, e) && e !in s.done && Confined(c, s, s', e) && Inv(c, s')
    ensures e !in s'.done
  {
    hide Layout, Bytes, Reachable, MemInv, EdgeInv;
    HpInRange(c, s);
    if e.FieldEdge? && e.obj in s.origin { OriginFacts(c, s, e.obj); }
  }

  lemma {:induction false} SubsetSize(a: set<Addr>, b: set<Addr>)
    requires a <= b
    ensures |a| <= |b|
  {
    if a != {} {
      var x :| x in a;
      SubsetSize(a - {x}, b - {x});
    }
  }

  lemma FewerLeft(large: set<Addr>, before: set<Addr>, now: set<Addr>, l: Addr)
    requires before <= now && l in large && l !in before && l in now
    ensures |large - now| < |large - before|
  {
    SubsetSize(large - now, large - before - {l});
  }

  /** Copy number `g` is being scanned and its first `j` fields have been visited. */
  ghost predicate PartWave(c: Consts, s: State, g: nat, j: nat) {
    && g < |s.at|
    && (forall i :: 0 <= i < g ==> AllDone(c, s, s.at[i]))
    && (forall i :: g < i < |s.at| ==> NoneDone(s, s.at[i]))
    && (forall l :: l in s.marked ==> AllDone(c, s, l))
    && (forall k: nat :: FieldEdge(s.at[g], k) in s.done <==> k < j)
  }

  lemma CopyFields(c: Consts, s: State, g: nat)
    requires Inv(c, s) && g < |s.at|
    ensures var p := s.at[g];
      && p in s.origin && p in s.mem && Source(s, p) == s.copied[g] && |s.mem[p].fields| == |Fields0(c, Source(s, p))|
      && s.copied[g] in c.h0 && s.mem[p].size == c.h0[s.copied[g]].size && p !in c.large
  {
    hide Layout, Bytes, Reachable, EdgeInv;
    LayoutLength(c, s);
    HpInRange(c, s);
    assert s.at[g] in s.origin;
    OriginFacts(c, s, s.at[g]);
    assert MemInv(c, s, s.at[g]);
  }

  lemma NewCopiesWhite(c: Consts, s: State, s': State, p: Addr)
    requires Inv(c, s) && Inv(c, s') && p in s'.origin && (p in s.origin ==> NoneDone(s, p))
    requires forall k: nat :: Confined(c, s, s', FieldEdge(p, k))
    ensures NoneDone(s', p)
  {
    hide Layout, Bytes, Reachable, MemInv;
    HpInRange(c, s');
    OriginFacts(c, s', p);
    forall k: nat ensures FieldEdge(p, k) !in s'.done {
      assert EdgeInv(c, s, FieldEdge(p, k)) && Confined(c, s, s', FieldEdge(p, k));
    }
  }

  lemma SameAt(s: State, s': State, i: nat)
    requires Grows(s, s') && i < |s.at|
    ensures i < |s'.at| && s'.at[i] == s.at[i]
  {
  }

  lemma AtsDiffer(c: Consts, s: State, i: nat, j: nat)
    requires Inv(c, s) && i < j < |s.at|
    ensures s.at[i] != s.at[j]
  {
    hide Bytes, Reachable, MemInv, EdgeInv, Start;
  }

  lemma PartStep(c: Consts, s: State, s': State, g: nat, j: nat)
    requires Inv(c, s) && Inv(c, s') && Grows(s, s') && PartWave(c, s, g, j) && FieldEdge(s.at[g], j) in s'.done
    requires NewMarksBlack(c, s, s') && forall d :: d != FieldEdge(s.at[g], j) ==> Confined(c, s, s', d)
    ensures PartWave(c, s', g, j + 1)
  {
    hide Inv, Grows;
    var p := s.at[g];
    SameAt(s, s', g);
    CopyFields(c, s, g);
    CopyFields(c, s', g);
    forall i | 0 <= i < g ensures AllDone(c, s', s'.at[i]) {
      SameAt(s, s', i);
      CopyFields(c, s, i);
      StillDone(c, s, s', s.at[i]);
    }
    forall i | g < i < |s'.at| ensures NoneDone(s', s'.at[i]) {
      CopyFields(c, s', i);
      AtsDiffer(c, s', g, i);
      if s'.at[i] in s.origin { OldCopyIndex(c, s, s', i); }
      NewCopiesWhite(c, s, s', s'.at[i]);
    }
    forall l | l in s'.marked ensures AllDone(c, s', l) {
      if l in s.marked { StillDone(c, s, s', l); }
    }
    MarkedAreLarge(c, s');
    GrownMarks(s, s');
    forall k: nat ensures FieldEdge(p, k) in s'.done <==> k < j + 1 {
      assert k == j || Confined(c, s, s', FieldEdge(p, k));
    }
  }

  lemma SameCopied(s: State, s': State, g: nat)
    requires Grows(s, s') && g < |s.copied|
    ensures g < |s'.copied| && s'.copied[g] == s.copied[g]
  {
  }

  lemma MarkedAreLarge(c: Consts, s: State)
    requires Inv(c, s)
    ensures s.marked <= c.large
  {
  }

  /** A copy that was there before has the same number as before. */
  lemma OldCopyIndex(c: Consts, s: State, s': State, i: nat)
    requires Inv(c, s) && Inv(c, s') && Grows(s, s') && i < |s'.at| && s'.at[i] in s.origin
    ensures i < |s.at| && s.at[i] == s'.at[i]
  {
    hide Bytes, Reachable, MemInv, EdgeInv, Start;
    var k :| 0 <= k < |s.at| && s.at[k] == s'.at[i];
    SameAt(s, s', k);
    if k < i { AtsDiffer(c, s', k, i); } else if i < k { AtsDiffer(c, s', i, k); }
  }

  /** The grey pointer is at copy number `g`. */
  lemma GreyAt(c: Consts, s: State, g: nat)
    requires Inv(c, s) && g <= |s.at|
    ensures |s.copied| == |s.at|
    ensures c.to.base + Bytes(c.h0, s.copied[..g]) < s.hp <==> g < |s.at|
    ensures g < |s.at| ==> s.at[g] == c.to.base + Bytes(c.h0, s.copied[..g])
    ensures g == |s.at| ==> s.hp == c.to.base + Bytes(c.h0, s.copied[..g])
    ensures g < |s.at| ==> Bytes(c.h0, s.copied[..g + 1]) == Bytes(c.h0, s.copied[..g]) + Size(c.h0, s.copied[g])
  {
    hide Reachable, MemInv, EdgeInv, Bytes, Start, Tables;
    if g == |s.at| {
      assert s.copied[..g] == s.copied;
    } else {
      BytesNext(c.h0, s.copied, g);
    }
  }

  lemma BytesNext(h: Memory, s: seq<Addr>, g: nat)
    requires g < |s|
    ensures Bytes(h, s[..g + 1]) == Bytes(h, s[..g]) + Size(h, s[g])
  {
    assert s[..g + 1][..g] == s[..g];
  }

  lemma WaveStarts(c: Consts, s: State, g: nat)
    requires Inv(c, s) && Wave(c, s, g) && g < |s.at|
    ensures PartWave(c, s, g, 0)
  {
  }

  lemma WaveMoves(c: Consts, s: State, g: nat, j: nat)
    requires Inv(c, s) && PartWave(c, s, g, j) && j == |Fields0(c, Source(s, s.at[g]))|
    ensures Wave(c, s, g + 1)
  {
  }

  lemma FewerThanObjects(c: Consts, s: State)
    requires Inv(c, s)
    ensures |s.at| == |s.copied| <= |c.objs| && s.hp <= c.to.base + c.to.active
  {
    hide MemInv, EdgeInv, Reachable;
    HpInRange(c, s);
  }

  // ---------- The end of a collection ----------

  /** Where everything is now. */
  function FinalMap(s: State): map<Addr, Addr> {
    map a | a in s.fwd.Keys + s.marked :: if a in s.fwd then s.fwd[a] else a
  }

  /** What is left when from-space and the unmarked large objects are given up. */
  function FinalMemory(c: Consts, s: State): Memory {
    map a | a in s.mem && (Contains(c.to, a) || a in s.marked) :: s.mem[a]
  }

  ghost predicate Finished(c: Consts, s: State) {
    Inv(c, s) && Wave(c, s, |s.at|) && forall i: nat :: i < |c.roots0| ==> RootEdge(i) in s.done
  }

  lemma MovedAgree(c: Consts, s: State, v: Value)
    ensures Moved(FinalMap(s), v) == Moved(s.fwd, v)
  {
  }

  /** With no edge left to visit, what has been visited is closed under references. */
  lemma VisitedClosed(c: Consts, s: State, a: Addr, b: Addr)
    requires Finished(c, s) && Visited(s, a) && a in c.h0 && Ref(b) in c.h0[a].fields
    ensures Visited(s, b)
  {
    hide Layout, Bytes, Reachable, MemInv, EdgeInv, Start;
    var j :| 0 <= j < |c.h0[a].fields| && c.h0[a].fields[j] == Ref(b);
    var p := NowAt(c, s, a);
    assert FieldEdge(p, j) in s.done;
    assert EdgeInv(c, s, FieldEdge(p, j));
    DoneTarget(c, s, FieldEdge(p, j));
  }

  lemma DoneTarget(c: Consts, s: State, e: Edge)
    requires EdgeInv(c, s, e) && e in s.done && Before(c, s, e).Ref?
    ensures Visited(s, Before(c, s, e).a)
  {
  }

  /** A visited object is at its final address, and all its edges have been visited. */
  lemma NowAt(c: Consts, s: State, a: Addr) returns (p: Addr)
    requires Finished(c, s) && Visited(s, a)
    ensures p == FinalMap(s)[a] && Source(s, p) == a && AllDone(c, s, p) && (p in s.origin || p in s.marked)
    ensures p in FinalMemory(c, s) && a in c.h0
  {
    hide Layout, Bytes, Reachable, EdgeInv;
    HpInRange(c, s);
    LayoutLength(c, s);
    p := FinalMap(s)[a];
    assert MemInv(c, s, p);
    if a in s.fwd {
      FwdInTo(c, s, a);
      var i :| 0 <= i < |s.at| && s.at[i] == p;
      OriginFacts(c, s, p);
    } else {
      MarkedAreLarge(c, s);
      if a in s.origin { OriginFacts(c, s, a); }
    }
  }

  /** Exactly what was reachable has been visited. */
  lemma VisitedIffReachable(c: Consts, s: State, a: Addr)
    requires Finished(c, s)
    ensures Visited(s, a) <==> a in c.h0 && Reachable(c.h0, c.roots0, a)
  {
    hide Layout, Bytes, MemInv, EdgeInv, Start;
    if Visited(s, a) {
      var p := NowAt(c, s, a);
    } else if a in c.h0 && Reachable(c.h0, c.roots0, a) {
      var path :| Path(c.h0, c.roots0, path) && path[|path| - 1] == a;
      var v := s.fwd.Keys + s.marked;
      forall b | Ref(b) in c.roots0 ensures b in v {
        var i :| 0 <= i < |c.roots0| && c.roots0[i] == Ref(b);
        assert EdgeInv(c, s, RootEdge(i));
        DoneTarget(c, s, RootEdge(i));
      }
      forall x, y | x in v && x in c.h0 && Ref(y) in c.h0[x].fields ensures y in v { VisitedClosed(c, s, x, y); }
      ClosedHoldsPath(c.h0, c.roots0, v, path);
      assert false;
    }
  }

  lemma FinalObject(c: Consts, s: State, a: Addr)
    requires Finished(c, s) && a in FinalMap(s)
    ensures SameObject(c.h0, FinalMemory(c, s), FinalMap(s), a)
  {
    hide Layout, Bytes, Reachable, EdgeInv, Start, FinalMemory;
    var p := NowAt(c, s, a);
    assert FinalMemory(c, s)[p] == s.mem[p] by { FinalMemoryIs(c, s, p); }
    FinalHeader(c, s, a, p);
    forall j: nat | j < |c.h0[a].fields|
      ensures s.mem[p].fields[j] == Moved(FinalMap(s), c.h0[a].fields[j])
    {
      assert EdgeInv(c, s, FieldEdge(p, j));
      EdgeMoved(c, s, FieldEdge(p, j));
      MovedAgree(c, s, c.h0[a].fields[j]);
    }
  }

  lemma FinalMemoryIs(c: Consts, s: State, p: Addr)
    requires p in FinalMemory(c, s)
    ensures p in s.mem && FinalMemory(c, s)[p] == s.mem[p]
  {
  }

  lemma FinalHeader(c: Consts, s: State, a: Addr, p: Addr)
    requires Inv(c, s) && Source(s, p) == a && (p in s.origin || p in s.marked) && p in s.mem && a in c.h0
    ensures s.mem[p].header == c.h0[a].header && s.mem[p].size == c.h0[a].size && |s.mem[p].fields| == |c.h0[a].fields|
  {
    hide Layout, Bytes, Reachable, EdgeInv, Start;
    assert MemInv(c, s, p);
    MarkedAreLarge(c, s);
  }

  lemma EdgeMoved(c: Consts, s: State, e: Edge)
    requires EdgeInv(c, s, e) && e in s.done
    ensures Now(s, e) == Moved(s.fwd, Before(c, s, e))
  {
  }

  lemma FinalInjective(c: Consts, s: State)
    requires Finished(c, s)
    ensures Injective(FinalMap(s))
  {
    hide Layout, Bytes, Reachable, EdgeInv, MemInv, Start;
    forall a, b | a in FinalMap(s) && b in FinalMap(s) && FinalMap(s)[a] == FinalMap(s)[b] ensures a == b {
      var p := NowAt(c, s, a);
      var q := NowAt(c, s, b);
    }
  }

  /** The heap after the collection is the reachable part of the heap before it, up to addresses. */
  lemma CollectionIsomorphic(c: Consts, s: State)
    requires Finished(c, s)
    ensures Isomorphic(c.h0, c.roots0, FinalMemory(c, s), s.roots, FinalMap(s))
  {
    hide Layout, Bytes, Reachable, EdgeInv, MemInv, Start, SameObject, FinalMemory;
    var f := FinalMap(s);
    FinalInjective(c, s);
    forall a ensures a in f <==> a in c.h0 && Reachable(c.h0, c.roots0, a) { VisitedIffReachable(c, s, a); }
    forall i | 0 <= i < |c.roots0| ensures s.roots[i] == Moved(f, c.roots0[i]) {
      assert EdgeInv(c, s, RootEdge(i));
      EdgeMoved(c, s, RootEdge(i));
      MovedAgree(c, s, c.roots0[i]);
    }
    forall a | a in f ensures SameObject(c.h0, FinalMemory(c, s), f, a) { FinalObject(c, s, a); }
  }

  // ---------- Between collections ----------

  /** The heap as the mutator sees it.  `objs` lists the small objects in address order. */
  datatype Heap = Heap(
    mem: Memory, roots: seq<Value>, objs: seq<Addr>, large: set<Addr>,
    hp: Addr, limit: Addr, from: Region, to: Region)

  /** The active space is a gap-free sequence of small objects from its base to hp. */
  ghost predicate GapFree(h: Heap) {
    && Distinct(h.objs) && h.hp == h.to.base + Bytes(h.mem, h.objs)
    && (forall i :: 0 <= i < |h.objs| ==> h.objs[i] == h.to.base + Bytes(h.mem, h.objs[..i]) && h.objs[i] < h.hp)
  }

  ghost predicate SpacesOk(h: Heap) {
    && h.hp <= h.limit == h.to.base + h.to.active && h.from.active == h.to.active
    && (forall a :: Contains(h.from, a) ==> !Contains(h.to, a))
    && (forall a :: Contains(h.from, a) || Contains(h.to, a) ==> a !in h.large)
    && h.to.base % Alignment == 0 && h.from.base % Alignment == 0 && h.to.active % Alignment == 0
  }

  ghost predicate HeapOk(h: Heap) {
    && GapFree(h) && SpacesOk(h)
    && (forall a :: a in h.mem <==> a in h.objs || a in h.large)
    && (forall a :: ObjectOk(h.mem, a))
    && RefsIn(h.roots, h.mem)
  }

  /** flip: the spaces change places. */
  function Flipped(h: Heap): Consts {
    Consts(h.mem, h.roots, h.objs, h.large, h.to, h.from)
  }

  function StartState(h: Heap): State {
    State(h.mem, h.roots, h.from.base, {}, map[], [], [], map[], {})
  }

  lemma FlipStart(h: Heap)
    requires HeapOk(h)
    ensures Start(Flipped(h))
  {
    hide ObjectOk, RefsIn, Bytes;
    forall a | a in h.objs ensures Contains(h.to, a) {
      var i :| 0 <= i < |h.objs| && h.objs[i] == a;
    }
  }

  lemma FlipStarts(h: Heap)
    requires HeapOk(h)
    ensures Inv(Flipped(h), StartState(h)) && Wave(Flipped(h), StartState(h), 0)
  {
    hide Reachable, Start, ObjectOk, HeapOk;
    FlipStart(h);
    var c, s := Flipped(h), StartState(h);
    forall a ensures MemInv(c, s, a) {}
    forall e ensures EdgeInv(c, s, e) {}
  }

  lemma {:induction false} BytesSame(h: Memory, s: seq<Addr>, h': Memory, s': seq<Addr>)
    requires |s| == |s'| && forall i :: 0 <= i < |s| ==> Size(h', s'[i]) == Size(h, s[i])
    ensures Bytes(h', s') == Bytes(h, s)
  {
    if s != [] {
      BytesSame(h, s[..|s| - 1], h', s'[..|s'| - 1]);
    }
  }

  /** The heap that a finished collection leaves. */
  function FinalHeap(c: Consts, s: State): Heap {
    Heap(FinalMemory(c, s), s.roots, s.at, s.marked, s.hp, c.to.base + c.to.active, c.from, c.to)
  }

  lemma FinalGapFree(c: Consts, s: State)
    requires Finished(c, s)
    ensures GapFree(FinalHeap(c, s))
  {
    hide Reachable, EdgeInv, MemInv, Start, Bytes, Wave, FinalMemory;
    var m := FinalMemory(c, s);
    LayoutLength(c, s);
    forall i | 0 <= i < |s.at| ensures Size(m, s.at[i]) == Size(c.h0, s.copied[i]) { FinalSize(c, s, i); }
    BytesSame(c.h0, s.copied, m, s.at);
    forall i | 0 <= i < |s.at| ensures s.at[i] == c.to.base + Bytes(m, s.at[..i]) {
      BytesSame(c.h0, s.copied[..i], m, s.at[..i]);
    }
  }

  lemma FinalSize(c: Consts, s: State, i: nat)
    requires Finished(c, s) && i < |s.at| == |s.copied|
    ensures Size(FinalMemory(c, s), s.at[i]) == Size(c.h0, s.copied[i])
  {
    hide Reachable, EdgeInv, MemInv, Start, Bytes, Wave, FinalMemory, Layout;
    CopyFields(c, s, i);
    assert s.copied[i] in s.fwd;
    var p := NowAt(c, s, s.copied[i]);
    FinalMemoryIs(c, s, p);
  }

  lemma FinalKeys(c: Consts, s: State, b: Addr)
    requires Finished(c, s)
    ensures b in FinalMemory(c, s) <==> b in s.at || b in s.marked
    ensures b in FinalMemory(c, s) ==> exists a :: a in FinalMap(s) && FinalMap(s)[a] == b
  {
    hide Reachable, EdgeInv, Bytes, Wave, Layout;
    LayoutLength(c, s);
    HpInRange(c, s);
    assert MemInv(c, s, b);
    if b in s.at {
      var i :| 0 <= i < |s.at| && s.at[i] == b;
      CopyFields(c, s, i);
      OriginFacts(c, s, b);
      assert s.copied[i] in FinalMap(s) && FinalMap(s)[s.copied[i]] == b;
    }
    if b in s.marked {
      MovedLarge(c, s, b);
      assert b in FinalMap(s) && FinalMap(s)[b] == b;
    }
  }

  lemma FinalRefs(c: Consts, s: State, vs: seq<Value>, vs0: seq<Value>)
    requires Finished(c, s) && |vs| == |vs0|
    requires forall i :: 0 <= i < |vs| ==> vs[i] == Moved(FinalMap(s), vs0[i]) && (vs0[i].Ref? ==> Visited(s, vs0[i].a))
    ensures RefsIn(vs, FinalMemory(c, s))
  {
    hide Reachable, EdgeInv, Bytes, Wave, Layout, MemInv, Start, FinalMemory, Inv;
    forall v | v in vs && v.Ref? ensures v.a in FinalMemory(c, s) {
      var i :| 0 <= i < |vs| && vs[i] == v;
      assert vs0[i].Ref?;
      var p := NowAt(c, s, vs0[i].a);
    }
  }

  lemma FinalObjectOk(c: Consts, s: State, b: Addr)
    requires Finished(c, s)
    ensures ObjectOk(FinalMemory(c, s), b)
  {
    hide Reachable, EdgeInv, Bytes, Wave, Layout, MemInv, FinalMemory;
    if b in FinalMemory(c, s) {
      FinalKeys(c, s, b);
      var a :| a in FinalMap(s) && FinalMap(s)[a] == b;
      FinalObject(c, s, a);
      assert ObjectOk(c.h0, a);
      forall i: nat | i < |c.h0[a].fields| && c.h0[a].fields[i].Ref? ensures Visited(s, c.h0[a].fields[i].a) {
        VisitedClosed(c, s, a, c.h0[a].fields[i].a);
      }
      FinalRefs(c, s, FinalMemory(c, s)[b].fields, c.h0[a].fields);
    }
  }

  lemma FinalRootsOk(c: Consts, s: State)
    requires Finished(c, s)
    ensures RefsIn(s.roots, FinalMemory(c, s))
  {
    hide Reachable, Bytes, Wave, Layout, MemInv, FinalMemory, EdgeInv;
    CollectionIsomorphic(c, s);
    forall i: nat | i < |c.roots0| && c.roots0[i].Ref? ensures Visited(s, c.roots0[i].a) {
      assert EdgeInv(c, s, RootEdge(i));
      DoneTarget(c, s, RootEdge(i));
    }
    FinalRefs(c, s, s.roots, c.roots0);
  }

  lemma FinalHeapOk(c: Consts, s: State)
    requires Finished(c, s)
    requires c.from.active == c.to.active && c.to.base % Alignment == 0 == c.from.base % Alignment && c.to.active % Alignment == 0
    ensures HeapOk(FinalHeap(c, s))
  {
    hide Reachable, EdgeInv, Bytes, Wave, Layout, MemInv, GapFree, FinalMemory, ObjectOk, RefsIn, Tables;
    FinalGapFree(c, s);
    FinalRootsOk(c, s);
    FewerThanObjects(c, s);
    MarkedAreLarge(c, s);
    forall b ensures ObjectOk(FinalMemory(c, s), b) { FinalObjectOk(c, s, b); }
    forall b ensures b in FinalMemory(c, s) <==> b in s.at || b in s.marked { FinalKeys(c, s, b); }
  }

  lemma RootStep(c: Consts, s: State, s': State, i: nat)
    requires Inv(c, s) && Inv(c, s') && Grows(s, s') && Wave(c, s, 0) && RootEdge(i) in s'.done && i < |c.roots0|
    requires NewMarksBlack(c, s, s') && forall d :: d != RootEdge(i) ==> Confined(c, s, s', d)
    requires forall k: nat :: RootEdge(k) in s.done <==> k < i
    ensures Wave(c, s', 0) && |s'.roots| == |c.roots0|
    ensures forall k: nat :: RootEdge(k) in s'.done <==> k < i + 1
  {
    hide Inv;
    RootsCount(c, s');
    forall k | 0 <= k < |s'.at| ensures NoneDone(s', s'.at[k]) {
      CopyFields(c, s', k);
      if s'.at[k] in s.origin { OldCopyIndex(c, s, s', k); }
      NewCopiesWhite(c, s, s', s'.at[k]);
    }
    forall l | l in s'.marked ensures AllDone(c, s', l) {
      if l in s.marked { StillDone(c, s, s', l); }
    }
    forall k: nat ensures RootEdge(k) in s'.done <==> k < i + 1 {
      assert k == i || Confined(c, s, s', RootEdge(k));
    }
  }

  lemma RootsCount(c: Consts, s: State)
    requires Inv(c, s)
    ensures |s.roots| == |c.roots0|
  {
  }

  lemma BytesEmpty(h: Memory)
    ensures Bytes(h, []) == 0
  {
  }

  lemma OkAlignment(h: Heap)
    requires HeapOk(h)
    ensures h.from.active == h.to.active && h.to.base % Alignment == 0 == h.from.base % Alignment && h.to.active % Alignment == 0
  {
  }

  lemma FinalMemoryShape(c: Consts, s: State)
    ensures FinalMemory(c, s) == map a | a in s.mem && (Contains(c.to, a) || a in s.marked) :: s.mem[a]
  {
  }

  // ---------- What the program can see ----------

  /** Whatever path the program follows from a root, before and after, it comes to the same object, or to
      the same constant. */
  lemma SamePaths(h: Memory, roots: seq<Value>, h': Memory, roots': seq<Value>, f: map<Addr, Addr>, i: nat, path: seq<nat>)
    requires Isomorphic(h, roots, h', roots', f) && i < |roots|
    requires RefsIn(roots, h) && forall a :: a in h ==> RefsIn(h[a].fields, h)
    ensures Follow(h', roots'[i], path) == Moved(f, Follow(h, roots[i], path))
    ensures var v := Follow(h, roots[i], path); v.Ref? ==> v.a in f && SameObject(h, h', f, v.a)
  {
    var v := roots[i];
    assert v in roots;
    if v.Ref? { ReachRoot(h, roots, v.a); }
    FollowSame(h, roots, h', roots', f, v, path);
    FollowReaches(h, roots, v, path);
  }

  lemma {:induction false} FollowReaches(h: Memory, roots: seq<Value>, v: Value, path: seq<nat>)
    requires v.Ref? ==> v.a in h && Reachable(h, roots, v.a)
    requires forall a :: a in h ==> RefsIn(h[a].fields, h)
    ensures var w := Follow(h, v, path); w.Ref? ==> w.a in h && Reachable(h, roots, w.a)
    decreases |path|
  {
    hide Reachable;
    if path != [] && v.Ref? && path[0] < |h[v.a].fields| {
      var w := h[v.a].fields[path[0]];
      assert w in h[v.a].fields;
      if w.Ref? { ReachField(h, roots, v.a, w.a); }
      FollowReaches(h, roots, w, path[1..]);
    }
  }

  lemma {:induction false} FollowSame(h: Memory, roots: seq<Value>, h': Memory, roots': seq<Value>, f: map<Addr, Addr>,
                                      v: Value, path: seq<nat>)
    requires Isomorphic(h, roots, h', roots', f) && (v.Ref? && v.a in h ==> Reachable(h, roots, v.a))
    requires forall a :: a in h ==> RefsIn(h[a].fields, h)
    requires v.Ref? ==> v.a in h
    ensures Follow(h', Moved(f, v), path) == Moved(f, Follow(h, v, path))
    decreases |path|
  {
    hide Reachable;
    if path != [] && v.Ref? {
      assert SameObject(h, h', f, v.a);
      if path[0] < |h[v.a].fields| {
        var w := h[v.a].fields[path[0]];
        assert w in h[v.a].fields;
        if w.Ref? { ReachField(h, roots, v.a, w.a); }
        FollowSame(h, roots, h', roots', f, w, path[1..]);
      }
    }
  }

  // ---------- Allocation ----------

  lemma AlignUpAligned(n: nat)
    ensures AlignUp(n) % Alignment == 0
    ensures forall m: nat :: m % Alignment == 0 && n <= m ==> AlignUp(n) <= m
    ensures forall a: nat :: a % Alignment == 0 ==> AlignUp(a + n) == a + AlignUp(n)
  {
  }

  lemma {:induction false} BytesAligned(h: Memory, s: seq<Addr>)
    ensures Bytes(h, s) % Alignment == 0
  {
    if s != [] {
      BytesAligned(h, s[..|s| - 1]);
      if s[|s| - 1] in h { AlignUpAligned(h[s[|s| - 1]].size); }
    }
  }

  /** The bump pointer and the limit are aligned, so rounding a size up cannot make it stop fitting. */
  lemma RoundingFits(h: Heap, size: nat)
    requires HeapOk(h)
    ensures h.hp % Alignment == 0 && h.limit % Alignment == 0
    ensures AlignUp(h.hp + size) == h.hp + AlignUp(size)
    ensures h.hp + size <= h.limit <==> h.hp + AlignUp(size) <= h.limit
  {
    hide ObjectOk, RefsIn, Bytes, AlignUp;
    BytesAligned(h.mem, h.objs);
    AlignUpAtLeast(size);
    RoundedSize(h.hp, h.limit, size);
  }

  lemma RoundedSize(hp: nat, limit: nat, size: nat)
    requires hp % Alignment == 0 && limit % Alignment == 0 && hp <= limit
    ensures AlignUp(hp + size) == hp + AlignUp(size)
    ensures hp + size <= limit <==> hp + AlignUp(size) <= limit
  {
    hide AlignUp;
    AlignUpAligned(size);
    AlignUpAtLeast(size);
    assert (limit - hp) % Alignment == 0;
  }

  lemma LimitIs(h: Heap)
    requires HeapOk(h)
    ensures h.to.base <= h.hp <= h.limit == h.to.base + h.to.active
  {
  }

  lemma AlignUpAtLeast(n: nat)
    ensures n <= AlignUp(n) && (n > 0 ==> AlignUp(n) > 0)
  {
  }

  function Blank(kind: nat, size: nat, n: nat): Obj {
    Obj(Tag(kind), size, seq(n, _ => Null))
  }

  function WithNew(h: Heap, o: Obj): Heap {
    h.(mem := h.mem[h.hp := o], objs := h.objs + [h.hp], hp := h.hp + AlignUp(o.size))
  }

  lemma AllocateKeeps(h: Heap, kind: nat, size: nat, n: nat)
    requires HeapOk(h) && size > 0 && h.hp + AlignUp(size) <= h.limit
    ensures HeapOk(WithNew(h, Blank(kind, size, n))) && h.hp !in h.mem
  {
    hide Bytes, AlignUp;
    AlignUpAtLeast(size);
    var o := Blank(kind, size, n);
    var h' := WithNew(h, o);
    assert Contains(h.to, h.hp);
    forall a ensures ObjectOk(h'.mem, a) { assert ObjectOk(h.mem, a); }
    assert GapFree(h') by { NewIsLast(h, o); }
  }

  lemma NewIsLast(h: Heap, o: Obj)
    requires GapFree(h) && h.hp !in h.mem && o.size > 0 && forall a :: a in h.objs ==> a in h.mem
    ensures GapFree(WithNew(h, o))
  {
    hide AlignUp, Bytes;
    AlignUpAtLeast(o.size);
    var h' := WithNew(h, o);
    forall i | 0 <= i < |h.objs| ensures Size(h'.mem, h.objs[i]) == Size(h.mem, h.objs[i]) { assert h.objs[i] in h.mem; }
    BytesSame(h.mem, h.objs, h'.mem, h.objs);
    forall i | 0 <= i < |h'.objs| ensures h'.objs[i] == h.to.base + Bytes(h'.mem, h'.objs[..i]) {
      if i < |h.objs| {
        assert h'.objs[..i] == h.objs[..i];
        BytesSame(h.mem, h.objs[..i], h'.mem, h.objs[..i]);
      } else {
        assert h'.objs[..i] == h.objs;
      }
    }
    BytesNext(h'.mem, h'.objs, |h.objs|);
    assert h'.objs[..|h.objs| + 1] == h'.objs && h'.objs[..|h.objs|] == h.objs;
  }

  // ---------- The collector ----------

  class Collector {
    var mem: Memory
    var roots: seq<Value>
    var hp: Addr
    var limit: Addr
    var from: Region
    var to: Region
    var large: set<Addr>
    var marked: set<Addr>

    // The progress of a collection, for the proof
    ghost var objs: seq<Addr>
    ghost var fwd: map<Addr, Addr>
    ghost var copied: seq<Addr>
    ghost var at: seq<Addr>
    ghost var origin: map<Addr, Addr>
    ghost var done: set<Edge>

    ghost function Snap(): State
      reads this
    {
      State(mem, roots, hp, marked, fwd, copied, at, origin, done)
    }

    /** In the middle of a collection of the heap `c`. */
    ghost predicate Working(c: Consts)
      reads this
    {
      Inv(c, Snap()) && from == c.from && to == c.to && large == c.large && limit == c.to.base + c.to.active && objs == c.objs
    }

    method Copy(ghost c: Consts, a: Addr) returns (n: Addr)
      requires Working(c) && a in c.objs && a !in fwd && Reachable(c.h0, c.roots0, a)
      modifies this
      ensures Working(c) && a in old(mem) && Snap() == CopyState(old(Snap()), a)
      ensures n == old(hp) && hp <= limit && Grows(old(Snap()), Snap())
    {
      hide Inv, Reachable;
      CopyKeeps(c, Snap(), a);
      n := hp;
      var o := mem[a];
      mem := mem[n := o][a := o.(header := ForwardedTo(n))];
      hp := hp + AlignUp(o.size);
      fwd, origin, copied, at := fwd[a := n], origin[n := a], copied + [a], at + [n];
    }

    method Forward(ghost c: Consts, a: Addr) returns (n: Addr)
      requires Working(c) && a in c.objs && Reachable(c.h0, c.roots0, a)
      modifies this
      ensures Working(c) && Grows(old(Snap()), Snap()) && a in fwd && n == fwd[a]
      ensures marked == old(marked) && done == old(done)
    {
      hide Inv, Reachable;
      ForwardedIff(c, Snap(), a);
      match mem[a].header
      case ForwardedTo(to) => n := to;
      case Tag(_) => n := Copy(c, a);
    }

    method Update(e: Edge, v: Value)
      requires match e case RootEdge(i) => i < |roots| case FieldEdge(p, j) => p in mem && j < |mem[p].fields|
      modifies this
      ensures Snap() == DoneState(old(Snap()), e, v)
      ensures from == old(from) && to == old(to) && large == old(large) && limit == old(limit) && objs == old(objs)
    {
      done := done + {e};
      match e
      case RootEdge(i) => roots := roots[i := v];
      case FieldEdge(p, j) => mem := mem[p := mem[p].(fields := mem[p].fields[j := v])];
    }

    method Visit(ghost c: Consts, e: Edge)
      requires Working(c) && IsEdge(c, Snap(), e) && e !in done
      modifies this
      ensures Working(c) && Grows(old(Snap()), Snap()) && e in done
      ensures NewMarksBlack(c, old(Snap()), Snap())
      ensures forall d :: d != e ==> Confined(c, old(Snap()), Snap(), d)
      decreases |c.large - marked|, 2
    {
      hide Inv, Reachable, IsEdge, Before, Grows, DoneState;
      ghost var s := Snap();
      EdgeReads(c, s, e);
      var v := match e case RootEdge(i) => roots[i] case FieldEdge(p, j) => mem[p].fields[j];
      if !v.Ref? {
        DoneKeeps(c, s, e, v);
        DoneHere(s, e, v);
        done := done + {e};
      } else {
        TargetReachable(c, s, e);
        TargetSpace(c, s, v.a);
        if Contains(from, v.a) {
          var n := Forward(c, v.a);
          ghost var s1 := Snap();
          StillEdge(c, s, s1, e);
          DoneKeeps(c, s1, e, Ref(n));
          EdgeHere(c, s1, e);
          Update(e, Ref(n));
          DoneSame(s1, e, Ref(n));
          GrowsTrans(s, s1, Snap());
        } else {
          VisitLarge(c, v.a);
          ghost var s1 := Snap();
          StillEdge(c, s, s1, e);
          NotNewEdge(c, s, s1, e);
          EdgeReads(c, s1, e);
          MovedLarge(c, s1, v.a);
          DoneKeeps(c, s1, e, v);
          DoneHere(s1, e, v);
          done := done + {e};
          GrowsTrans(s, s1, Snap());
          forall d | d != e ensures Confined(c, s, Snap(), d) { assert Confined(c, s, s1, d); }
        }
      }
    }

    method VisitLarge(ghost c: Consts, l: Addr)
      requires Working(c) && l in c.large && Reachable(c.h0, c.roots0, l)
      modifies this
      ensures Working(c) && Grows(old(Snap()), Snap()) && l in marked
      ensures NewMarksBlack(c, old(Snap()), Snap())
      ensures forall d :: Confined(c, old(Snap()), Snap(), d)
      decreases |c.large - marked|, 1
    {
      hide Inv, Reachable, Before, Grows, DoneState;
      if l !in marked {
        ghost var s := Snap();
        LargeFields(c, s, l);
        MarkKeeps(c, s, l);
        marked := marked + {l};
        var j := 0;
        while j < |mem[l].fields|
          invariant Working(c) && Grows(s, Snap()) && l in marked && l in mem
          invariant j <= |mem[l].fields| == |Fields0(c, l)| && Source(Snap(), l) == l
          invariant forall i: nat :: FieldEdge(l, i) in done <==> i < j
          invariant forall m :: m in marked && m !in s.marked && m != l ==> AllDone(c, Snap(), m)
          invariant forall d :: Confined(c, s, Snap(), d)
          decreases |Fields0(c, l)| - j
        {
          ghost var s1 := Snap();
          GrownMarks(s, s1);
          FewerLeft(c.large, s.marked, marked, l);
          Visit(c, FieldEdge(l, j));
          GrowsTrans(s, s1, Snap());
          LargeFields(c, Snap(), l);
          forall m | m in marked && m !in s.marked && m != l ensures AllDone(c, Snap(), m) {
            if m in s1.marked { StillDone(c, s1, Snap(), m); }
          }
          GrownMarks(s1, Snap());
          forall d ensures Confined(c, s, Snap(), d) {
            assert Confined(c, s, s1, d);
            assert d == FieldEdge(l, j) || Confined(c, s1, Snap(), d);
          }
          forall i: nat | i > j ensures FieldEdge(l, i) !in done { assert Confined(c, s1, Snap(), FieldEdge(l, i)); }
          j := j + 1;
        }
      } else {
        GrowsRefl(Snap());
      }
    }

    /** Visit the fields of copy number `g`, at `grey`; return the address of the next copy. */
    method Scan(ghost c: Consts, ghost g: nat, grey: Addr) returns (next: Addr)
      requires Working(c) && g < |at| && |at| == |copied| && grey == at[g] && Wave(c, Snap(), g)
      modifies this
      ensures Working(c) && Grows(old(Snap()), Snap()) && Wave(c, Snap(), g + 1)
      ensures g + 1 <= |copied| && next == c.to.base + Bytes(c.h0, copied[..g + 1])
    {
      hide Inv, Reachable, Grows, Wave, Bytes;
      ghost var s := Snap();
      WaveStarts(c, s, g);
      CopyFields(c, s, g);
      GrowsRefl(s);
      var j := 0;
      while j < |mem[grey].fields|
        invariant Working(c) && Grows(s, Snap()) && grey in mem && g < |at| && at[g] == grey
        invariant PartWave(c, Snap(), g, j)
        invariant j <= |mem[grey].fields| == |Fields0(c, Source(Snap(), grey))|
        invariant |mem[grey].fields| == |Fields0(c, s.copied[g])|
        decreases |Fields0(c, s.copied[g])| - j
      {
        ghost var s1 := Snap();
        CopyFields(c, s1, g);
        Visit(c, FieldEdge(grey, j));
        GrowsTrans(s, s1, Snap());
        PartStep(c, s1, Snap(), g, j);
        SameAt(s1, Snap(), g);
        CopyFields(c, Snap(), g);
        SameCopied(s, Snap(), g);
        j := j + 1;
      }
      WaveMoves(c, Snap(), g, j);
      CopyFields(c, Snap(), g);
      FewerThanObjects(c, Snap());
      GreyAt(c, Snap(), g);
      next := grey + AlignUp(mem[grey].size);
    }

    /** Scan copies until there are none left to scan. */
    method TraceClosure(ghost c: Consts, ghost g0: nat, start: Addr) returns (grey: Addr)
      requires Working(c) && Wave(c, Snap(), g0) && g0 <= |copied| && start == c.to.base + Bytes(c.h0, copied[..g0])
      modifies this
      ensures Working(c) && Grows(old(Snap()), Snap()) && Wave(c, Snap(), |at|) && grey == hp
    {
      hide Inv, Reachable, Grows, Wave, Bytes;
      ghost var s := Snap();
      ghost var g := g0;
      grey := start;
      GrowsRefl(s);
      FewerThanObjects(c, s);
      while grey < hp
        invariant Working(c) && Grows(s, Snap()) && Wave(c, Snap(), g)
        invariant g <= |copied| == |at| <= |c.objs| && grey == c.to.base + Bytes(c.h0, copied[..g])
        decreases |c.objs| - g
      {
        ghost var s1 := Snap();
        GreyAt(c, s1, g);
        grey := Scan(c, g, grey);
        GrowsTrans(s, s1, Snap());
        FewerThanObjects(c, Snap());
        g := g + 1;
      }
      GreyAt(c, Snap(), g);
    }

    ghost function View(): Heap
      reads this
    {
      Heap(mem, roots, objs, large, hp, limit, from, to)
    }

    /** Between collections. */
    ghost predicate Valid()
      reads this
    {
      HeapOk(View()) && marked == {}
    }

    method Flip()
      requires Valid()
      modifies this
      ensures Snap() == StartState(old(View())) && Working(Flipped(old(View()))) && Wave(Flipped(old(View())), Snap(), 0)
    {
      FlipStarts(View());
      from, to := to, from;
      hp := to.base;
      limit := hp + to.active;
      fwd, copied, at, origin, done := map[], [], [], map[], {};
    }

    /** The roots, each of them an edge. */
    method VisitRoots(ghost c: Consts)
      requires Working(c) && Wave(c, Snap(), 0) && |roots| == |c.roots0| && forall i: nat :: RootEdge(i) !in done
      modifies this
      ensures Working(c) && Wave(c, Snap(), 0) && forall i: nat :: i < |c.roots0| ==> RootEdge(i) in done
    {
      hide Inv, Reachable, Grows;
      var i := 0;
      while i < |roots|
        invariant Working(c) && Wave(c, Snap(), 0) && i <= |roots| == |c.roots0|
        invariant forall k: nat :: RootEdge(k) in done <==> k < i
      {
        ghost var s := Snap();
        Visit(c, RootEdge(i));
        RootStep(c, s, Snap(), i);
        i := i + 1;
      }
    }

    /** gc_collect.  The program goes on in a heap isomorphic to what it could reach. */
    method Collect() returns (ghost f: map<Addr, Addr>)
      requires Valid()
      modifies this
      ensures Valid()
      ensures Isomorphic(old(mem), old(roots), mem, roots, f)
      ensures forall b :: b in mem ==> exists a :: a in f && f[a] == b
      ensures to == old(from) && from == old(to)
    {
      hide Inv, Reachable, Grows, HeapOk, FinalMap, FinalMemory, Isomorphic, Wave, Bytes;
      ghost var c := Flipped(View());
      OkAlignment(View());
      Flip();
      RootsCount(c, Snap());
      var grey := hp;
      VisitRoots(c);
      assert copied[..0] == [] && Bytes(c.h0, []) == 0 by { BytesEmpty(c.h0); }
      ghost var s0 := Snap();
      grey := TraceClosure(c, 0, grey);
      ghost var s := Snap();
      GrownMarks(s0, s);
      CollectionIsomorphic(c, s);
      FinalHeapOk(c, s);
      f := FinalMap(s);
      forall b | b in FinalMemory(c, s) ensures exists a :: a in f && f[a] == b { FinalKeys(c, s, b); }
      FinalMemoryShape(c, s);
      mem := map a | a in mem && (Contains(to, a) || a in marked) :: mem[a];
      objs := at;
      large := marked;
      marked := {};
      limit := to.base + to.active;
    }

    /** gc_allocate_slow for small objects, under the fixed heap size.  It fails only if the object
        does not fit beside what can be reached. */
    method Allocate(kind: nat, size: nat, n: nat) returns (addr: Addr, ok: bool, collected: bool, ghost f: map<Addr, Addr>)
      requires Valid() && size > 0
      modifies this
      ensures Valid()
      ensures ok ==> addr in mem && mem[addr] == Blank(kind, size, n)
      ensures ok && !collected ==> mem == old(mem)[addr := mem[addr]] && addr !in old(mem) && roots == old(roots)
      ensures collected ==> exists m :: Isomorphic(old(mem), old(roots), m, roots, f) &&
                              if ok then addr !in m && mem == m[addr := mem[addr]] else mem == m
      ensures collected <==> old(to.base + to.active - hp) < AlignUp(size)
      ensures !ok ==> collected && to.active < AlignUp(size) + (hp - to.base)
    {
      hide HeapOk, Isomorphic, AlignUp, Reachable, Bytes;
      addr, ok, collected, f := hp, false, false, map[];
      RoundingFits(View(), size);
      LimitIs(View());
      if limit < AlignUp(hp + size) {
        f := Collect();
        collected := true;
        RoundingFits(View(), size);
        LimitIs(View());
        if !(size <= limit - hp) {
          return;
        }
        addr := hp;
      }
      ghost var m := mem;
      AllocateKeeps(View(), kind, size, n);
      mem := mem[addr := Blank(kind, size, n)];
      objs := objs + [addr];
      hp := AlignUp(addr + size);
      ok := true;
    }
  }
}
