/**
  Racing evacuators: copy_space_forward_atomic and copy_space_forward_if_traced_atomic of
  src/copy-space.h over the tag-word protocol of benchmarks/simple-gc-embedder.h.

  Any number of threads forward any number of edges to any number of from-space objects.
  Every atomic load, store and compare-and-swap on a tag word is one step, and so are the
  allocation, the copy, the store of the copy's tag and the edge update.  Word 0 of an
  object is its tag: odd while the object is live, 0 while an evacuator is busy, and
  afterwards the address of the copy, which is even.
*/
module TagWordForwarding {

  type Addr = nat
  type Words = seq<nat>

  const Busy: nat := 0

  /** One call: the edge, the object it referred to, and which of the two functions. */
  datatype Call = Call(edge: nat, ref: Addr, ifTraced: bool)

  datatype Result = Evacuated | Updated | Failed | NotTraced

  datatype Pc =
    | Idle
    | Acquire(c: Call, data: nat)
    | Allocate(c: Call, data: nat)
    | Copy(c: Call, data: nat, to: Addr)
    | PutTag(c: Call, data: nat, to: Addr)
    | Commit(c: Call, data: nat, to: Addr)
    | Abort(c: Call, data: nat)
    | RetryBusy(c: Call)
    | UpdateEdge(c: Call, to: Addr, res: Result)
    | Crashed

  datatype State = State(
    orig: map<Addr, Words>,      // from-space as it was
    mem: map<Addr, Words>,       // from-space and to-space as they are
    edges0: map<nat, Addr>, edges: map<nat, Addr>,
    pcs: map<nat, Pc>,
    // history
    holder: map<Addr, nat>,      // the last thread to acquire each object
    source: map<Addr, Addr>,     // what each to-space allocation was made for
    evacuations: multiset<Addr>, // objects for which a call has returned Evacuated
    log: set<(Call, Result)>)

  datatype Choice =
    | Go
    | Start(edge: nat, ifTraced: bool)
    | Fresh(to: Addr, contents: Words)
    | OutOfMemory

  function PcOf(s: State, t: nat): Pc {
    if t in s.pcs then s.pcs[t] else Idle
  }

  function At(s: State, t: nat, pc: Pc): State {
    s.(pcs := s.pcs[t := pc])
  }

  function Tag(s: State, a: Addr): nat {
    if a in s.mem && s.mem[a] != [] then s.mem[a][0] else Busy
  }

  function SetTag(s: State, a: Addr, tag: nat): State {
    if a in s.mem && s.mem[a] != [] then s.(mem := s.mem[a := [tag] + s.mem[a][1..]]) else s
  }

  predicate Unforwarded(tag: nat) {
    tag % 2 == 1
  }

  predicate Forwarded(tag: nat) {
    tag != Busy && !Unforwarded(tag)
  }

  function Finish(s: State, t: nat, c: Call, res: Result): State {
    At(s, t, Idle).(log := s.log + {(c, res)})
  }

  // ---------- Steps ----------

  /** Where a call goes once it has read `tag`: gc_atomic_forward_begin, _retry_busy. */
  function Dispatch(c: Call, tag: nat): Pc {
    if tag == Busy then RetryBusy(c)
    else if Unforwarded(tag) then Acquire(c, tag)
    else UpdateEdge(c, tag, Updated)
  }

  function ReadTagStep(s: State, t: nat, c: Call): State {
    var tag := Tag(s, c.ref);
    if c.ifTraced && Unforwarded(tag) then Finish(s, t, c, NotTraced) else At(s, t, Dispatch(c, tag))
  }

  function Acquired(s: State, t: nat, c: Call, data: nat): State {
    At(SetTag(s, c.ref, Busy), t, Allocate(c, data)).(holder := s.holder[c.ref := t])
  }

  /** gc_atomic_forward_acquire; its last branch asserts that the tag is a forwarding address. */
  function AcquireStep(s: State, t: nat, c: Call, data: nat): State {
    var tag := Tag(s, c.ref);
    if tag == data then Acquired(s, t, c, data)
    else if tag == Busy then At(s, t, RetryBusy(c))
    else if Unforwarded(tag) then At(s, t, Crashed)
    else At(s, t, UpdateEdge(c, tag, Updated))
  }

  /** copy_space_allocate: new memory somewhere, holding anything, or none. */
  function AllocateStep(s: State, t: nat, c: Call, data: nat, ch: Choice): State {
    match ch
    case OutOfMemory => At(s, t, Abort(c, data))
    case Fresh(to, contents) =>
      if to !in s.mem && to != 0 && to % 2 == 0 && c.ref in s.mem && |contents| == |s.mem[c.ref]| then
        At(s, t, Copy(c, data, to)).(mem := s.mem[to := contents], source := s.source[to := c.ref])
      else s
    case _ => s
  }

  function CopyStep(s: State, t: nat, c: Call, data: nat, to: Addr): State {
    At(s, t, PutTag(c, data, to))
      .(mem := if c.ref in s.mem then s.mem[to := s.mem[c.ref]] else s.mem)
  }

  function UpdateEdgeStep(s: State, t: nat, c: Call, to: Addr, res: Result): State {
    Finish(s, t, c, res)
      .(edges := s.edges[c.edge := to],
        evacuations := if res.Evacuated? then s.evacuations + multiset{c.ref} else s.evacuations)
  }

  function StartStep(s: State, t: nat, edge: nat, ifTraced: bool): State {
    if edge in s.edges && s.edges[edge] in s.orig then ReadTagStep(s, t, Call(edge, s.edges[edge], ifTraced)) else s
  }

  function Step(s: State, t: nat, ch: Choice): State {
    match PcOf(s, t)
    case Idle => if ch.Start? then StartStep(s, t, ch.edge, ch.ifTraced) else s
    case Acquire(c, data) => AcquireStep(s, t, c, data)
    case Allocate(c, data) => AllocateStep(s, t, c, data, ch)
    case Copy(c, data, to) => CopyStep(s, t, c, data, to)
    case PutTag(c, data, to) => At(SetTag(s, to, data), t, Commit(c, data, to))
    case Commit(c, data, to) => At(SetTag(s, c.ref, to), t, UpdateEdge(c, to, Evacuated))
    case Abort(c, data) => Finish(SetTag(s, c.ref, data), t, c, Failed)
    case RetryBusy(c) => if Tag(s, c.ref) == Busy then s else ReadTagStep(s, t, c)
    case UpdateEdge(c, to, res) => UpdateEdgeStep(s, t, c, to, res)
    case Crashed => s
  }

  ghost predicate Init(s: State) {
    && s.mem == s.orig && s.edges == s.edges0 && s.pcs == map[]
    && s.source == map[] && s.evacuations == multiset{} && s.log == {}
    && (forall a :: a in s.orig ==> a != 0 && a % 2 == 0 && s.orig[a] != [] && Unforwarded(s.orig[a][0]))
  }

  // ---------- Invariant ----------

  /** Thread is between acquiring `r` and releasing it. */
  predicate Busying(pc: Pc, r: Addr) {
    match pc
    case Allocate(c, _) => c.ref == r
    case Copy(c, _, _) => c.ref == r
    case PutTag(c, _, _) => c.ref == r
    case Commit(c, _, _) => c.ref == r
    case Abort(c, _) => c.ref == r
    case _ => false
  }

  /** Thread has forwarded `r` and not yet reported it. */
  predicate Reporting(pc: Pc, r: Addr) {
    pc.UpdateEdge? && pc.res.Evacuated? && pc.c.ref == r
  }

  /** `a` is a finished copy of `r`: every word of it, the tag included. */
  ghost predicate CopyOf(s: State, a: Addr, r: Addr) {
    && a in s.mem && a !in s.orig && a in s.source && s.source[a] == r && r in s.orig && s.mem[a] == s.orig[r]
  }

  ghost predicate HolderIs(s: State, r: Addr, t: nat) {
    r in s.holder && s.holder[r] == t
  }

  ghost predicate ObjInv(s: State, r: Addr) {
    r in s.orig ==>
      && r != 0 && r % 2 == 0 && s.orig[r] != [] && Unforwarded(s.orig[r][0])
      && r in s.mem && |s.mem[r]| == |s.orig[r]| && s.mem[r][1..] == s.orig[r][1..]
      && (Unforwarded(Tag(s, r)) ==> Tag(s, r) == s.orig[r][0])
      && (Tag(s, r) == Busy ==> r in s.holder && Busying(PcOf(s, s.holder[r]), r))
      && (Forwarded(Tag(s, r)) ==> r in s.holder && CopyOf(s, Tag(s, r), r))
      && s.evacuations[r] ==
           (if Forwarded(Tag(s, r)) && r in s.holder && !Reporting(PcOf(s, s.holder[r]), r) then 1 else 0)
  }

  ghost predicate CallOk(s: State, c: Call) {
    c.ref in s.orig && c.edge in s.edges0 && s.edges0[c.edge] == c.ref
  }

  ghost predicate TargetOk(s: State, c: Call, to: Addr) {
    && to in s.mem && to !in s.orig && to != 0 && to % 2 == 0
    && to in s.source && s.source[to] == c.ref && c.ref in s.orig && |s.mem[to]| == |s.orig[c.ref]|
  }

  function OrigTag(s: State, r: Addr): nat {
    if r in s.orig && s.orig[r] != [] then s.orig[r][0] else Busy
  }

  ghost predicate AcquiredOk(s: State, t: nat, c: Call, data: nat) {
    CallOk(s, c) && !c.ifTraced && data == OrigTag(s, c.ref) && Tag(s, c.ref) == Busy && HolderIs(s, c.ref, t)
  }

  ghost predicate PcInv(s: State, t: nat, pc: Pc) {
    match pc
    case Idle => true
    case Acquire(c, data) => CallOk(s, c) && !c.ifTraced && data == OrigTag(s, c.ref)
    case Allocate(c, data) => AcquiredOk(s, t, c, data)
    case Copy(c, data, to) => AcquiredOk(s, t, c, data) && TargetOk(s, c, to)
    case PutTag(c, data, to) =>
      AcquiredOk(s, t, c, data) && TargetOk(s, c, to) && s.mem[to] != [] && s.mem[to][1..] == s.orig[c.ref][1..]
    case Commit(c, data, to) => AcquiredOk(s, t, c, data) && TargetOk(s, c, to) && CopyOf(s, to, c.ref)
    case Abort(c, data) => AcquiredOk(s, t, c, data)
    case RetryBusy(c) => CallOk(s, c)
    case UpdateEdge(c, to, res) =>
      && CallOk(s, c) && Forwarded(to) && Tag(s, c.ref) == to
      && (res.Evacuated? ==> HolderIs(s, c.ref, t) && !c.ifTraced) && (res.Evacuated? || res.Updated?)
    case Crashed => false
  }

  ghost predicate EdgeInv(s: State, e: nat) {
    && (e in s.edges <==> e in s.edges0)
    && (e in s.edges && s.edges[e] != s.edges0[e] ==>
          s.edges0[e] in s.orig && Forwarded(Tag(s, s.edges0[e])) && s.edges[e] == Tag(s, s.edges0[e]))
  }

  ghost predicate LogInv(s: State, c: Call, res: Result) {
    (c, res) in s.log ==>
      && CallOk(s, c) && (c.ifTraced ==> res.Updated? || res.NotTraced?)
      && (res.Evacuated? || res.Updated? ==>
            c.edge in s.edges && Forwarded(Tag(s, c.ref)) && s.edges[c.edge] == Tag(s, c.ref))
  }

  ghost predicate MemInv(s: State) {
    forall a :: (a in s.mem <==> a in s.orig || a in s.source) && !(a in s.orig && a in s.source)
  }

  ghost predicate Inv(s: State) {
    && (forall r :: ObjInv(s, r))
    && (forall t :: PcInv(s, t, PcOf(s, t)))
    && (forall e :: EdgeInv(s, e))
    && (forall c, res :: LogInv(s, c, res))
    && MemInv(s)
  }

  lemma InitInv(s: State)
    requires Init(s)
    ensures Inv(s)
  {
  }

  // ---------- What a step on object `r` leaves alone ----------

  ghost predicate FrameMem(s: State, s': State, r: Addr) {
    && (forall a :: a in s.mem ==> a in s'.mem)
    && (forall a :: a in s.mem && a != r && !(a in s.source && s.source[a] == r) ==> s'.mem[a] == s.mem[a])
    && (forall a :: a in s.source ==> a in s'.source && s'.source[a] == s.source[a])
  }

  ghost predicate Frame(s: State, s': State, t: nat, r: Addr) {
    && s'.orig == s.orig && s'.edges0 == s.edges0
    && (forall u :: u != t ==> PcOf(s', u) == PcOf(s, u))
    && FrameMem(s, s', r)
    && (forall x :: x in s.holder && x != r ==> HolderIs(s', x, s.holder[x]))
    && (forall x :: x in s'.holder && x != r ==> x in s.holder)
    && (forall x :: x != r ==> s'.evacuations[x] == s.evacuations[x])
    && (s'.evacuations[r] >= s.evacuations[r])
  }

  /** The tag word goes live, busy, forwarded, or back; a forwarded object is left alone for good,
      and a busy one is touched only by its holder. */
  ghost predicate TagEvolves(s: State, s': State, t: nat, r: Addr) {
    var tag, tag' := Tag(s, r), Tag(s', r);
    && (Unforwarded(tag) ==> tag' == tag || (tag' == Busy && HolderIs(s', r, t)))
    && (tag == Busy && !HolderIs(s, r, t) ==>
          tag' == tag && forall a :: a in s.mem ==> a in s'.mem && s'.mem[a] == s.mem[a])
    && (tag == Busy ==> (r in s.holder ==> HolderIs(s', r, s.holder[r])))
    && (Forwarded(tag) ==> tag' == tag && (r in s.holder ==> HolderIs(s', r, s.holder[r])))
  }

  ghost predicate OnOrIdle(pc: Pc, r: Addr) {
    pc.Idle? || (!pc.Crashed? && pc.c.ref == r)
  }

  lemma OtherObject(s: State, s': State, t: nat, r: Addr, x: Addr)
    requires ObjInv(s, x) && Frame(s, s', t, r) && x != r && r in s.orig && MemInv(s)
    requires OnOrIdle(PcOf(s, t), r) && OnOrIdle(PcOf(s', t), r)
    ensures ObjInv(s', x)
  {
  }

  lemma OtherThread(s: State, s': State, t: nat, r: Addr, u: nat)
    requires PcInv(s, u, PcOf(s, u)) && Frame(s, s', t, r) && TagEvolves(s, s', t, r) && MemInv(s) && u != t
    requires r in s.orig && r in s.mem
    requires forall x :: ObjInv(s, x)
    ensures PcInv(s', u, PcOf(s', u))
  {
    hide ObjInv;
    match PcOf(s, u)
    case Idle =>
    case Acquire(c, _) =>
    case RetryBusy(c) =>
    case UpdateEdge(c, _, _) => TagKept(s, s', t, r, c.ref);
    case Allocate(c, _) => AcquiredKept(s, s', t, r, u, c);
    case Copy(c, _, to) => AcquiredKept(s, s', t, r, u, c); TargetKept(s, s', t, r, u, c, to);
    case PutTag(c, _, to) => AcquiredKept(s, s', t, r, u, c); TargetKept(s, s', t, r, u, c, to);
    case Commit(c, _, to) => AcquiredKept(s, s', t, r, u, c); TargetKept(s, s', t, r, u, c, to);
    case Abort(c, _) => AcquiredKept(s, s', t, r, u, c);
  }

  lemma TagKept(s: State, s': State, t: nat, r: Addr, x: Addr)
    requires Frame(s, s', t, r) && TagEvolves(s, s', t, r) && MemInv(s) && r in s.orig && x in s.orig && ObjInv(s, x)
    requires Forwarded(Tag(s, x))
    ensures Tag(s', x) == Tag(s, x) && (x in s.holder ==> HolderIs(s', x, s.holder[x]))
  {
  }

  lemma AcquiredKept(s: State, s': State, t: nat, r: Addr, u: nat, c: Call)
    requires Frame(s, s', t, r) && TagEvolves(s, s', t, r) && MemInv(s) && r in s.orig && r in s.mem && u != t
    requires AcquiredOk(s, u, c, OrigTag(s, c.ref)) && ObjInv(s, c.ref)
    ensures AcquiredOk(s', u, c, OrigTag(s, c.ref))
  {
  }

  lemma TargetKept(s: State, s': State, t: nat, r: Addr, u: nat, c: Call, to: Addr)
    requires Frame(s, s', t, r) && TagEvolves(s, s', t, r) && MemInv(s) && r in s.orig && u != t
    requires AcquiredOk(s, u, c, OrigTag(s, c.ref)) && TargetOk(s, c, to) && ObjInv(s, c.ref)
    ensures TargetOk(s', c, to) && s'.mem[to] == s.mem[to]
  {
  }

  /** What a step says about its own object, its own thread, its edge and its result. */
  ghost predicate OwnPart(s: State, s': State, t: nat, r: Addr) {
    && r in s.orig && Frame(s, s', t, r) && TagEvolves(s, s', t, r)
    && OnOrIdle(PcOf(s, t), r) && OnOrIdle(PcOf(s', t), r)
    && ObjInv(s', r) && PcInv(s', t, PcOf(s', t)) && MemInv(s')
    && (forall e :: EdgeMoves(s, s', r, e))
    && (forall c, res :: (c, res) in s'.log ==> (c, res) in s.log || LogInv(s', c, res))
  }

  ghost predicate EdgeMoves(s: State, s': State, r: Addr, e: nat) {
    && (e in s.edges <==> e in s'.edges)
    && (e in s.edges && s'.edges[e] != s.edges[e] ==>
          e in s.edges0 && s.edges0[e] == r && Forwarded(Tag(s', r)) && s'.edges[e] == Tag(s', r))
  }

  lemma EdgeKept(s: State, s': State, t: nat, r: Addr, e: nat)
    requires EdgeInv(s, e) && EdgeMoves(s, s', r, e)
    requires Frame(s, s', t, r) && TagEvolves(s, s', t, r) && MemInv(s) && r in s.orig
    requires forall x :: ObjInv(s, x)
    ensures EdgeInv(s', e)
  {
    hide ObjInv, Frame, TagEvolves;
    assert s'.orig == s.orig && s'.edges0 == s.edges0 by { FrameConsts(s, s', t, r); }
    if e in s.edges && s'.edges[e] == s.edges[e] != s.edges0[e] {
      TagKept(s, s', t, r, s.edges0[e]);
    }
  }

  lemma FrameConsts(s: State, s': State, t: nat, r: Addr)
    requires Frame(s, s', t, r)
    ensures s'.orig == s.orig && s'.edges0 == s.edges0
  {
  }

  lemma LogKept(s: State, s': State, t: nat, r: Addr, c: Call, res: Result)
    requires LogInv(s, c, res) && (c, res) in s.log && EdgeMoves(s, s', r, c.edge)
    requires Frame(s, s', t, r) && TagEvolves(s, s', t, r) && MemInv(s) && r in s.orig
    requires forall x :: ObjInv(s, x)
    ensures LogInv(s', c, res)
  {
    hide ObjInv, Frame, TagEvolves;
    FrameConsts(s, s', t, r);
    if res.Evacuated? || res.Updated? {
      TagKept(s, s', t, r, c.ref);
    }
  }

  lemma StepKeeps(s: State, s': State, t: nat, r: Addr)
    requires Inv(s) && OwnPart(s, s', t, r)
    ensures Inv(s')
  {
    hide ObjInv, PcInv, EdgeInv, EdgeMoves, LogInv, MemInv, Frame, TagEvolves;
    assert r in s.mem by { assert ObjInv(s, r); ObjInMem(s, r); }
    forall x ensures ObjInv(s', x) {
      assert ObjInv(s, x);
      if x != r { OtherObject(s, s', t, r, x); }
    }
    forall u ensures PcInv(s', u, PcOf(s', u)) {
      assert PcInv(s, u, PcOf(s, u));
      if u != t { OtherThread(s, s', t, r, u); }
    }
    forall e ensures EdgeInv(s', e) {
      assert EdgeInv(s, e) && EdgeMoves(s, s', r, e);
      EdgeKept(s, s', t, r, e);
    }
    forall c, res ensures LogInv(s', c, res) {
      if (c, res) in s'.log && (c, res) in s.log {
        assert LogInv(s, c, res) && EdgeMoves(s, s', r, c.edge);
        LogKept(s, s', t, r, c, res);
      } else if (c, res) !in s'.log {
        NotLogged(s', c, res);
      }
    }
  }

  lemma ObjInMem(s: State, r: Addr)
    requires ObjInv(s, r) && r in s.orig
    ensures r in s.mem
  {
  }

  lemma NotLogged(s: State, c: Call, res: Result)
    requires (c, res) !in s.log
    ensures LogInv(s, c, res)
  {
  }

  // ---------- The steps ----------

  /** The parts of the invariant that one step of `t` on object `r` may rely on. */
  ghost predicate Before(s: State, t: nat, r: Addr) {
    && r in s.orig && ObjInv(s, r) && PcInv(s, t, PcOf(s, t)) && MemInv(s)
    && (forall e :: EdgeInv(s, e)) && OnOrIdle(PcOf(s, t), r)
  }

  lemma ReadTagOwn(s: State, t: nat, c: Call)
    requires Before(s, t, c.ref) && CallOk(s, c) && (PcOf(s, t).Idle? || PcOf(s, t) == RetryBusy(c))
    ensures OwnPart(s, ReadTagStep(s, t, c), t, c.ref)
  {
    hide OwnPart, Before, At, Finish;
    if c.ifTraced && Unforwarded(Tag(s, c.ref)) {
      NotTracedOwn(s, t, c);
    } else {
      ObjOfBefore(s, t, c.ref);
      DispatchOk(s, t, c);
      MoveOwn(s, t, c, Dispatch(c, Tag(s, c.ref)));
    }
  }

  lemma ObjOfBefore(s: State, t: nat, r: Addr)
    requires Before(s, t, r)
    ensures ObjInv(s, r) && PcInv(s, t, PcOf(s, t))
  {
  }

  lemma DispatchOk(s: State, t: nat, c: Call)
    requires ObjInv(s, c.ref) && CallOk(s, c) && !(c.ifTraced && Unforwarded(Tag(s, c.ref)))
    ensures PcInv(s, t, Dispatch(c, Tag(s, c.ref)))
  {
  }

  lemma NotTracedOwn(s: State, t: nat, c: Call)
    requires Before(s, t, c.ref) && CallOk(s, c) && (PcOf(s, t).Idle? || PcOf(s, t) == RetryBusy(c)) && c.ifTraced
    ensures OwnPart(s, Finish(s, t, c, NotTraced), t, c.ref)
  {
  }

  lemma MoveOwn(s: State, t: nat, c: Call, pc: Pc)
    requires Before(s, t, c.ref) && !Busying(PcOf(s, t), c.ref) && !Reporting(PcOf(s, t), c.ref)
    requires PcInv(s, t, pc) && OnOrIdle(pc, c.ref) && !Reporting(pc, c.ref)
    ensures OwnPart(s, At(s, t, pc), t, c.ref)
  {
  }

  lemma AcquireOwn(s: State, t: nat, c: Call, data: nat)
    requires Before(s, t, c.ref) && PcOf(s, t) == Acquire(c, data)
    ensures OwnPart(s, AcquireStep(s, t, c, data), t, c.ref)
  {
    hide OwnPart, Before, At, PcInv, ObjInv;
    ObjOfBefore(s, t, c.ref);
    var tag := Tag(s, c.ref);
    LiveTag(s, t, c, data);
    if tag == data {
      AcquiredOwn(s, t, c, data);
    } else if tag == Busy {
      MoveOwn(s, t, c, RetryBusy(c));
    } else {
      MoveOwn(s, t, c, UpdateEdge(c, tag, Updated));
    }
  }

  /** The compare-and-swap can fail only because the object is busy or forwarded. */
  lemma LiveTag(s: State, t: nat, c: Call, data: nat)
    requires ObjInv(s, c.ref) && PcInv(s, t, Acquire(c, data))
    ensures CallOk(s, c) && (Unforwarded(Tag(s, c.ref)) ==> Tag(s, c.ref) == data)
    ensures PcInv(s, t, RetryBusy(c))
    ensures Forwarded(Tag(s, c.ref)) ==> PcInv(s, t, UpdateEdge(c, Tag(s, c.ref), Updated))
  {
  }

  lemma AcquiredOwn(s: State, t: nat, c: Call, data: nat)
    requires Before(s, t, c.ref) && PcOf(s, t) == Acquire(c, data) && Tag(s, c.ref) == data
    ensures OwnPart(s, Acquired(s, t, c, data), t, c.ref)
  {
    hide Frame, TagEvolves, ObjInv;
    AcquiredFrame(s, t, c, data);
    AcquiredObj(s, t, c, data);
  }

  lemma AcquiredFrame(s: State, t: nat, c: Call, data: nat)
    requires Before(s, t, c.ref) && PcOf(s, t) == Acquire(c, data) && Tag(s, c.ref) == data
    ensures Frame(s, Acquired(s, t, c, data), t, c.ref) && TagEvolves(s, Acquired(s, t, c, data), t, c.ref)
  {
  }

  lemma AcquiredObj(s: State, t: nat, c: Call, data: nat)
    requires Before(s, t, c.ref) && PcOf(s, t) == Acquire(c, data) && Tag(s, c.ref) == data
    ensures var s' := Acquired(s, t, c, data); ObjInv(s', c.ref) && PcInv(s', t, Allocate(c, data))
  {
  }

  lemma AllocateOwn(s: State, t: nat, c: Call, data: nat, ch: Choice)
    requires Before(s, t, c.ref) && PcOf(s, t) == Allocate(c, data)
    ensures OwnPart(s, AllocateStep(s, t, c, data, ch), t, c.ref)
  {
  }

  lemma CopyOwn(s: State, t: nat, c: Call, data: nat, to: Addr)
    requires Before(s, t, c.ref) && PcOf(s, t) == Copy(c, data, to)
    ensures OwnPart(s, CopyStep(s, t, c, data, to), t, c.ref)
  {
  }

  lemma PutTagOwn(s: State, t: nat, c: Call, data: nat, to: Addr)
    requires Before(s, t, c.ref) && PcOf(s, t) == PutTag(c, data, to)
    ensures OwnPart(s, At(SetTag(s, to, data), t, Commit(c, data, to)), t, c.ref)
  {
  }

  lemma CommitOwn(s: State, t: nat, c: Call, data: nat, to: Addr)
    requires Before(s, t, c.ref) && PcOf(s, t) == Commit(c, data, to)
    ensures OwnPart(s, At(SetTag(s, c.ref, to), t, UpdateEdge(c, to, Evacuated)), t, c.ref)
  {
  }

  lemma AbortOwn(s: State, t: nat, c: Call, data: nat)
    requires Before(s, t, c.ref) && PcOf(s, t) == Abort(c, data)
    ensures OwnPart(s, Finish(SetTag(s, c.ref, data), t, c, Failed), t, c.ref)
  {
  }

  lemma UpdateEdgeOwn(s: State, t: nat, c: Call, to: Addr, res: Result)
    requires Before(s, t, c.ref) && PcOf(s, t) == UpdateEdge(c, to, res)
    ensures OwnPart(s, UpdateEdgeStep(s, t, c, to, res), t, c.ref)
  {
    assert EdgeInv(s, c.edge);
  }

  /** Every step either changes nothing or is a step on one object. */
  lemma StepOn(s: State, t: nat, ch: Choice) returns (r: Addr)
    requires Inv(s)
    ensures Step(s, t, ch) == s || OwnPart(s, Step(s, t, ch), t, r)
  {
    hide Before, OwnPart, At, SetTag, Finish, ReadTagStep, AcquireStep, AllocateStep, CopyStep, UpdateEdgeStep;
    var pc := PcOf(s, t);
    assert PcInv(s, t, pc);
    r := 0;
    if pc.Idle? {
      if ch.Start? && ch.edge in s.edges && s.edges[ch.edge] in s.orig {
        var c := Call(ch.edge, s.edges[ch.edge], ch.ifTraced);
        r := c.ref;
        StartOk(s, ch.edge);
        BeforeStep(s, t, r);
        ReadTagOwn(s, t, c);
      }
    } else if !pc.RetryBusy? || Tag(s, pc.c.ref) != Busy {
      r := pc.c.ref;
      BeforeStep(s, t, r);
      OwnStep(s, t, ch);
    }
  }

  lemma StepInv(s: State, t: nat, ch: Choice)
    requires Inv(s)
    ensures Inv(Step(s, t, ch))
  {
    hide OwnPart, Step;
    var r := StepOn(s, t, ch);
    if Step(s, t, ch) != s { StepKeeps(s, Step(s, t, ch), t, r); }
  }

  /** An edge that still leads into from-space has not been updated yet. */
  lemma StartOk(s: State, e: nat)
    requires Inv(s) && e in s.edges && s.edges[e] in s.orig
    ensures e in s.edges0 && s.edges0[e] == s.edges[e]
  {
    assert EdgeInv(s, e) && ObjInv(s, s.edges0[e]);
  }

  lemma BeforeStep(s: State, t: nat, r: Addr)
    requires Inv(s) && r in s.orig && OnOrIdle(PcOf(s, t), r)
    ensures Before(s, t, r)
  {
    assert ObjInv(s, r) && PcInv(s, t, PcOf(s, t));
  }

  lemma OwnStep(s: State, t: nat, ch: Choice)
    requires var pc := PcOf(s, t); !pc.Idle? && !pc.Crashed? && Before(s, t, pc.c.ref) && PcInv(s, t, pc)
    requires PcOf(s, t).RetryBusy? ==> Tag(s, PcOf(s, t).c.ref) != Busy
    ensures OwnPart(s, Step(s, t, ch), t, PcOf(s, t).c.ref)
  {
    hide Before, OwnPart, At, SetTag, Finish, ReadTagStep, AcquireStep, AllocateStep, CopyStep, UpdateEdgeStep;
    match PcOf(s, t)
    case Acquire(c, data) => AcquireOwn(s, t, c, data);
    case Allocate(c, data) => AllocateOwn(s, t, c, data, ch);
    case Copy(c, data, to) => CopyOwn(s, t, c, data, to);
    case PutTag(c, data, to) => PutTagOwn(s, t, c, data, to);
    case Commit(c, data, to) => CommitOwn(s, t, c, data, to);
    case Abort(c, data) => AbortOwn(s, t, c, data);
    case RetryBusy(c) => ReadTagOwn(s, t, c);
    case UpdateEdge(c, to, res) => UpdateEdgeOwn(s, t, c, to, res);
  }

  // ---------- Runs ----------

  ghost predicate Next(s: State, s': State) {
    exists t, ch :: s' == Step(s, t, ch)
  }

  ghost predicate IsRun(run: seq<State>) {
    && run != [] && Init(run[0])
    && forall i :: 0 <= i < |run| - 1 ==> Next(run[i], run[i + 1])
  }

  lemma {:induction false} RunInv(run: seq<State>)
    requires IsRun(run)
    ensures Inv(run[|run| - 1])
  {
    hide Inv, Init, Step;
    if |run| == 1 {
      InitInv(run[0]);
    } else {
      var front := run[..|run| - 1];
      assert IsRun(front) by {
        forall i | 0 <= i < |front| - 1 ensures Next(front[i], front[i + 1]) { assert Next(run[i], run[i + 1]); }
      }
      RunInv(front);
      assert Next(run[|run| - 2], run[|run| - 1]);
      var t, ch :| run[|run| - 1] == Step(run[|run| - 2], t, ch);
      StepInv(run[|run| - 2], t, ch);
    }
  }

  // ---------- Main results ----------

  /** A call has returned Evacuated, or is about to, for exactly the forwarded objects, and
      never twice; the copy is word for word the original, tag included. */
  lemma EvacuatedOnce(run: seq<State>, s: State, r: Addr)
    requires IsRun(run) && s == run[|run| - 1] && r in s.orig
    ensures s.evacuations[r] <= 1
    ensures Forwarded(Tag(s, r)) <==> s.evacuations[r] == 1 || exists t :: Reporting(PcOf(s, t), r)
    ensures Forwarded(Tag(s, r)) ==> CopyOf(s, Tag(s, r), r)
    ensures forall t, u :: Reporting(PcOf(s, t), r) && Reporting(PcOf(s, u), r) ==> t == u
  {
    hide Init;
    RunInv(run);
    assert ObjInv(s, r);
    forall t | Reporting(PcOf(s, t), r)
      ensures Forwarded(Tag(s, r)) && HolderIs(s, r, t)
    {
      assert PcInv(s, t, PcOf(s, t));
    }
    if Forwarded(Tag(s, r)) && s.evacuations[r] == 0 { assert Reporting(PcOf(s, s.holder[r]), r); }
  }

  /** Two objects never share a copy. */
  lemma CopiesDistinct(run: seq<State>, s: State, q: Addr, r: Addr)
    requires IsRun(run) && s == run[|run| - 1] && q in s.orig && r in s.orig
    requires Forwarded(Tag(s, q)) && Tag(s, q) == Tag(s, r)
    ensures q == r
  {
    hide Init;
    RunInv(run);
    assert ObjInv(s, q) && ObjInv(s, r);
  }

  /** Every call that returned having forwarded its edge left it at the one new address, and no
      edge ever holds anything but the old object or that address. */
  lemma EdgesForwarded(run: seq<State>, s: State, c: Call, res: Result)
    requires IsRun(run) && s == run[|run| - 1] && (c, res) in s.log
    ensures c.edge in s.edges && c.ref in s.orig
    ensures res.Evacuated? || res.Updated? ==> Forwarded(Tag(s, c.ref)) && s.edges[c.edge] == Tag(s, c.ref)
    ensures s.edges[c.edge] != c.ref ==> Forwarded(Tag(s, c.ref)) && s.edges[c.edge] == Tag(s, c.ref)
  {
    hide Init;
    RunInv(run);
    assert LogInv(s, c, res) && EdgeInv(s, c.edge);
  }

  /** The assertion in gc_atomic_forward_acquire and the crashes in the switch are never reached. */
  lemma NeverCrashes(run: seq<State>, s: State, t: nat)
    requires IsRun(run) && s == run[|run| - 1]
    ensures !PcOf(s, t).Crashed?
  {
    hide Init;
    RunInv(run);
    assert PcInv(s, t, PcOf(s, t));
  }

  /** Each step moves a tag word along live, busy, forwarded, or from busy back to the very
      value it had; only the thread that made it busy moves it on. */
  lemma TagTransitions(run: seq<State>, s: State, t: nat, ch: Choice, r: Addr)
    requires IsRun(run) && s == run[|run| - 1] && r in s.orig
    ensures var tag, tag' := Tag(s, r), Tag(Step(s, t, ch), r);
      tag' == tag || (Unforwarded(tag) && tag' == Busy) ||
      (tag == Busy && Busying(PcOf(s, t), r) && (tag' == OrigTag(s, r) || Forwarded(tag')))
  {
    hide Init, Step;
    RunInv(run);
    var x := StepOn(s, t, ch);
    if Step(s, t, ch) != s { TagMoves(s, Step(s, t, ch), t, x, r); }
  }

  lemma TagMoves(s: State, s': State, t: nat, x: Addr, r: Addr)
    requires Inv(s) && OwnPart(s, s', t, x) && r in s.orig
    ensures var tag, tag' := Tag(s, r), Tag(s', r);
      tag' == tag || (Unforwarded(tag) && tag' == Busy) ||
      (tag == Busy && Busying(PcOf(s, t), r) && (tag' == OrigTag(s, r) || Forwarded(tag')))
  {
    assert ObjInv(s, r);
  }

  /** What a result says about the moment at which it was decided: an object is reported untraced only when
      its tag is that of a live object, by the call that asks no more than that, and with nothing changed;
      forwarding fails only by the thread that made the object busy, which gives it back its tag; and
      the other two results come with the update of the edge. */
  lemma ResultsMean(run: seq<State>, s: State, t: nat, ch: Choice, c: Call, res: Result)
    requires IsRun(run) && s == run[|run| - 1]
    requires (c, res) in Step(s, t, ch).log && (c, res) !in s.log
    ensures var s' := Step(s, t, ch);
      && c.ref in s.orig
      && (res.NotTraced? ==> c.ifTraced && Unforwarded(Tag(s, c.ref)) && s'.mem == s.mem && s'.edges == s.edges)
      && (res.Failed? ==>
            && PcOf(s, t).Abort? && PcOf(s, t).c == c && !c.ifTraced && Tag(s, c.ref) == Busy && HolderIs(s, c.ref, t)
            && Tag(s', c.ref) == OrigTag(s, c.ref) && s'.edges == s.edges)
      && (res.Evacuated? || res.Updated? ==>
            Forwarded(Tag(s, c.ref)) && s'.edges == s.edges[c.edge := Tag(s, c.ref)] && s'.mem == s.mem)
      && s'.evacuations == s.evacuations + if res.Evacuated? then multiset{c.ref} else multiset{}
  {
    hide Init, Inv, ReadTagStep, AcquireStep, AllocateStep, CopyStep, UpdateEdgeStep, At, SetTag, Finish;
    RunInv(run);
    RefOk(s, t);
    match PcOf(s, t)
    case Idle =>
      if ch.Start? && ch.edge in s.edges && s.edges[ch.edge] in s.orig {
        ReadTagSays(s, t, Call(ch.edge, s.edges[ch.edge], ch.ifTraced));
      }
    case RetryBusy(d) => ReadTagSays(s, t, d);
    case Abort(d, data) =>
      GivesBack(s, t);
      AbortSays(s, t, d, data);
    case UpdateEdge(d, to, r) => UpdateEdgeSays(s, t, d, to, r);
    case _ => NothingSaid(s, t, ch);
  }

  lemma RefOk(s: State, t: nat)
    requires Inv(s)
    ensures var pc := PcOf(s, t); !pc.Crashed? && (!pc.Idle? ==> pc.c.ref in s.orig)
    ensures PcOf(s, t).UpdateEdge? ==>
      var pc := PcOf(s, t); Tag(s, pc.c.ref) == pc.to && Forwarded(pc.to) && (pc.res.Evacuated? || pc.res.Updated?)
    ensures PcOf(s, t).Abort? ==>
      var c := PcOf(s, t).c; !c.ifTraced && Tag(s, c.ref) == Busy && HolderIs(s, c.ref, t)
  {
    assert PcInv(s, t, PcOf(s, t));
  }

  lemma ReadTagSays(s: State, t: nat, c: Call)
    ensures var s' := ReadTagStep(s, t, c);
      && s'.mem == s.mem && s'.edges == s.edges && s'.evacuations == s.evacuations && !PcOf(s', t).Abort?
      && s'.log == if c.ifTraced && Unforwarded(Tag(s, c.ref)) then s.log + {(c, NotTraced)} else s.log
  {
    hide Tag, At, Finish;
    AtSame(s, t, Dispatch(c, Tag(s, c.ref)));
    FinishSame(s, t, c, NotTraced);
  }

  lemma AtSame(s: State, t: nat, pc: Pc)
    ensures var s' := At(s, t, pc);
      s'.mem == s.mem && s'.edges == s.edges && s'.evacuations == s.evacuations && s'.log == s.log && PcOf(s', t) == pc
  {
  }

  lemma FinishSame(s: State, t: nat, c: Call, res: Result)
    ensures var s' := Finish(s, t, c, res);
      && s'.mem == s.mem && s'.edges == s.edges && s'.evacuations == s.evacuations && s'.log == s.log + {(c, res)}
      && PcOf(s', t).Idle?
  {
  }

  lemma AbortSays(s: State, t: nat, c: Call, data: nat)
    ensures var s' := Finish(SetTag(s, c.ref, data), t, c, Failed);
      && s'.mem == SetTag(s, c.ref, data).mem && s'.edges == s.edges && s'.evacuations == s.evacuations
      && s'.log == s.log + {(c, Failed)}
  {
  }

  lemma UpdateEdgeSays(s: State, t: nat, c: Call, to: Addr, res: Result)
    ensures var s' := UpdateEdgeStep(s, t, c, to, res);
      && s'.mem == s.mem && s'.edges == s.edges[c.edge := to] && s'.log == s.log + {(c, res)}
      && s'.evacuations == s.evacuations + if res.Evacuated? then multiset{c.ref} else multiset{}
  {
  }

  lemma NothingSaid(s: State, t: nat, ch: Choice)
    requires var pc := PcOf(s, t); !pc.Idle? && !pc.RetryBusy? && !pc.Abort? && !pc.UpdateEdge?
    ensures var s' := Step(s, t, ch); s'.log == s.log && (PcOf(s', t).Abort? ==> PcOf(s, t).Allocate? && ch.OutOfMemory?)
  {
    hide At, SetTag, ReadTagStep, UpdateEdgeStep, StartStep;
    match PcOf(s, t)
    case Acquire(c, data) => AcquireSilent(s, t, c, data);
    case Allocate(c, data) => AllocateSilent(s, t, c, data, ch);
    case Copy(c, data, to) => AtSilent(s, t, PutTag(c, data, to));
    case PutTag(c, data, to) => SetTagSilent(s, to, data); AtSilent(SetTag(s, to, data), t, Commit(c, data, to));
    case Commit(c, data, to) => SetTagSilent(s, c.ref, to); AtSilent(SetTag(s, c.ref, to), t, UpdateEdge(c, to, Evacuated));
    case Crashed =>
  }

  lemma AtSilent(s: State, t: nat, pc: Pc)
    ensures At(s, t, pc).log == s.log && At(s, t, pc).pcs == s.pcs[t := pc] && PcOf(At(s, t, pc), t) == pc
  {
  }

  lemma SetTagSilent(s: State, a: Addr, tag: nat)
    ensures SetTag(s, a, tag).log == s.log && SetTag(s, a, tag).pcs == s.pcs
  {
  }

  lemma AcquireSilent(s: State, t: nat, c: Call, data: nat)
    ensures AcquireStep(s, t, c, data).log == s.log && !PcOf(AcquireStep(s, t, c, data), t).Abort?
  {
    hide At, SetTag, Tag;
    var tag := Tag(s, c.ref);
    SetTagSilent(s, c.ref, Busy);
    AtSilent(SetTag(s, c.ref, Busy), t, Allocate(c, data));
    HolderSilent(At(SetTag(s, c.ref, Busy), t, Allocate(c, data)), s.holder[c.ref := t]);
    AtSilent(s, t, RetryBusy(c));
    AtSilent(s, t, Crashed);
    AtSilent(s, t, UpdateEdge(c, tag, Updated));
  }

  lemma HolderSilent(s: State, holder: map<Addr, nat>)
    ensures s.(holder := holder).log == s.log && s.(holder := holder).pcs == s.pcs
  {
  }

  lemma AllocateSilent(s: State, t: nat, c: Call, data: nat, ch: Choice)
    requires PcOf(s, t) == Allocate(c, data)
    ensures AllocateStep(s, t, c, data, ch).log == s.log
    ensures PcOf(AllocateStep(s, t, c, data, ch), t).Abort? ==> ch.OutOfMemory?
  {
  }

  lemma GivesBack(s: State, t: nat)
    requires Inv(s) && PcOf(s, t).Abort?
    ensures var c := PcOf(s, t).c; Tag(SetTag(s, c.ref, PcOf(s, t).data), c.ref) == OrigTag(s, c.ref)
  {
    assert PcInv(s, t, PcOf(s, t)) && ObjInv(s, PcOf(s, t).c.ref);
  }

  /** No call gives up an object that it has acquired unless there is no memory for the copy. */
  lemma OnlyOutOfMemoryFails(run: seq<State>, s: State, t: nat, ch: Choice)
    requires IsRun(run) && s == run[|run| - 1] && PcOf(Step(s, t, ch), t).Abort? && !PcOf(s, t).Abort?
    ensures PcOf(s, t).Allocate? && ch.OutOfMemory?
  {
    hide ReadTagStep, AcquireStep, AllocateStep, CopyStep, UpdateEdgeStep, At, SetTag, Finish;
    match PcOf(s, t)
    case Idle =>
      if ch.Start? && ch.edge in s.edges && s.edges[ch.edge] in s.orig {
        ReadTagSays(s, t, Call(ch.edge, s.edges[ch.edge], ch.ifTraced));
      }
    case RetryBusy(c) => ReadTagSays(s, t, c);
    case UpdateEdge(c, to, r) => UpdateEdgeEnds(s, t, c, to, r);
    case _ => NothingSaid(s, t, ch);
  }

  lemma UpdateEdgeEnds(s: State, t: nat, c: Call, to: Addr, res: Result)
    ensures PcOf(UpdateEdgeStep(s, t, c, to, res), t).Idle?
  {
  }

  // ---------- Progress ----------

  /** How many more steps a call takes at most, as long as it does not find the object busy. */
  ghost function Rest(pc: Pc): nat {
    match pc
    case Idle => 0
    case Crashed => 0
    case UpdateEdge(_, _, _) => 1
    case Abort(_, _) => 1
    case Commit(_, _, _) => 2
    case PutTag(_, _, _) => 3
    case Copy(_, _, _) => 4
    case Allocate(_, _) => 5
    case Acquire(_, _) => 6
    case RetryBusy(_) => 7
  }

  /** Thread `t` is still at call `c`, or has returned from it. */
  ghost predicate Serves(s: State, t: nat, c: Call) {
    match PcOf(s, t)
    case Idle => exists res :: (c, res) in s.log
    case Crashed => false
    case pc => pc.c == c
  }

  /** The allocator's answer: no memory, or new memory as large as the object. */
  ghost predicate Answers(s: State, r: Addr, ch: Choice) {
    || ch.OutOfMemory?
    || (ch.Fresh? && ch.to !in s.mem && ch.to != 0 && ch.to % 2 == 0 && r in s.orig && |ch.contents| == |s.orig[r]|)
  }

  /** No call waits in vain: each step of a thread brings its call nearer to the end, which is at most seven
      steps away, unless another thread has the object busy, and that thread is itself not waiting.  When a
      call ends its result is on record. */
  lemma CallsGoOn(run: seq<State>, s: State, t: nat, ch: Choice)
    requires IsRun(run) && s == run[|run| - 1] && !PcOf(s, t).Idle?
    requires PcOf(s, t).Allocate? ==> Answers(s, PcOf(s, t).c.ref, ch)
    ensures var pc, s' := PcOf(s, t), Step(s, t, ch);
      && !pc.Crashed? && Serves(s', t, pc.c)
      && (|| Rest(PcOf(s', t)) < Rest(pc) <= 7
          || (Tag(s, pc.c.ref) == Busy && pc.c.ref in s.holder && s.holder[pc.c.ref] != t &&
              Busying(PcOf(s, s.holder[pc.c.ref]), pc.c.ref)))
  {
    hide Init, Inv, Step, Serves, Rest, Busying, Answers, Tag, IsRun;
    RunInv(run);
    RefOk(s, t);
    WhoIsBusy(s, t);
    var pc := PcOf(s, t);
    if pc.Allocate? {
      AllocateGoesOn(s, t, ch);
    } else if pc.Acquire? || pc.RetryBusy? {
      ReadsGoOn(s, t, ch);
    } else {
      MovesOn(s, t, ch);
    }
  }

  lemma WhoIsBusy(s: State, t: nat)
    requires Inv(s) && !PcOf(s, t).Idle? && !PcOf(s, t).Crashed?
    ensures var pc := PcOf(s, t); var r := pc.c.ref;
      && (Tag(s, r) == Busy && (pc.Acquire? || pc.RetryBusy?) ==>
            r in s.holder && s.holder[r] != t && Busying(PcOf(s, s.holder[r]), r))
      && (pc.Allocate? ==> r in s.orig && r in s.mem && |s.mem[r]| == |s.orig[r]|)
      && (pc.Acquire? && Tag(s, r) != Busy && Unforwarded(Tag(s, r)) ==> Tag(s, r) == pc.data)
  {
    assert PcInv(s, t, PcOf(s, t)) && ObjInv(s, PcOf(s, t).c.ref);
  }

  lemma AllocateGoesOn(s: State, t: nat, ch: Choice)
    requires PcOf(s, t).Allocate? && Answers(s, PcOf(s, t).c.ref, ch)
    requires var r := PcOf(s, t).c.ref; r in s.orig && r in s.mem && |s.mem[r]| == |s.orig[r]|
    ensures var pc, s' := PcOf(s, t), Step(s, t, ch); Serves(s', t, pc.c) && Rest(PcOf(s', t)) < Rest(pc) <= 7
  {
  }

  lemma ReadsGoOn(s: State, t: nat, ch: Choice)
    requires PcOf(s, t).Acquire? || PcOf(s, t).RetryBusy?
    requires var pc := PcOf(s, t);
      pc.Acquire? && Tag(s, pc.c.ref) != Busy && Unforwarded(Tag(s, pc.c.ref)) ==> Tag(s, pc.c.ref) == pc.data
    ensures var pc, s' := PcOf(s, t), Step(s, t, ch);
      Serves(s', t, pc.c) && (Tag(s, pc.c.ref) == Busy || Rest(PcOf(s', t)) < Rest(pc) <= 7)
  {
    hide Tag, At, AcquireStep, ReadTagStep;
    match PcOf(s, t)
    case Acquire(c, data) => AcquirePoint(s, t, c, data);
    case RetryBusy(c) => ReadTagPoint(s, t, c);
  }

  lemma AcquirePoint(s: State, t: nat, c: Call, data: nat)
    requires Tag(s, c.ref) != Busy && Unforwarded(Tag(s, c.ref)) ==> Tag(s, c.ref) == data
    ensures var s' := AcquireStep(s, t, c, data);
      Serves(s', t, c) && (Tag(s, c.ref) == Busy || Rest(PcOf(s', t)) < 6)
  {
    hide At, SetTag, Tag;
    SetTagSilent(s, c.ref, Busy);
    AtSilent(SetTag(s, c.ref, Busy), t, Allocate(c, data));
    HolderSilent(At(SetTag(s, c.ref, Busy), t, Allocate(c, data)), s.holder[c.ref := t]);
    AtSilent(s, t, RetryBusy(c));
    AtSilent(s, t, UpdateEdge(c, Tag(s, c.ref), Updated));
  }

  lemma ReadTagPoint(s: State, t: nat, c: Call)
    ensures var s' := ReadTagStep(s, t, c);
      Serves(s', t, c) && (Tag(s, c.ref) == Busy || Rest(PcOf(s', t)) < 7)
  {
    hide At, Tag;
    AtSilent(s, t, Dispatch(c, Tag(s, c.ref)));
    FinishPoint(s, t, c, NotTraced);
  }

  lemma FinishPoint(s: State, t: nat, c: Call, res: Result)
    ensures PcOf(Finish(s, t, c, res), t).Idle? && (c, res) in Finish(s, t, c, res).log
  {
  }

  lemma MovesOn(s: State, t: nat, ch: Choice)
    requires var pc := PcOf(s, t);
      pc.Copy? || pc.PutTag? || pc.Commit? || pc.Abort? || pc.UpdateEdge?
    ensures var pc, s' := PcOf(s, t), Step(s, t, ch); Serves(s', t, pc.c) && Rest(PcOf(s', t)) < Rest(pc) <= 7
  {
    hide At, SetTag, Finish, CopyStep, UpdateEdgeStep;
    match PcOf(s, t)
    case Copy(c, data, to) => CopyPoint(s, t, c, data, to);
    case PutTag(c, data, to) => AtSilent(SetTag(s, to, data), t, Commit(c, data, to));
    case Commit(c, data, to) => AtSilent(SetTag(s, c.ref, to), t, UpdateEdge(c, to, Evacuated));
    case Abort(c, data) => FinishPoint(SetTag(s, c.ref, data), t, c, Failed);
    case UpdateEdge(c, to, res) => UpdateEdgePoint(s, t, c, to, res);
  }

  lemma CopyPoint(s: State, t: nat, c: Call, data: nat, to: Addr)
    ensures PcOf(CopyStep(s, t, c, data, to), t) == PutTag(c, data, to)
  {
  }

  lemma UpdateEdgePoint(s: State, t: nat, c: Call, to: Addr, res: Result)
    ensures var s' := UpdateEdgeStep(s, t, c, to, res); PcOf(s', t).Idle? && (c, res) in s'.log
  {
  }

  /** A call begins with the object that its edge leads to. */
  lemma CallsBegin(s: State, t: nat, edge: nat, ifTraced: bool)
    requires PcOf(s, t).Idle? && edge in s.edges && s.edges[edge] in s.orig
    ensures Serves(Step(s, t, Start(edge, ifTraced)), t, Call(edge, s.edges[edge], ifTraced))
  {
    hide ReadTagStep, Serves;
    ReadTagPoint(s, t, Call(edge, s.edges[edge], ifTraced));
  }

  /** When every call has returned, each object is either untouched or has one finished copy. */
  lemma Quiescent(run: seq<State>, s: State, r: Addr)
    requires IsRun(run) && s == run[|run| - 1] && r in s.orig && forall t :: PcOf(s, t).Idle?
    ensures if s.evacuations[r] == 0 then r in s.mem && s.mem[r] == s.orig[r] else CopyOf(s, Tag(s, r), r)
  {
    hide Init;
    RunInv(run);
    assert ObjInv(s, r);
    if s.evacuations[r] == 0 {
      assert Unforwarded(Tag(s, r));
      assert s.mem[r] == [Tag(s, r)] + s.mem[r][1..];
      assert s.orig[r] == [OrigTag(s, r)] + s.orig[r][1..];
    }
  }
}
