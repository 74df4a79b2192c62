/**
  Concurrent ephemeron tracing of src/gc-ephemeron.c, for one collection cycle.

  Any number of tracer threads mark objects, claim ephemerons, publish them to the table
  of pending ephemerons and resolve them.  Every atomic load, store and compare-and-swap
  on an ephemeron's state, on a bucket or on a pending link is one step.  The table is
  kept as the C code keeps it, as chains of links that `follow` swings past dead nodes,
  concurrently with pushes and with other walks.

  The cycle has three phases, as in src/mmc.c: tracing with lazy resolution, a serial scan
  of the whole table with every tracer parked (resolve_ephemerons_eagerly), and tracing
  with eager resolution.  Ephemeron 0 stands for the null pointer.

  This module has the steps and the invariant, and shows that every step keeps the table and the
  claims in order.  EphemeronProgress goes on from there.
*/
module EphemeronTracing {

  datatype EphState = Traced | Claimed | Pending | Resolved

  /** A place that holds a link of a pending chain. */
  datatype Loc = Bucket(b: nat) | Link(e: nat)

  /** Why a chain is being walked: to resolve the ephemerons of a key just marked, or to
      scan a bucket.  `Own` is no walk: a claimer rechecking what it published. */
  datatype Walk = Resolve(k: nat) | Scan(b: nat) | Own

  datatype Phase = Lazy | Scanning | Eager

  datatype Pc =
    | Idle
    // ephemeron_list_follow and the loops around it
    | Load(w: Walk, loc: Loc)
    | Skip(w: Walk, loc: Loc, head: nat, cur: nat)
    | NextOf(w: Walk, loc: Loc, head: nat, cur: nat)
    | Swing(w: Walk, loc: Loc, head: nat, cur: nat)
    | Got(w: Walk, e: nat)
    | VisitKey(w: Walk, e: nat)
    | TryResolve(w: Walk, e: nat)
    | PushResolved(w: Walk, e: nat)
    // gc_trace_ephemeron
    | EpochCheck(e: nat)
    | StoreTraced(e: nat)
    | VisitOwnKey(e: nat)
    | SetPending(e: nat)
    | PushLoad(e: nat)
    | PushLink(e: nat, tail: nat)
    | PushCas(e: nat, tail: nat)
    | Recheck(e: nat)
    // gc_trace_resolved_ephemerons
    | TraceBatch(es: seq<nat>)

  /** Who answers for a resolved ephemeron until its value has been traced. */
  datatype Place = Hand(t: nat) | Stack | Batch(t: nat)

  datatype State = State(
    hash: nat -> nat, nbuckets: nat,   // pending_ephemeron_bucket
    key: nat -> nat,                   // each ephemeron's key, by its address before the cycle
    dead: set<nat>,                    // ephemerons dead before the cycle
    st: map<nat, EphState>,            // absent means Traced
    current: set<nat>,                 // ephemerons whose epoch is the current one
    link: map<nat, nat>, bucket: map<nat, nat>,
    stack: seq<nat>,                   // the resolved set
    marked: set<nat>, moved: set<nat>, // keys marked; keys marked by evacuation
    keyMoved: set<nat>,                // ephemerons whose key field holds the new address
    phase: Phase,
    pcs: map<nat, Pc>,
    // history
    rank: map<nat, nat>, clock: nat,   // order in which ephemerons were published
    passed: set<nat>,                  // ephemerons that went from Pending to Resolved
    done: set<nat>,                    // ephemerons whose value was visited
    place: map<nat, Place>, owner: map<nat, nat>,
    claims: multiset<nat>, entries: multiset<nat>, visits: multiset<nat>)

  datatype Choice =
    | Go
    | Mark(k: nat, moves: bool)
    | TraceEphemeron(e: nat)
    | TakeResolved
    | StartScan

  function StOf(s: State, e: nat): EphState {
    if e in s.st then s.st[e] else Traced
  }

  function PcOf(s: State, t: nat): Pc {
    if t in s.pcs then s.pcs[t] else Idle
  }

  function Get(m: map<nat, nat>, i: nat): nat {
    if i in m then m[i] else 0
  }

  function BucketOf(s: State, e: nat): nat {
    s.hash(s.key(e))
  }

  function Value(s: State, loc: Loc): nat {
    match loc
    case Bucket(b) => Get(s.bucket, b)
    case Link(e) => Get(s.link, e)
  }

  function Store(s: State, loc: Loc, v: nat): State {
    match loc
    case Bucket(b) => s.(bucket := s.bucket[b := v])
    case Link(e) => s.(link := s.link[e := v])
  }

  function At(s: State, t: nat, pc: Pc): State {
    s.(pcs := s.pcs[t := pc])
  }

  /** gc_visit_ephemeron_key: is the key traced?  If it was evacuated, update the field. */
  predicate KeyTraced(s: State, e: nat) {
    e in s.keyMoved || s.key(e) in s.marked
  }

  function UpdateKey(s: State, e: nat): State {
    if s.key(e) in s.moved then s.(keyMoved := s.keyMoved + {e}) else s
  }

  // ---------- Steps ----------

  /** Where a walk goes when its chain is over: the scan on to the next bucket. */
  function EndPc(s: State, w: Walk): Pc {
    if w.Scan? && w.b + 1 < s.nbuckets then Load(Scan(w.b + 1), Bucket(w.b + 1)) else Idle
  }

  function ContinuePc(w: Walk, e: nat): Pc {
    if w.Own? then Idle else Load(w, Link(e))
  }

  function LoadPc(s: State, w: Walk, loc: Loc): Pc {
    var head := Value(s, loc);
    if head == 0 then EndPc(s, w) else Skip(w, loc, head, head)
  }

  function SkipPc(s: State, w: Walk, loc: Loc, head: nat, cur: nat): Pc {
    if cur != 0 && StOf(s, cur) != Pending then NextOf(w, loc, head, cur)
    else if head != cur then Swing(w, loc, head, cur)
    else FoundPc(s, w, cur)
  }

  function FoundPc(s: State, w: Walk, cur: nat): Pc {
    if cur == 0 then EndPc(s, w) else Got(w, cur)
  }

  /** The compare-and-swap of ephemeron_list_follow. */
  function SwingStep(s: State, t: nat, w: Walk, loc: Loc, head: nat, cur: nat): State {
    var now := Value(s, loc);
    if now == head then At(Store(s, loc, cur), t, FoundPc(s, w, cur))
    else if now == cur then At(s, t, FoundPc(s, w, cur))
    else At(s, t, Skip(w, loc, now, now))
  }

  function GotPc(s: State, w: Walk, e: nat): Pc {
    if w.Resolve? && (e in s.keyMoved || s.key(e) != w.k) then Load(w, Link(e)) else VisitKey(w, e)
  }

  function VisitKeyStep(s: State, t: nat, w: Walk, e: nat): State {
    if KeyTraced(s, e) then At(UpdateKey(s, e), t, TryResolve(w, e))
    else At(s, t, Load(w, Link(e)))
  }

  /** maybe_resolve_ephemeron */
  function TryResolveStep(s: State, t: nat, w: Walk, e: nat): State {
    if StOf(s, e) == Pending then
      At(s, t, PushResolved(w, e))
        .(st := s.st[e := Resolved], passed := s.passed + {e}, place := s.place[e := Hand(t)])
    else At(s, t, ContinuePc(w, e))
  }

  function PushResolvedStep(s: State, t: nat, w: Walk, e: nat): State {
    At(s, t, ContinuePc(w, e))
      .(stack := [e] + s.stack, place := s.place[e := Stack], entries := s.entries + multiset{e})
  }

  function WalkStep(s: State, t: nat): State {
    match PcOf(s, t)
    case Load(w, loc) => At(s, t, LoadPc(s, w, loc))
    case Skip(w, loc, head, cur) => At(s, t, SkipPc(s, w, loc, head, cur))
    case NextOf(w, loc, head, cur) => At(s, t, Skip(w, loc, head, Value(s, Link(cur))))
    case Swing(w, loc, head, cur) => SwingStep(s, t, w, loc, head, cur)
    case Got(w, e) => At(s, t, GotPc(s, w, e))
    case VisitKey(w, e) => VisitKeyStep(s, t, w, e)
    case TryResolve(w, e) => TryResolveStep(s, t, w, e)
    case PushResolved(w, e) => PushResolvedStep(s, t, w, e)
    case _ => s
  }

  /** The start of gc_trace_ephemeron, once the claim has succeeded. */
  function EpochStep(s: State, t: nat, e: nat): State {
    if e in s.current then At(s, t, StoreTraced(e))
    else
      At(s, t, if e in s.dead then StoreTraced(e) else VisitOwnKey(e))
        .(current := s.current + {e}, claims := s.claims + multiset{e}, link := s.link[e := 0])
  }

  function VisitOwnStep(s: State, t: nat, e: nat): State {
    if KeyTraced(s, e) then
      At(UpdateKey(s, e), t, StoreTraced(e)).(visits := s.visits + multiset{e}, done := s.done + {e})
    else At(s, t, SetPending(e))
  }

  /** The compare-and-swap of ephemeron_list_push. */
  function PublishStep(s: State, t: nat, e: nat, tail: nat): State {
    var loc := Bucket(BucketOf(s, e));
    if Value(s, loc) == tail then
      At(Store(s, loc, e), t, Recheck(e)).(rank := s.rank[e := s.clock + 1], clock := s.clock + 1)
    else At(s, t, PushLink(e, Value(s, loc)))
  }

  function RecheckStep(s: State, t: nat, e: nat): State {
    if KeyTraced(s, e) then At(UpdateKey(s, e), t, TryResolve(Own, e)) else At(s, t, Idle)
  }

  function BatchStep(s: State, t: nat, es: seq<nat>): State {
    if es == [] then At(s, t, Idle)
    else
      At(s, t, TraceBatch(es[1..]))
        .(st := s.st[es[0] := Traced], done := s.done + {es[0]}, visits := s.visits + multiset{es[0]})
  }

  function OwnerStep(s: State, t: nat): State {
    match PcOf(s, t)
    case EpochCheck(e) => EpochStep(s, t, e)
    case StoreTraced(e) => At(s, t, Idle).(st := s.st[e := Traced])
    case VisitOwnKey(e) => VisitOwnStep(s, t, e)
    case SetPending(e) => At(s, t, PushLoad(e)).(st := s.st[e := Pending])
    case PushLoad(e) => At(s, t, PushLink(e, Value(s, Bucket(BucketOf(s, e)))))
    case PushLink(e, tail) => At(s, t, PushCas(e, tail)).(link := s.link[e := tail])
    case PushCas(e, tail) => PublishStep(s, t, e, tail)
    case Recheck(e) => RecheckStep(s, t, e)
    case TraceBatch(es) => BatchStep(s, t, es)
    case _ => s
  }

  /** An idle thread marks an object, comes across an ephemeron, or takes the resolved set. */
  function StartStep(s: State, t: nat, c: Choice): State {
    match c
    case Mark(k, moves) =>
      if k in s.marked then s
      else
        At(s, t, if s.phase.Eager? then Load(Resolve(k), Bucket(s.hash(k))) else Idle)
          .(marked := s.marked + {k}, moved := if moves then s.moved + {k} else s.moved)
    case TraceEphemeron(e) =>
      if e != 0 && StOf(s, e) == Traced then
        At(s, t, EpochCheck(e)).(st := s.st[e := Claimed], owner := s.owner[e := t])
      else s
    case TakeResolved =>
      At(s, t, TraceBatch(s.stack))
        .(stack := [], place := map e | e in s.place.Keys + (set x | x in s.stack) ::
                                  if e in s.stack then Batch(t) else s.place[e])
    case _ => s
  }

  ghost predicate AllIdle(s: State) {
    forall t :: PcOf(s, t).Idle?
  }

  /** One step of thread `t`.  The scan runs on thread 0 with every tracer parked. */
  ghost function Step(s: State, t: nat, c: Choice): State {
    if s.phase.Scanning? && t != 0 then s
    else if PcOf(s, t).Idle? then
      if c.StartScan? then
        if s.phase.Lazy? && AllIdle(s) && t == 0 && s.nbuckets > 0 then
          At(s, 0, Load(Scan(0), Bucket(0))).(phase := Scanning)
        else s
      else if s.phase.Scanning? then s.(phase := Eager)
      else StartStep(s, t, c)
    else if Walking(PcOf(s, t)) then WalkStep(s, t)
    else OwnerStep(s, t)
  }

  predicate Walking(pc: Pc) {
    pc.Load? || pc.Skip? || pc.NextOf? || pc.Swing? || pc.Got? || pc.VisitKey? || pc.TryResolve? || pc.PushResolved?
  }

  /** A cycle starts with an empty table, nothing claimed and no thread at work. */
  ghost predicate Init(s: State) {
    && s.nbuckets > 0 && (forall k :: s.hash(k) < s.nbuckets)
    && s.st == map[] && s.current == {} && s.link == map[] && s.bucket == map[] && s.stack == []
    && s.moved == {} && s.keyMoved == {} && s.phase.Lazy? && s.pcs == map[]
    && s.rank == map[] && s.clock == 0 && s.passed == {} && s.done == {}
    && s.place == map[] && s.owner == map[]
    && s.claims == s.entries == s.visits == multiset{}
  }

  // ---------- Invariant: ephemerons ----------

  /** Published and still pending.  Once false of a published ephemeron, false for good. */
  ghost predicate Live(s: State, e: nat) {
    e in s.rank && e !in s.passed
  }

  ghost predicate EphInv(s: State, e: nat) {
    var st := StOf(s, e);
    && (st.Traced? || st.Claimed? ==> e !in s.rank || e in s.done)
    && (st.Pending? ==> e in s.current && e !in s.passed)
    && (st.Resolved? ==> e in s.passed && e !in s.done)
    && (Live(s, e) ==> st.Pending? && e !in s.done)
    && (e in s.passed ==> e in s.rank && e in s.place && (e !in s.done ==> st.Resolved?))
    && (e in s.rank ==> e in s.current && 0 < s.rank[e] <= s.clock)
    && (e in s.done ==> e in s.current && (e in s.rank ==> e in s.passed && !s.place[e].Hand?))
    && (e in s.keyMoved ==> e in s.current)
    && s.claims[e] == (if e in s.current then 1 else 0)
    && s.visits[e] == (if e in s.done then 1 else 0)
    && s.entries[e] == (if e in s.passed && !s.place[e].Hand? then 1 else 0)
  }

  ghost predicate RanksDiffer(s: State, d: nat, e: nat) {
    d in s.rank && e in s.rank && d != e ==> s.rank[d] != s.rank[e]
  }

  ghost predicate EphsInv(s: State) {
    && (forall e :: EphInv(s, e))
    && (forall d, e :: RanksDiffer(s, d, e))
    && 0 !in s.rank && s.nbuckets > 0 && (forall k :: s.hash(k) < s.nbuckets)
  }

  // ---------- Invariant: chains ----------

  ghost function Rk(s: State, e: nat): nat {
    if e in s.rank then s.rank[e] else 0
  }

  /** `e` is further along the chain than the link at `loc`. */
  ghost predicate After(s: State, loc: Loc, e: nat) {
    match loc
    case Bucket(_) => true
    case Link(x) => Rk(s, e) < Rk(s, x)
  }

  /** A pointer into the chain of bucket `b`. */
  ghost predicate InChain(s: State, b: nat, p: nat) {
    p == 0 || (p in s.rank && BucketOf(s, p) == b)
  }

  /** No live ephemeron of bucket `b` that is after `loc` comes before `p`. */
  ghost predicate NoneBetween(s: State, b: nat, loc: Loc, p: nat) {
    forall u :: Live(s, u) && BucketOf(s, u) == b && After(s, loc, u) ==> Rk(s, u) <= Rk(s, p)
  }

  ghost predicate LocIn(s: State, b: nat, loc: Loc) {
    match loc
    case Bucket(b') => b' == b
    case Link(x) => x in s.rank && BucketOf(s, x) == b
  }

  /** The link at `loc` leads further along its chain and skips no live ephemeron. */
  ghost predicate LocInv(s: State, b: nat, loc: Loc) {
    LocIn(s, b, loc) ==>
      var p := Value(s, loc);
      InChain(s, b, p) && (p != 0 ==> After(s, loc, p)) && NoneBetween(s, b, loc, p)
  }

  ghost predicate ChainsInv(s: State) {
    forall b, loc :: LocInv(s, b, loc)
  }

  // ---------- Invariant: program points ----------

  ghost function WalkBucket(s: State, w: Walk): nat {
    match w
    case Resolve(k) => s.hash(k)
    case Scan(b) => b
    case Own => 0
  }

  /** Everything from `head` up to but excluding `cur` is dead. */
  ghost predicate DeadUpTo(s: State, b: nat, head: nat, cur: nat) {
    forall u :: Live(s, u) && BucketOf(s, u) == b ==> !(Rk(s, cur) < Rk(s, u) <= Rk(s, head))
  }

  ghost predicate WalkOk(s: State, w: Walk, loc: Loc, head: nat, cur: nat) {
    var b := WalkBucket(s, w);
    && !w.Own? && LocIn(s, b, loc)
    && InChain(s, b, head) && InChain(s, b, cur)
    && (head != 0 ==> After(s, loc, head))
    && Rk(s, cur) <= Rk(s, head)
    && DeadUpTo(s, b, head, cur)
  }

  ghost predicate At1(s: State, w: Walk, e: nat) {
    e in s.rank && (w.Own? || BucketOf(s, e) == WalkBucket(s, w))
  }

  /** What thread `t` may rely on about an ephemeron that it has claimed. */
  ghost predicate Mine(s: State, t: nat, e: nat) {
    e != 0 && e in s.owner && s.owner[e] == t
  }

  ghost predicate PcInv(s: State, t: nat, pc: Pc) {
    match pc
    case Idle => true
    case Load(w, loc) => !w.Own? && LocIn(s, WalkBucket(s, w), loc)
    case Skip(w, loc, head, cur) => WalkOk(s, w, loc, head, cur)
    case NextOf(w, loc, head, cur) => WalkOk(s, w, loc, head, cur) && cur != 0 && !Live(s, cur)
    case Swing(w, loc, head, cur) => WalkOk(s, w, loc, head, cur)
    case Got(w, e) => !w.Own? && At1(s, w, e)
    case VisitKey(w, e) => !w.Own? && At1(s, w, e)
    case TryResolve(w, e) => At1(s, w, e)
    case PushResolved(w, e) =>
      At1(s, w, e) && e in s.passed && e !in s.done && e in s.place && s.place[e] == Hand(t)
    case EpochCheck(e) => Mine(s, t, e) && StOf(s, e).Claimed?
    case StoreTraced(e) => Mine(s, t, e) && StOf(s, e).Claimed? && e in s.current
    case VisitOwnKey(e) =>
      Mine(s, t, e) && StOf(s, e).Claimed? && e in s.current && e !in s.rank && e !in s.done && e !in s.keyMoved
    case SetPending(e) =>
      Mine(s, t, e) && StOf(s, e).Claimed? && e in s.current && e !in s.rank && e !in s.done && e !in s.keyMoved
    case PushLoad(e) => Publishing(s, t, e)
    case PushLink(e, tail) => Publishing(s, t, e) && InChain(s, BucketOf(s, e), tail)
    case PushCas(e, tail) =>
      Publishing(s, t, e) && InChain(s, BucketOf(s, e), tail) && Value(s, Link(e)) == tail
    case Recheck(e) => e in s.rank
    case TraceBatch(es) => BatchOk(s, es, Batch(t))
  }

  ghost predicate Publishing(s: State, t: nat, e: nat) {
    Mine(s, t, e) && StOf(s, e).Pending? && e !in s.rank && e !in s.done && e !in s.keyMoved
  }

  /** Distinct resolved ephemerons, all kept at one place. */
  ghost predicate BatchOk(s: State, es: seq<nat>, place: Place) {
    && (forall i :: 0 <= i < |es| ==>
          es[i] in s.passed && es[i] !in s.done && es[i] in s.place && s.place[es[i]] == place)
    && (forall i, j :: 0 <= i < j < |es| ==> es[i] != es[j])
  }

  ghost predicate ThreadsInv(s: State) {
    && (forall t :: PcInv(s, t, PcOf(s, t)))
    && BatchOk(s, s.stack, Stack)
  }

  /** An unpublished pending ephemeron is in the hands of the thread that claimed it. */
  ghost predicate HeldWhilePublishing(s: State, e: nat) {
    StOf(s, e).Pending? && e !in s.rank ==>
      e in s.owner && (var pc := PcOf(s, s.owner[e]); (pc.PushLoad? || pc.PushLink? || pc.PushCas?) && pc.e == e)
  }

  // ---------- Invariant: nobody is forgotten ----------

  /** The part of the table that a walk at a given position has still to look at. */
  ghost predicate Ahead(s: State, w: Walk, e: nat, further: bool) {
    match w
    case Resolve(k) => s.key(e) == k && further
    case Scan(b) => BucketOf(s, e) > b || (BucketOf(s, e) == b && further)
    case Own => false
  }

  /** Thread `t` will yet look at the key of live ephemeron `e`. */
  ghost predicate WillCheck(s: State, t: nat, e: nat) {
    Checks(s, PcOf(s, t), e)
  }

  ghost predicate Checks(s: State, pc: Pc, e: nat) {
    match pc
    case Load(w, loc) => Ahead(s, w, e, After(s, loc, e))
    case Skip(w, _, _, cur) => Ahead(s, w, e, Rk(s, e) <= Rk(s, cur))
    case NextOf(w, _, _, cur) => Ahead(s, w, e, Rk(s, e) < Rk(s, cur))
    case Swing(w, _, _, cur) => Ahead(s, w, e, Rk(s, e) <= Rk(s, cur))
    case Got(w, x) => Ahead(s, w, e, Rk(s, e) <= Rk(s, x))
    case VisitKey(w, x) => x == e || Ahead(s, w, e, Rk(s, e) < Rk(s, x))
    case TryResolve(w, x) => x == e || Ahead(s, w, e, Rk(s, e) < Rk(s, x))
    case PushResolved(w, x) => Ahead(s, w, e, Rk(s, e) < Rk(s, x))
    case Recheck(x) => x == e
    case _ => false
  }

  ghost predicate WillResolve(s: State, t: nat, e: nat) {
    PcOf(s, t).TryResolve? && PcOf(s, t).e == e
  }

  ghost predicate NotForgotten(s: State, e: nat) {
    && (Live(s, e) && e in s.keyMoved ==> exists t :: WillResolve(s, t, e))
    && (Live(s, e) && !s.phase.Lazy? && s.key(e) in s.marked && e !in s.keyMoved ==> exists t :: WillCheck(s, t, e))
  }

  /** Only thread 0 scans, only in the scanning phase; a key being resolved is marked. */
  ghost predicate PhaseOk(s: State, t: nat, pc: Pc) {
    && (Walking(pc) && pc.w.Scan? ==> s.phase.Scanning? && t == 0 && pc.w.b < s.nbuckets)
    && (s.phase.Scanning? && !pc.Idle? ==> t == 0 && Walking(pc) && pc.w.Scan?)
    && (Walking(pc) && pc.w.Resolve? ==> s.phase.Eager? && pc.w.k in s.marked)
    && (pc.TryResolve? ==> s.key(pc.e) in s.marked)
    && (pc.VisitKey? && pc.w.Resolve? ==> s.key(pc.e) in s.marked)
  }

  ghost predicate CheckInv(s: State) {
    && (forall e :: NotForgotten(s, e))
    && (forall e :: e in s.keyMoved ==> s.key(e) in s.marked)
    && (forall t :: PhaseOk(s, t, PcOf(s, t)))
  }

  ghost predicate BaseInv(s: State) {
    EphsInv(s) && ChainsInv(s) && ThreadsInv(s) && forall e :: HeldWhilePublishing(s, e)
  }

  ghost predicate Inv(s: State) {
    BaseInv(s) && CheckInv(s)
  }

  lemma InitInv(s: State)
    requires Init(s)
    ensures Inv(s)
  {
  }

  // ---------- What a step of one thread leaves alone ----------

  ghost predicate SameTable(s: State, s': State) {
    s'.hash == s.hash && s'.key == s.key && s'.nbuckets == s.nbuckets
  }

  /** Ranks are only added, above all others; what is resolved stays resolved. */
  ghost predicate Grows(s: State, s': State) {
    && SameTable(s, s')
    && (forall e :: e in s.rank ==> e in s'.rank && s'.rank[e] == s.rank[e])
    && (forall e :: e in s'.rank && e !in s.rank ==> s'.rank[e] > s.clock)
    && s.passed <= s'.passed && s.current <= s'.current && s.clock <= s'.clock
  }

  ghost predicate Untouched(s: State, s': State, e: nat) {
    && e in s.owner && e in s'.owner && s'.owner[e] == s.owner[e] && StOf(s', e) == StOf(s, e)
    && (e in s'.rank <==> e in s.rank) && (e in s'.done <==> e in s.done)
    && (e !in s.rank ==> Value(s', Link(e)) == Value(s, Link(e)) && (e in s'.keyMoved <==> e in s.keyMoved))
  }

  /** Thread `u` holds claim or publication rights on `e`. */
  ghost predicate Holds(s: State, u: nat, e: nat) {
    e in s.owner && s.owner[e] == u && (StOf(s, e).Claimed? || (StOf(s, e).Pending? && e !in s.rank))
  }

  ghost predicate KeepsPlace(s: State, s': State, t: nat, e: nat) {
    e in s.passed && e !in s.done && e in s.place && s.place[e] !in {Hand(t), Batch(t), Stack} ==>
      e in s'.place && s'.place[e] == s.place[e] && e !in s'.done
  }

  ghost predicate Evolves(s: State, s': State, t: nat) {
    && Grows(s, s')
    && (forall u :: u != t ==> PcOf(s', u) == PcOf(s, u))
    && (forall e, u :: Holds(s, u, e) && u != t ==> Untouched(s, s', e))
    && (forall e :: KeepsPlace(s, s', t, e))
  }

  lemma GapKept(s: State, s': State, b: nat, head: nat, cur: nat)
    requires EphsInv(s) && Grows(s, s') && DeadUpTo(s, b, head, cur)
    requires InChain(s, b, head) && InChain(s, b, cur)
    requires 0 !in s'.rank
    ensures DeadUpTo(s', b, head, cur)
  {
    forall u | Live(s', u) && BucketOf(s', u) == b
      ensures !(Rk(s', cur) < Rk(s', u) <= Rk(s', head))
    {
      assert EphInv(s, head);
      if u in s.rank { assert Live(s, u); }
    }
  }

  lemma WalkKept(s: State, s': State, w: Walk, loc: Loc, head: nat, cur: nat)
    requires EphsInv(s) && Grows(s, s') && WalkOk(s, w, loc, head, cur) && 0 !in s'.rank
    ensures WalkOk(s', w, loc, head, cur)
  {
    GapKept(s, s', WalkBucket(s, w), head, cur);
  }

  lemma OtherWalkKept(s: State, s': State, u: nat)
    requires EphsInv(s) && PcInv(s, u, PcOf(s, u)) && Grows(s, s') && 0 !in s'.rank
    requires Walking(PcOf(s, u)) && !PcOf(s, u).PushResolved?
    ensures PcInv(s', u, PcOf(s, u))
  {
    match PcOf(s, u)
    case Skip(w, loc, head, cur) => WalkKept(s, s', w, loc, head, cur);
    case NextOf(w, loc, head, cur) => WalkKept(s, s', w, loc, head, cur);
    case Swing(w, loc, head, cur) => WalkKept(s, s', w, loc, head, cur);
    case _ =>
  }

  lemma OtherPcKept(s: State, s': State, t: nat, u: nat)
    requires EphsInv(s) && PcInv(s, u, PcOf(s, u)) && Evolves(s, s', t) && u != t && 0 !in s'.rank
    ensures PcInv(s', u, PcOf(s', u))
  {
    hide EphsInv, WalkOk, Evolves, Untouched, KeepsPlace;
    EvolvesIs(s, s', t, u);
    match PcOf(s, u)
    case PushResolved(w, e) => HandKept(s, s', t, u);
    case TraceBatch(es) => OtherBatchKept(s, s', t, u, es);
    case EpochCheck(e) => HeldPcKept(s, s', t, u, e);
    case StoreTraced(e) => HeldPcKept(s, s', t, u, e);
    case VisitOwnKey(e) => HeldPcKept(s, s', t, u, e);
    case SetPending(e) => HeldPcKept(s, s', t, u, e);
    case PushLoad(e) => HeldPcKept(s, s', t, u, e);
    case PushLink(e, tail) => HeldPcKept(s, s', t, u, e);
    case PushCas(e, tail) => HeldPcKept(s, s', t, u, e);
    case Idle =>
    case Recheck(_) =>
    case _ => OtherWalkKept(s, s', u);
  }

  lemma EvolvesIs(s: State, s': State, t: nat, u: nat)
    requires Evolves(s, s', t) && u != t
    ensures Grows(s, s') && PcOf(s', u) == PcOf(s, u)
  {
  }

  lemma HandKept(s: State, s': State, t: nat, u: nat)
    requires PcInv(s, u, PcOf(s, u)) && Evolves(s, s', t) && u != t && PcOf(s, u).PushResolved?
    ensures PcInv(s', u, PcOf(s, u))
  {
    assert KeepsPlace(s, s', t, PcOf(s, u).e);
  }

  lemma OtherBatchKept(s: State, s': State, t: nat, u: nat, es: seq<nat>)
    requires PcInv(s, u, PcOf(s, u)) && Evolves(s, s', t) && u != t && PcOf(s, u) == TraceBatch(es)
    ensures PcInv(s', u, PcOf(s, u))
  {
    forall i | 0 <= i < |es|
      ensures es[i] in s'.place && s'.place[es[i]] == Batch(u) && es[i] !in s'.done
    {
      assert KeepsPlace(s, s', t, es[i]);
    }
  }

  lemma HeldPcKept(s: State, s': State, t: nat, u: nat, e: nat)
    requires PcInv(s, u, PcOf(s, u)) && Evolves(s, s', t) && u != t
    requires var pc := PcOf(s, u);
      && (pc.EpochCheck? || pc.StoreTraced? || pc.VisitOwnKey? || pc.SetPending? || pc.PushLoad? || pc.PushLink? || pc.PushCas?)
      && pc.e == e
    ensures PcInv(s', u, PcOf(s, u))
  {
    hide WalkOk, KeepsPlace, BatchOk;
    assert Holds(s, u, e);
    assert Untouched(s, s', e);
  }

  /** Chains survive any step that neither publishes nor swings a link of the table. */
  lemma ChainsKept(s: State, s': State)
    requires ChainsInv(s) && SameTable(s, s') && s'.rank == s.rank && s.passed <= s'.passed
    requires s'.bucket == s.bucket
    requires forall e :: e in s.rank ==> Value(s', Link(e)) == Value(s, Link(e))
    ensures ChainsInv(s')
  {
    forall b, loc
      ensures LocInv(s', b, loc)
    {
      assert LocInv(s, b, loc);
      if LocIn(s', b, loc) {
        forall u | Live(s', u) && BucketOf(s', u) == b && After(s', loc, u)
          ensures Rk(s', u) <= Rk(s', Value(s', loc))
        {
          assert Live(s, u) && After(s, loc, u);
        }
      }
    }
  }

  // ---------- Steps of a walk ----------

  lemma PcMoves(s: State, t: nat, pc: Pc, u: nat, pc': Pc)
    requires EphsInv(s) && PcInv(s, u, pc')
    ensures PcInv(At(s, t, pc), u, pc')
  {
    var s' := At(s, t, pc);
    match pc'
    case Skip(w, loc, head, cur) => WalkKept(s, s', w, loc, head, cur);
    case NextOf(w, loc, head, cur) => WalkKept(s, s', w, loc, head, cur);
    case Swing(w, loc, head, cur) => WalkKept(s, s', w, loc, head, cur);
    case _ =>
  }

  ghost predicate Pushing(pc: Pc) {
    pc.PushLoad? || pc.PushLink? || pc.PushCas?
  }

  /** A step that changes nothing but the program point of `t`. */
  lemma MoveKeeps(s: State, t: nat, pc: Pc)
    requires BaseInv(s) && PcInv(s, t, pc)
    requires Pushing(PcOf(s, t)) ==> Pushing(pc) && pc.e == PcOf(s, t).e
    ensures BaseInv(At(s, t, pc))
  {
    var s' := At(s, t, pc);
    forall e ensures EphInv(s', e) { assert EphInv(s, e); }
    forall d, e ensures RanksDiffer(s', d, e) { assert RanksDiffer(s, d, e); }
    ChainsKept(s, s');
    forall u ensures PcInv(s', u, PcOf(s', u)) {
      PcMoves(s, t, pc, u, if u == t then pc else PcOf(s, u));
    }
    forall e ensures HeldWhilePublishing(s', e) { assert HeldWhilePublishing(s, e); }
  }

  lemma LoadOk(s: State, t: nat, w: Walk, loc: Loc)
    requires ChainsInv(s) && PcInv(s, t, Load(w, loc))
    ensures PcInv(s, t, LoadPc(s, w, loc))
  {
    assert LocInv(s, WalkBucket(s, w), loc);
  }

  lemma SkipOk(s: State, t: nat, w: Walk, loc: Loc, head: nat, cur: nat)
    requires EphsInv(s) && PcInv(s, t, Skip(w, loc, head, cur))
    ensures PcInv(s, t, SkipPc(s, w, loc, head, cur))
  {
    hide DeadUpTo;
    assert EphInv(s, cur);
  }

  /** Passing a dead node: nothing live lies between it and the node its link leads to. */
  lemma NextOfOk(s: State, t: nat, w: Walk, loc: Loc, head: nat, cur: nat)
    requires EphsInv(s) && ChainsInv(s) && PcInv(s, t, NextOf(w, loc, head, cur))
    ensures WalkOk(s, w, loc, head, Value(s, Link(cur)))
  {
    var b := WalkBucket(s, w);
    var next := Value(s, Link(cur));
    assert LocInv(s, b, Link(cur));
    forall u | Live(s, u) && BucketOf(s, u) == b
      ensures !(Rk(s, next) < Rk(s, u) <= Rk(s, head))
    {
      assert RanksDiffer(s, u, cur);
    }
  }

  /** What remains to be shown of a step of `t` that changes more than its program point. */
  lemma StepKeeps(s: State, s': State, t: nat, pc: Pc)
    requires BaseInv(s) && Evolves(s, s', t) && s'.pcs == s.pcs[t := pc] && PcInv(s', t, pc)
    requires EphsInv(s') && ChainsInv(s') && BatchOk(s', s'.stack, Stack)
    requires forall e :: HeldWhilePublishing(s', e)
    ensures BaseInv(s')
  {
    hide EphsInv, ChainsInv, Evolves, BatchOk, HeldWhilePublishing;
    assert 0 !in s'.rank by { NoRankZero(s'); }
    forall u ensures PcInv(s', u, PcOf(s', u)) {
      if u != t {
        assert PcInv(s, u, PcOf(s, u));
        OtherPcKept(s, s', t, u);
      }
    }
  }

  lemma NoRankZero(s: State)
    requires EphsInv(s)
    ensures 0 !in s.rank
  {
  }

  lemma SwingKeeps(s: State, t: nat, w: Walk, loc: Loc, head: nat, cur: nat)
    requires BaseInv(s) && PcOf(s, t) == Swing(w, loc, head, cur) && Value(s, loc) == head
    ensures BaseInv(SwingStep(s, t, w, loc, head, cur))
  {
    var s1 := Store(s, loc, cur);
    assert PcInv(s, t, PcOf(s, t));
    SwingChains(s, w, loc, head, cur);
    forall e ensures EphInv(s1, e) && HeldWhilePublishing(s1, e) { assert EphInv(s, e) && HeldWhilePublishing(s, e); }
    forall d, e ensures RanksDiffer(s1, d, e) { assert RanksDiffer(s, d, e); }
    forall u ensures PcInv(s1, u, PcOf(s1, u)) {
      assert PcInv(s, u, PcOf(s, u));
      StoreKeepsPc(s, loc, cur, w, u);
    }
    MoveKeeps(s1, t, FoundPc(s, w, cur));
  }

  lemma StoreKeepsPc(s: State, loc: Loc, v: nat, w: Walk, u: nat)
    requires EphsInv(s) && PcInv(s, u, PcOf(s, u)) && LocIn(s, WalkBucket(s, w), loc)
    ensures PcInv(Store(s, loc, v), u, PcOf(s, u))
  {
    var s' := Store(s, loc, v);
    match PcOf(s, u)
    case Skip(w, loc, head, cur) => WalkKept(s, s', w, loc, head, cur);
    case NextOf(w, loc, head, cur) => WalkKept(s, s', w, loc, head, cur);
    case Swing(w, loc, head, cur) => WalkKept(s, s', w, loc, head, cur);
    case _ =>
  }

  /** A walk goes on from finding its next node only if it has skipped none, or the link it came by has been
      swung past those that it has. */
  lemma SkippedAreCutOff(s: State, t: nat)
    requires PcOf(s, t).Skip? || PcOf(s, t).Swing?
    ensures var pc, s' := PcOf(s, t), WalkStep(s, t);
      var pc' := PcOf(s', t);
      !pc'.Skip? && !pc'.NextOf? && !pc'.Swing? ==>
        if pc.Skip? then pc.head == pc.cur && (pc.cur == 0 || StOf(s, pc.cur).Pending?) else Value(s', pc.loc) == pc.cur
  {
    hide WalkStep;
    if PcOf(s, t).Skip? { SkipEnds(s, t); } else { SwingEnds(s, t); }
  }

  lemma SkipEnds(s: State, t: nat)
    requires PcOf(s, t).Skip?
    ensures var pc, pc' := PcOf(s, t), PcOf(WalkStep(s, t), t);
      !pc'.Skip? && !pc'.NextOf? && !pc'.Swing? ==> pc.head == pc.cur && (pc.cur == 0 || StOf(s, pc.cur).Pending?)
  {
  }

  lemma SwingEnds(s: State, t: nat)
    requires PcOf(s, t).Swing?
    ensures var pc, s' := PcOf(s, t), WalkStep(s, t);
      !PcOf(s', t).Skip? ==> Value(s', pc.loc) == pc.cur
  {
    hide SwingStep, Value;
    var pc := PcOf(s, t);
    SwingStores(s, t, pc.w, pc.loc, pc.head, pc.cur);
  }

  lemma SwingStores(s: State, t: nat, w: Walk, loc: Loc, head: nat, cur: nat)
    ensures var s' := SwingStep(s, t, w, loc, head, cur); !PcOf(s', t).Skip? ==> Value(s', loc) == cur
  {
    hide At, Store, Value, FoundPc, PcOf;
    StoredValue(s, loc, cur);
    forall s1: State, pc: Pc ensures PcOf(At(s1, t, pc), t) == pc && Value(At(s1, t, pc), loc) == Value(s1, loc) {
      MovedValue(s1, t, pc, loc);
    }
  }

  lemma StoredValue(s: State, loc: Loc, v: nat)
    ensures Value(Store(s, loc, v), loc) == v
  {
  }

  lemma MovedValue(s: State, t: nat, pc: Pc, loc: Loc)
    ensures PcOf(At(s, t, pc), t) == pc && Value(At(s, t, pc), loc) == Value(s, loc)
  {
  }

  /** Swinging a link past dead nodes makes no live node unreachable. */
  lemma SwingChains(s: State, w: Walk, loc: Loc, head: nat, cur: nat)
    requires EphsInv(s) && ChainsInv(s) && WalkOk(s, w, loc, head, cur) && Value(s, loc) == head
    ensures ChainsInv(Store(s, loc, cur))
  {
    var s' := Store(s, loc, cur);
    assert LocInv(s, WalkBucket(s, w), loc) && EphInv(s, cur);
    assert cur != 0 ==> After(s, loc, cur);
    forall b, l ensures LocInv(s', b, l) {
      assert LocInv(s, b, l);
      hide ChainsInv, EphsInv, LocInv, WalkOk;
      if LocIn(s', b, l) { SwungLocation(s, w, loc, head, cur, b, l); }
      assert !LocIn(s', b, l) ==> LocInv(s', b, l) by { NotInChain(s', b, l); }
    }
  }

  lemma NotInChain(s: State, b: nat, l: Loc)
    ensures !LocIn(s, b, l) ==> LocInv(s, b, l)
  {
  }

  lemma SwungLocation(s: State, w: Walk, loc: Loc, head: nat, cur: nat, b: nat, l: Loc)
    requires EphsInv(s) && WalkOk(s, w, loc, head, cur) && Value(s, loc) == head
    requires LocInv(s, WalkBucket(s, w), loc) && EphInv(s, cur) && (cur != 0 ==> After(s, loc, cur))
    requires LocInv(s, b, l) && LocIn(Store(s, loc, cur), b, l)
    ensures LocInv(Store(s, loc, cur), b, l)
  {
    var s' := Store(s, loc, cur);
    forall u | Live(s', u) && BucketOf(s', u) == b && After(s', l, u)
      ensures Rk(s', u) <= Rk(s', Value(s', l))
    {
      assert Live(s, u) && After(s, l, u);
    }
  }

  /** Updating the key field of a published ephemeron. */
  lemma KeyMoveKeeps(s: State, t: nat, e: nat, pc: Pc)
    requires BaseInv(s) && e in s.rank && PcInv(s, t, pc) && !Pushing(PcOf(s, t))
    requires !pc.VisitOwnKey? && !pc.SetPending? && !Pushing(pc)
    ensures BaseInv(At(UpdateKey(s, e), t, pc))
  {
    var s1 := s.(keyMoved := s.keyMoved + {e});
    forall d ensures EphInv(s1, d) && HeldWhilePublishing(s1, d) { assert EphInv(s, d) && HeldWhilePublishing(s, d); }
    forall c, d ensures RanksDiffer(s1, c, d) { assert RanksDiffer(s, c, d); }
    ChainsKept(s, s1);
    forall u ensures PcInv(s1, u, PcOf(s1, u)) {
      assert PcInv(s, u, PcOf(s, u));
      KeyMovePc(s, e, u, PcOf(s, u));
    }
    KeyMovePc(s, e, t, pc);
    MoveKeeps(s1, t, pc);
    MoveKeeps(s, t, pc);
  }

  lemma KeyMovePc(s: State, e: nat, u: nat, pc: Pc)
    requires EphsInv(s) && PcInv(s, u, pc) && e in s.rank
    ensures PcInv(s.(keyMoved := s.keyMoved + {e}), u, pc)
  {
    var s' := s.(keyMoved := s.keyMoved + {e});
    match pc
    case Skip(w, loc, head, cur) => WalkKept(s, s', w, loc, head, cur);
    case NextOf(w, loc, head, cur) => WalkKept(s, s', w, loc, head, cur);
    case Swing(w, loc, head, cur) => WalkKept(s, s', w, loc, head, cur);
    case _ =>
  }

  /** PENDING to RESOLVED: the compare-and-swap hands the ephemeron to thread `t`. */
  lemma ResolveKeeps(s: State, t: nat, w: Walk, e: nat)
    requires BaseInv(s) && PcOf(s, t) == TryResolve(w, e) && StOf(s, e).Pending?
    ensures BaseInv(TryResolveStep(s, t, w, e))
  {
    var s' := TryResolveStep(s, t, w, e);
    assert PcInv(s, t, PcOf(s, t)) && EphInv(s, e);
    forall d ensures EphInv(s', d) && HeldWhilePublishing(s', d) { assert EphInv(s, d) && HeldWhilePublishing(s, d); }
    forall c, d ensures RanksDiffer(s', c, d) { assert RanksDiffer(s, c, d); }
    ChainsKept(s, s');
    StepKeeps(s, s', t, PushResolved(w, e));
  }

  lemma PushResolvedKeeps(s: State, t: nat, w: Walk, e: nat)
    requires BaseInv(s) && PcOf(s, t) == PushResolved(w, e)
    ensures BaseInv(PushResolvedStep(s, t, w, e))
  {
    var s' := PushResolvedStep(s, t, w, e);
    assert PcInv(s, t, PcOf(s, t)) && EphInv(s, e);
    forall d ensures EphInv(s', d) && HeldWhilePublishing(s', d) { assert EphInv(s, d) && HeldWhilePublishing(s, d); }
    forall c, d ensures RanksDiffer(s', c, d) { assert RanksDiffer(s, c, d); }
    ChainsKept(s, s');
    StepKeeps(s, s', t, ContinuePc(w, e));
  }

  // ---------- Steps of the thread that claimed an ephemeron ----------

  lemma EpochKeeps(s: State, t: nat, e: nat)
    requires BaseInv(s) && PcOf(s, t) == EpochCheck(e) && e !in s.current
    ensures BaseInv(EpochStep(s, t, e))
  {
    var s' := EpochStep(s, t, e);
    assert PcInv(s, t, PcOf(s, t)) && EphInv(s, e);
    forall d ensures EphInv(s', d) && HeldWhilePublishing(s', d) { assert EphInv(s, d) && HeldWhilePublishing(s, d); }
    forall c, d ensures RanksDiffer(s', c, d) { assert RanksDiffer(s, c, d); }
    ChainsKept(s, s');
    StepKeeps(s, s', t, PcOf(s', t));
  }

  lemma StoreTracedKeeps(s: State, t: nat, e: nat)
    requires BaseInv(s) && PcOf(s, t) == StoreTraced(e)
    ensures BaseInv(OwnerStep(s, t))
  {
    var s' := OwnerStep(s, t);
    assert PcInv(s, t, PcOf(s, t)) && EphInv(s, e);
    forall d ensures EphInv(s', d) && HeldWhilePublishing(s', d) { assert EphInv(s, d) && HeldWhilePublishing(s, d); }
    forall c, d ensures RanksDiffer(s', c, d) { assert RanksDiffer(s, c, d); }
    ChainsKept(s, s');
    StepKeeps(s, s', t, Idle);
  }

  lemma VisitOwnKeeps(s: State, t: nat, e: nat)
    requires BaseInv(s) && PcOf(s, t) == VisitOwnKey(e) && KeyTraced(s, e)
    ensures BaseInv(VisitOwnStep(s, t, e))
  {
    var s' := VisitOwnStep(s, t, e);
    assert PcInv(s, t, PcOf(s, t)) && EphInv(s, e);
    assert s'.keyMoved == s.keyMoved || s'.keyMoved == s.keyMoved + {e};
    assert s' == s.(keyMoved := s'.keyMoved, pcs := s.pcs[t := StoreTraced(e)],
                    visits := s.visits + multiset{e}, done := s.done + {e});
    VisitedKeeps(s, s', t, e);
  }

  lemma VisitedKeeps(s: State, s': State, t: nat, e: nat)
    requires BaseInv(s) && PcOf(s, t) == VisitOwnKey(e)
    requires s'.keyMoved == s.keyMoved || s'.keyMoved == s.keyMoved + {e}
    requires s' == s.(keyMoved := s'.keyMoved, pcs := s.pcs[t := StoreTraced(e)],
                      visits := s.visits + multiset{e}, done := s.done + {e})
    ensures BaseInv(s')
  {
    assert PcInv(s, t, PcOf(s, t)) && EphInv(s, e);
    forall d ensures EphInv(s', d) && HeldWhilePublishing(s', d) { assert EphInv(s, d) && HeldWhilePublishing(s, d); }
    forall c, d ensures RanksDiffer(s', c, d) { assert RanksDiffer(s, c, d); }
    ChainsKept(s, s');
    StepKeeps(s, s', t, StoreTraced(e));
  }

  lemma SetPendingKeeps(s: State, t: nat, e: nat)
    requires BaseInv(s) && PcOf(s, t) == SetPending(e)
    ensures BaseInv(OwnerStep(s, t))
  {
    var s' := OwnerStep(s, t);
    assert PcInv(s, t, PcOf(s, t)) && EphInv(s, e);
    forall d ensures EphInv(s', d) && HeldWhilePublishing(s', d) { assert EphInv(s, d) && HeldWhilePublishing(s, d); }
    forall c, d ensures RanksDiffer(s', c, d) { assert RanksDiffer(s, c, d); }
    ChainsKept(s, s');
    StepKeeps(s, s', t, PushLoad(e));
  }

  lemma PushLoadOk(s: State, t: nat, e: nat)
    requires BaseInv(s) && PcOf(s, t) == PushLoad(e)
    ensures PcInv(s, t, PushLink(e, Value(s, Bucket(BucketOf(s, e)))))
  {
    assert PcInv(s, t, PcOf(s, t));
    assert LocInv(s, BucketOf(s, e), Bucket(BucketOf(s, e)));
  }

  lemma PushLinkKeeps(s: State, t: nat, e: nat, tail: nat)
    requires BaseInv(s) && PcOf(s, t) == PushLink(e, tail)
    ensures BaseInv(OwnerStep(s, t))
  {
    var s' := OwnerStep(s, t);
    assert PcInv(s, t, PcOf(s, t)) && EphInv(s, e);
    forall d ensures EphInv(s', d) && HeldWhilePublishing(s', d) { assert EphInv(s, d) && HeldWhilePublishing(s, d); }
    forall c, d ensures RanksDiffer(s', c, d) { assert RanksDiffer(s, c, d); }
    ChainsKept(s, s');
    StepKeeps(s, s', t, PushCas(e, tail));
  }

  /** The new node goes in front of every other, so both links concerned skip nothing live. */
  lemma PublishChains(s: State, s': State, e: nat)
    requires EphsInv(s) && ChainsInv(s) && e !in s.rank && SameTable(s, s') && s'.passed == s.passed
    requires e != 0 && s'.rank == s.rank[e := s.clock + 1]
    requires s'.bucket == s.bucket[BucketOf(s, e) := e] && s'.link == s.link
    requires Value(s, Link(e)) == Value(s, Bucket(BucketOf(s, e)))
    ensures ChainsInv(s')
  {
    assert LocInv(s, BucketOf(s, e), Bucket(BucketOf(s, e)));
    forall u ensures u in s.rank ==> s.rank[u] <= s.clock { assert EphInv(s, u); }
    forall b, l
      ensures LocInv(s', b, l)
    {
      assert LocInv(s, b, l);
      if LocIn(s', b, l) {
        forall u | Live(s', u) && BucketOf(s', u) == b && After(s', l, u)
          ensures Rk(s', u) <= Rk(s', Value(s', l))
        {
          if u != e { assert Live(s, u); }
        }
      }
    }
  }

  lemma PublishEph(s: State, t: nat, e: nat, tail: nat, d: nat)
    requires EphInv(s, d) && HeldWhilePublishing(s, d) && PcOf(s, t) == PushCas(e, tail)
    requires PcInv(s, t, PcOf(s, t)) && EphInv(s, e) && Value(s, Bucket(BucketOf(s, e))) == tail
    ensures var s' := PublishStep(s, t, e, tail); EphInv(s', d) && HeldWhilePublishing(s', d)
  {
  }

  lemma PublishKeeps(s: State, t: nat, e: nat, tail: nat)
    requires BaseInv(s) && PcOf(s, t) == PushCas(e, tail) && Value(s, Bucket(BucketOf(s, e))) == tail
    ensures BaseInv(PublishStep(s, t, e, tail))
  {
    var s' := PublishStep(s, t, e, tail);
    assert PcInv(s, t, PcOf(s, t)) && EphInv(s, e);
    forall d ensures EphInv(s', d) && HeldWhilePublishing(s', d) { PublishEph(s, t, e, tail, d); }
    forall c, d ensures RanksDiffer(s', c, d) { assert RanksDiffer(s, c, d) && EphInv(s, c) && EphInv(s, d); }
    PublishChains(s, s', e);
    StepKeeps(s, s', t, Recheck(e));
  }

  lemma BatchEph(s: State, t: nat, es: seq<nat>, d: nat)
    requires EphInv(s, d) && HeldWhilePublishing(s, d) && PcOf(s, t) == TraceBatch(es) && es != []
    requires PcInv(s, t, PcOf(s, t)) && EphInv(s, es[0])
    ensures var s' := BatchStep(s, t, es); EphInv(s', d) && HeldWhilePublishing(s', d)
  {
  }

  lemma BatchKeeps(s: State, t: nat, es: seq<nat>)
    requires BaseInv(s) && PcOf(s, t) == TraceBatch(es) && es != []
    ensures BaseInv(BatchStep(s, t, es))
  {
    var s' := BatchStep(s, t, es);
    assert PcInv(s, t, PcOf(s, t)) && EphInv(s, es[0]);
    forall d ensures EphInv(s', d) && HeldWhilePublishing(s', d) { BatchEph(s, t, es, d); }
    forall c, d ensures RanksDiffer(s', c, d) { assert RanksDiffer(s, c, d); }
    ChainsKept(s, s');
    StepKeeps(s, s', t, TraceBatch(es[1..]));
  }

  // ---------- Steps of an idle thread ----------

  lemma ClaimEph(s: State, t: nat, e: nat, d: nat)
    requires EphInv(s, d) && HeldWhilePublishing(s, d) && EphInv(s, e)
    requires PcOf(s, t).Idle? && e != 0 && StOf(s, e).Traced?
    ensures var s' := StartStep(s, t, TraceEphemeron(e)); EphInv(s', d) && HeldWhilePublishing(s', d)
  {
  }

  lemma ClaimKeeps(s: State, t: nat, e: nat)
    requires BaseInv(s) && PcOf(s, t).Idle? && e != 0 && StOf(s, e).Traced?
    ensures BaseInv(StartStep(s, t, TraceEphemeron(e)))
  {
    hide EphInv, HeldWhilePublishing;
    var s' := StartStep(s, t, TraceEphemeron(e));
    forall d ensures EphInv(s', d) && HeldWhilePublishing(s', d) {
      assert EphInv(s, e) && EphInv(s, d) && HeldWhilePublishing(s, d);
      ClaimEph(s, t, e, d);
    }
    forall c, d ensures RanksDiffer(s', c, d) { assert RanksDiffer(s, c, d); }
    ChainsKept(s, s');
    StepKeeps(s, s', t, EpochCheck(e));
  }

  lemma TakeEph(s: State, t: nat, d: nat)
    requires EphInv(s, d) && HeldWhilePublishing(s, d) && PcOf(s, t).Idle? && BatchOk(s, s.stack, Stack)
    ensures var s' := StartStep(s, t, TakeResolved); EphInv(s', d) && HeldWhilePublishing(s', d)
  {
  }

  lemma TakeKeeps(s: State, t: nat)
    requires BaseInv(s) && PcOf(s, t).Idle?
    ensures BaseInv(StartStep(s, t, TakeResolved))
  {
    var s' := StartStep(s, t, TakeResolved);
    forall d ensures EphInv(s', d) && HeldWhilePublishing(s', d) { TakeEph(s, t, d); }
    forall c, d ensures RanksDiffer(s', c, d) { assert RanksDiffer(s, c, d); }
    ChainsKept(s, s');
    StepKeeps(s, s', t, TraceBatch(s.stack));
  }

  /** Marks change nothing that BaseInv mentions. */
  lemma MarkKeeps(s: State, s': State)
    requires BaseInv(s) && s' == s.(marked := s'.marked, moved := s'.moved, phase := s'.phase)
    ensures BaseInv(s')
  {
    forall d ensures EphInv(s', d) && HeldWhilePublishing(s', d) { assert EphInv(s, d) && HeldWhilePublishing(s, d); }
    forall c, d ensures RanksDiffer(s', c, d) { assert RanksDiffer(s, c, d); }
    ChainsKept(s, s');
    forall u ensures PcInv(s', u, PcOf(s', u)) {
      assert PcInv(s, u, PcOf(s, u));
      MarkKeepsPc(s, s', u, PcOf(s, u));
    }
  }

  lemma MarkKeepsPc(s: State, s': State, u: nat, pc: Pc)
    requires EphsInv(s) && PcInv(s, u, pc) && s' == s.(marked := s'.marked, moved := s'.moved, phase := s'.phase)
    ensures PcInv(s', u, pc)
  {
    match pc
    case Skip(w, loc, head, cur) => WalkKept(s, s', w, loc, head, cur);
    case NextOf(w, loc, head, cur) => WalkKept(s, s', w, loc, head, cur);
    case Swing(w, loc, head, cur) => WalkKept(s, s', w, loc, head, cur);
    case _ =>
  }

  lemma WalkBase(s: State, t: nat)
    requires BaseInv(s) && Walking(PcOf(s, t))
    ensures BaseInv(WalkStep(s, t))
  {
    hide BaseInv, EphsInv, ChainsInv;
    var pc := PcOf(s, t);
    BaseParts(s, t);
    match pc
    case Load(w, loc) => LoadOk(s, t, w, loc); MoveKeeps(s, t, LoadPc(s, w, loc));
    case Skip(w, loc, head, cur) => SkipOk(s, t, w, loc, head, cur); MoveKeeps(s, t, SkipPc(s, w, loc, head, cur));
    case NextOf(w, loc, head, cur) =>
      NextOfOk(s, t, w, loc, head, cur);
      MoveKeeps(s, t, Skip(w, loc, head, Value(s, Link(cur))));
    case Swing(w, loc, head, cur) =>
      if Value(s, loc) == head { SwingKeeps(s, t, w, loc, head, cur); } else { SwingLost(s, t, w, loc, head, cur); }
    case Got(w, e) => MoveKeeps(s, t, GotPc(s, w, e));
    case VisitKey(w, e) =>
      if KeyTraced(s, e) { KeyMoveKeeps(s, t, e, TryResolve(w, e)); } else { MoveKeeps(s, t, Load(w, Link(e))); }
    case TryResolve(w, e) =>
      if StOf(s, e).Pending? { ResolveKeeps(s, t, w, e); } else { MoveKeeps(s, t, ContinuePc(w, e)); }
    case PushResolved(w, e) => PushResolvedKeeps(s, t, w, e);
  }

  lemma BaseParts(s: State, t: nat)
    requires BaseInv(s)
    ensures EphsInv(s) && ChainsInv(s) && PcInv(s, t, PcOf(s, t))
  {
  }

  lemma SwingLost(s: State, t: nat, w: Walk, loc: Loc, head: nat, cur: nat)
    requires BaseInv(s) && PcOf(s, t) == Swing(w, loc, head, cur) && Value(s, loc) != head
    ensures BaseInv(SwingStep(s, t, w, loc, head, cur))
  {
    assert PcInv(s, t, PcOf(s, t));
    assert LocInv(s, WalkBucket(s, w), loc);
    if Value(s, loc) == cur {
      MoveKeeps(s, t, FoundPc(s, w, cur));
    } else {
      MoveKeeps(s, t, Skip(w, loc, Value(s, loc), Value(s, loc)));
    }
  }

  lemma OwnerBase(s: State, t: nat)
    requires BaseInv(s) && !Walking(PcOf(s, t))
    ensures BaseInv(OwnerStep(s, t))
  {
    hide BaseInv, EphsInv, ChainsInv, EpochStep;
    BaseParts(s, t);
    match PcOf(s, t)
    case EpochCheck(e) =>
      if e in s.current { EpochSeen(s, t, e); } else { EpochKeeps(s, t, e); }
    case StoreTraced(e) => StoreTracedKeeps(s, t, e);
    case VisitOwnKey(e) =>
      if KeyTraced(s, e) { VisitOwnKeeps(s, t, e); } else { MoveKeeps(s, t, SetPending(e)); }
    case SetPending(e) => SetPendingKeeps(s, t, e);
    case PushLoad(e) => PushLoadOk(s, t, e); MoveKeeps(s, t, PushLink(e, Value(s, Bucket(BucketOf(s, e)))));
    case PushLink(e, tail) => PushLinkKeeps(s, t, e, tail);
    case PushCas(e, tail) =>
      if Value(s, Bucket(BucketOf(s, e))) == tail { PublishKeeps(s, t, e, tail); } else { PublishLost(s, t, e, tail); }
    case Recheck(e) =>
      if KeyTraced(s, e) { KeyMoveKeeps(s, t, e, TryResolve(Own, e)); } else { MoveKeeps(s, t, Idle); }
    case TraceBatch(es) =>
      if es == [] { MoveKeeps(s, t, Idle); } else { BatchKeeps(s, t, es); }
    case _ =>
  }

  lemma EpochSeen(s: State, t: nat, e: nat)
    requires BaseInv(s) && PcOf(s, t) == EpochCheck(e) && e in s.current
    ensures BaseInv(EpochStep(s, t, e))
  {
    assert PcInv(s, t, PcOf(s, t));
    MoveKeeps(s, t, StoreTraced(e));
  }

  lemma PublishLost(s: State, t: nat, e: nat, tail: nat)
    requires BaseInv(s) && PcOf(s, t) == PushCas(e, tail) && Value(s, Bucket(BucketOf(s, e))) != tail
    ensures BaseInv(PublishStep(s, t, e, tail))
  {
    assert PcInv(s, t, PcOf(s, t));
    assert LocInv(s, BucketOf(s, e), Bucket(BucketOf(s, e)));
    MoveKeeps(s, t, PushLink(e, Value(s, Bucket(BucketOf(s, e)))));
  }

  lemma StartBase(s: State, t: nat, c: Choice)
    requires BaseInv(s) && PcOf(s, t).Idle?
    ensures BaseInv(StartStep(s, t, c))
  {
    hide BaseInv;
    match c
    case Mark(k, moves) =>
      if k !in s.marked {
        var pc := if s.phase.Eager? then Load(Resolve(k), Bucket(s.hash(k))) else Idle;
        MoveKeeps(s, t, pc);
        MarkKeeps(At(s, t, pc), StartStep(s, t, c));
      }
    case TraceEphemeron(e) => if e != 0 && StOf(s, e).Traced? { ClaimKeeps(s, t, e); }
    case TakeResolved => TakeKeeps(s, t);
    case _ =>
  }

  /** Every step of every thread keeps the table, the claims and the histories in order. */
  lemma StepBase(s: State, t: nat, c: Choice)
    requires BaseInv(s)
    ensures BaseInv(Step(s, t, c))
  {
    hide BaseInv, StartStep, WalkStep, OwnerStep;
    if s.phase.Scanning? && t != 0 {
    } else if PcOf(s, t).Idle? {
      if c.StartScan? {
        if s.phase.Lazy? && AllIdle(s) && t == 0 && s.nbuckets > 0 {
          MoveKeeps(s, 0, Load(Scan(0), Bucket(0)));
          MarkKeeps(At(s, 0, Load(Scan(0), Bucket(0))), Step(s, t, c));
        }
      } else if s.phase.Scanning? {
        MarkKeeps(s, Step(s, t, c));
      } else {
        StartBase(s, t, c);
      }
    } else if Walking(PcOf(s, t)) {
      WalkBase(s, t);
    } else {
      OwnerBase(s, t);
    }
  }

  // ---------- Where a walk goes next ----------

  function SwingPc(s: State, w: Walk, loc: Loc, head: nat, cur: nat): Pc {
    var now := Value(s, loc);
    if now == head || now == cur then FoundPc(s, w, cur) else Skip(w, loc, now, now)
  }

  function NextPc(s: State, pc: Pc): Pc {
    match pc
    case Load(w, loc) => LoadPc(s, w, loc)
    case Skip(w, loc, head, cur) => SkipPc(s, w, loc, head, cur)
    case NextOf(w, loc, head, cur) => Skip(w, loc, head, Value(s, Link(cur)))
    case Swing(w, loc, head, cur) => SwingPc(s, w, loc, head, cur)
    case Got(w, e) => GotPc(s, w, e)
    case VisitKey(w, e) => if KeyTraced(s, e) then TryResolve(w, e) else Load(w, Link(e))
    case TryResolve(w, e) => if StOf(s, e) == Pending then PushResolved(w, e) else ContinuePc(w, e)
    case PushResolved(w, e) => ContinuePc(w, e)
    case _ => pc
  }
}
