/**
  Work distribution and termination detection of src/parallel-tracer.h, with the root
  queue of src/root-worklist.h.

  Worker 0 is the main tracer; workers 1 to n-1 are helper threads, each parked on its own
  lock.  Every lock operation, fetch-and-add, atomic load and deque operation is one step,
  and steps of different workers interleave arbitrarily.  Condition-variable wakeups may
  be late, lost or spurious.  A worker's deque is the abstract sequence that
  WorkStealingDeque shows the Chase-Lev deque to implement; a steal may also give nothing.
  A run is any number of traces, roots-only or full, one after the other.
*/
module ParallelTracer {
  import D = WorkStealingDeque

  type Ref = int

  datatype Holder = Free | Main | Self

  /** Program points of a worker.  The first two groups belong to worker 0 only, the third
      to helpers only; the rest are trace_with_data and are shared. */
  datatype Pc =
    // gc_tracer_trace
    | Outside                    // between traces, adding roots
    | Unlocking(k: nat)
    | Waking
    | Resetting
    // trace_worker_should_continue and the roots-only barrier
    | LockRoots(k: nat)
    | TryLock(k: nat)
    | Check(start: nat, j: nat)
    | UnlockBack(k: nat)
    // trace_worker_thread
    | WantLock
    | CheckEpoch
    | Release                    // about to give up its lock in pthread_cond_wait
    | CondWait
    // trace_with_data
    | Begin
    | PopRoot
    | InRoot(root: nat)
    | AfterRoots
    | TryPop
    | Steal(start: nat, j: nat)
    | InObject(obj: Ref)
    | Decide
    | Leave

  datatype State = State(
    n: nat,                      // worker_count
    locks: seq<Holder>,          // locks[0] is not used
    epoch: nat,
    seen: seq<nat>,              // each helper's trace_epoch
    rootsOnly: bool,
    read: nat, roots: seq<nat>,  // root_worklist
    active: int,                 // active_tracers
    deques: seq<seq<Ref>>,
    stealId: seq<nat>,
    pcs: seq<Pc>,
    // history: roots added and roots finished, objects enqueued and objects traced, ever
    addedRoots: multiset<nat>,
    finishedRoots: multiset<nat>,
    enqueued: multiset<Ref>,
    traced: multiset<Ref>)

  /** What the running worker does where it has a choice. */
  datatype Choice =
    | Go
    | Emit(ref: Ref)             // trace_root or trace_one discovers a new object
    | Unpark                     // tracer_maybe_unpark_workers
    | Miss                       // a steal gives nothing, as it may while others are taking from the deque
    | AddRoot(root: nat)
    | Prepare                    // gc_tracer_prepare
    | StartTrace(only: bool)

  function Init(n: nat): State
    requires n > 0
  {
    State(n, seq(n, _ => Main), 0, seq(n, _ => 0), false, 0, [], 0, seq(n, _ => []), seq(n, _ => 0),
          [Outside] + seq(n - 1, _ => WantLock), multiset{}, multiset{}, multiset{}, multiset{})
  }

  ghost predicate Shape(s: State) {
    && s.n > 0
    && |s.locks| == |s.seen| == |s.deques| == |s.stealId| == |s.pcs| == s.n
  }

  function Wrap(i: nat, n: nat): (r: nat)
    requires n > 0
    ensures r < n
  {
    i % n
  }

  /** Each worker first looks at the one after it. */
  function Neighbours(n: nat): (r: seq<nat>)
    requires n > 0
    ensures |r| == n && forall i :: 0 <= i < n ==> r[i] == if i + 1 < n then i + 1 else 0
  {
    seq(n, i requires 0 <= i < n => Wrap(i + 1, n))
  }

  function At(s: State, w: nat, pc: Pc): State
    requires w < |s.pcs|
  {
    s.(pcs := s.pcs[w := pc])
  }

  /** gc_tracer_trace and the lock loops of the main worker. */
  function MainStep(s: State, c: Choice): State
    requires Shape(s)
  {
    match s.pcs[0]
    case Outside => (
      match c
      case AddRoot(root) => s.(roots := s.roots + [root], addedRoots := s.addedRoots + multiset{root})
      case Prepare => s.(stealId := Neighbours(s.n))
      case StartTrace(only) => At(s, 0, Unlocking(1)).(rootsOnly := only)
      case _ => s)
    case Unlocking(k) =>
      if k < s.n then At(s, 0, Unlocking(k + 1)).(locks := s.locks[k := Free]) else At(s, 0, Waking)
    case Waking => At(s, 0, Begin).(epoch := s.epoch + 1)
    case LockRoots(k) =>
      if k >= s.n then At(s, 0, Leave)
      else if s.locks[k].Free? then At(s, 0, LockRoots(k + 1)).(locks := s.locks[k := Main])
      else s
    case TryLock(k) =>
      if k >= s.n then At(s, 0, Check(s.stealId[0], 0))
      else if s.locks[k].Free? then At(s, 0, TryLock(k + 1)).(locks := s.locks[k := Main])
      else At(s, 0, UnlockBack(k))
    case Check(start, j) =>
      if j == s.n then At(s, 0, Leave)
      else if s.deques[Wrap(start + j, s.n)] != [] then At(s, 0, UnlockBack(s.n))
      else At(s, 0, Check(start, j + 1)).(stealId := s.stealId[0 := Wrap(start + j + 1, s.n)])
    case UnlockBack(k) =>
      if 1 < k <= s.n then At(s, 0, UnlockBack(k - 1)).(locks := s.locks[k - 1 := Free])
      else At(s, 0, TryPop)
    case Resetting =>
      At(s, 0, Outside).(read := 0, roots := [], rootsOnly := false)
    case _ => s
  }

  /** trace_worker_thread: only a helper that holds its own lock looks at the epoch. */
  function ParkStep(s: State, w: nat): State
    requires Shape(s) && 0 < w < s.n
  {
    match s.pcs[w]
    case WantLock => if s.locks[w].Free? then At(s, w, CheckEpoch).(locks := s.locks[w := Self]) else s
    case CheckEpoch =>
      if s.seen[w] != s.epoch then At(s, w, Begin).(seen := s.seen[w := s.epoch])
      else At(s, w, Release)
    case Release => At(s, w, CondWait).(locks := s.locks[w := Free])
    case CondWait => At(s, w, WantLock)
    case _ => s
  }

  /** trace_with_data up to the end of the roots, and the way out of it. */
  function RootStep(s: State, w: nat, c: Choice): State
    requires Shape(s) && w < s.n
  {
    match s.pcs[w]
    case Begin => At(s, w, PopRoot).(active := s.active + 1)
    case PopRoot =>
      At(s, w, if s.read < |s.roots| then InRoot(s.roots[s.read]) else AfterRoots).(read := s.read + 1)
    case InRoot(r) =>
      if c.Emit? then s.(deques := s.deques[w := s.deques[w] + [c.ref]], enqueued := s.enqueued + multiset{c.ref})
      else At(s, w, PopRoot).(finishedRoots := s.finishedRoots + multiset{r})
    case AfterRoots => At(s, w, if !s.rootsOnly then TryPop else if w == 0 then LockRoots(1) else Leave)
    case Leave =>
      At(s, w, if w == 0 then Resetting else Release).(active := s.active - 1)
    case _ => s
  }

  /** The object loop of trace_with_data, with trace_worker_steal_from_any. */
  function ObjectStep(s: State, w: nat, c: Choice): State
    requires Shape(s) && w < s.n
  {
    match s.pcs[w]
    case TryPop =>
      var q := s.deques[w];
      if c.Unpark? && w == 0 then (if s.active < s.n then s.(epoch := s.epoch + 1) else s)
      else if q == [] then At(s, w, Steal(s.stealId[w], 0))
      else At(s, w, InObject(q[|q| - 1])).(deques := s.deques[w := q[..|q| - 1]])
    case Steal(start, j) =>
      if j == s.n then At(s, w, Decide)
      else
        var v := Wrap(start + j, s.n);
        var q := s.deques[v];
        if q == [] || c.Miss? then At(s, w, Steal(start, j + 1)).(stealId := s.stealId[w := Wrap(start + j + 1, s.n)])
        else At(s, w, InObject(q[0])).(deques := s.deques[v := q[1..]])
    case InObject(o) =>
      if c.Emit? then s.(deques := s.deques[w := s.deques[w] + [c.ref]], enqueued := s.enqueued + multiset{c.ref})
      else At(s, w, TryPop).(traced := s.traced + multiset{o})
    case Decide => At(s, w, if w != 0 then Leave else if s.active != 1 then TryPop else TryLock(1))
    case _ => s
  }

  /** trace_with_data, the same code for every worker. */
  function WorkStep(s: State, w: nat, c: Choice): State
    requires Shape(s) && w < s.n
  {
    if InObjects(s.pcs[w]) then ObjectStep(s, w, c) else RootStep(s, w, c)
  }

  predicate InObjects(pc: Pc) {
    pc.TryPop? || pc.Steal? || pc.InObject? || pc.Decide?
  }

  ghost predicate InTrace(pc: Pc) {
    pc.Begin? || pc.PopRoot? || pc.InRoot? || pc.AfterRoots? || pc.TryPop? || pc.Steal? || pc.InObject?
    || pc.Decide? || pc.Leave?
  }

  ghost predicate Parking(pc: Pc) {
    pc.WantLock? || pc.CheckEpoch? || pc.Release? || pc.CondWait?
  }

  /** One step of worker `w`. */
  ghost function Step(s: State, w: nat, c: Choice): State
    requires Shape(s)
  {
    if w >= s.n then s
    else if InTrace(s.pcs[w]) then WorkStep(s, w, c)
    else if w == 0 then MainStep(s, c)
    else ParkStep(s, w)
  }

  // ---------- Counting ----------

  /** What a program point may hold: a place in `active_tracers`, a root, an object. */
  datatype Token = Active | Root(r: nat) | Obj(o: Ref)

  ghost function Holds(pc: Pc, t: Token): nat {
    match t
    case Root(r) => if pc == InRoot(r) then 1 else 0
    case Obj(o) => if pc == InObject(o) then 1 else 0
    case Active =>
      if (InTrace(pc) && !pc.Begin?) || pc.LockRoots? || pc.TryLock? || pc.Check? || pc.UnlockBack? then 1 else 0
  }

  /** How many workers hold token `t`. */
  ghost function Held(pcs: seq<Pc>, t: Token): nat {
    if pcs == [] then 0 else Holds(pcs[0], t) + Held(pcs[1..], t)
  }

  /** How many copies of `o` the deques hold. */
  ghost function Queued(qs: seq<seq<Ref>>, o: Ref): nat {
    if qs == [] then 0 else multiset(qs[0])[o] + Queued(qs[1..], o)
  }

  lemma {:induction false} HeldUpdate(pcs: seq<Pc>, w: nat, pc: Pc, t: Token)
    requires w < |pcs|
    ensures Held(pcs[w := pc], t) == Held(pcs, t) - Holds(pcs[w], t) + Holds(pc, t)
  {
    hide Holds;
    if w == 0 {
      assert pcs[w := pc][1..] == pcs[1..];
    } else {
      HeldUpdate(pcs[1..], w - 1, pc, t);
      assert pcs[w := pc][1..] == pcs[1..][w - 1 := pc];
    }
  }

  lemma {:induction false} QueuedUpdate(qs: seq<seq<Ref>>, w: nat, q: seq<Ref>, o: Ref)
    requires w < |qs|
    ensures Queued(qs[w := q], o) == Queued(qs, o) - multiset(qs[w])[o] + multiset(q)[o]
  {
    if w == 0 {
      assert qs[w := q][1..] == qs[1..];
    } else {
      QueuedUpdate(qs[1..], w - 1, q, o);
      assert qs[w := q][1..] == qs[1..][w - 1 := q];
    }
  }

  lemma {:induction false} NoneHeld(pcs: seq<Pc>, t: Token)
    requires forall i :: 0 <= i < |pcs| ==> Holds(pcs[i], t) == 0
    ensures Held(pcs, t) == 0
  {
    hide Holds;
    if pcs != [] { NoneHeld(pcs[1..], t); }
  }

  lemma {:induction false} NoneQueued(qs: seq<seq<Ref>>, o: Ref)
    requires forall i :: 0 <= i < |qs| ==> qs[i] == []
    ensures Queued(qs, o) == 0
  {
    if qs != [] { NoneQueued(qs[1..], o); }
  }

  // ---------- Invariant ----------

  /** Which helper locks worker 0 holds at each of its program points. */
  ghost predicate MainHolds(pc: Pc, i: nat) {
    match pc
    case Outside => true
    case Unlocking(k) => i >= k
    case LockRoots(k) => i < k
    case TryLock(k) => i < k
    case Check(_, _) => true
    case UnlockBack(k) => i < k
    case Leave => true
    case Resetting => true
    case _ => false
  }

  /** Worker 0 never parks, helpers never run main's loops, and a helper runs only while it
      holds its own lock. */
  ghost predicate LocksInv(s: State)
    requires Shape(s)
  {
    && !Parking(s.pcs[0])
    && (match s.pcs[0]
        case Unlocking(k) => 1 <= k <= s.n
        case LockRoots(k) => 1 <= k <= s.n
        case TryLock(k) => 1 <= k <= s.n
        case UnlockBack(k) => 1 <= k <= s.n
        case Check(_, j) => j <= s.n
        case _ => true)
    && forall i :: 0 < i < s.n ==> HelperLock(s, i)
  }

  ghost predicate HelperLock(s: State, i: nat)
    requires Shape(s) && i < s.n
  {
    && (InTrace(s.pcs[i]) || Parking(s.pcs[i]))
    && (s.locks[i].Self? <==> InTrace(s.pcs[i]) || s.pcs[i].CheckEpoch? || s.pcs[i].Release?)
    && (s.locks[i].Main? <==> MainHolds(s.pcs[0], i))
  }

  ghost predicate PastRoots(pc: Pc) {
    pc.AfterRoots? || pc.TryPop? || pc.Steal? || pc.InObject? || pc.Decide? || pc.Leave? || pc.LockRoots?
    || pc.TryLock? || pc.Check? || pc.UnlockBack? || pc.Resetting?
  }

  ghost function Victim(s: State, start: nat, i: nat): seq<Ref>
    requires Shape(s)
  {
    s.deques[Wrap(start + i, s.n)]
  }

  /** What worker 0 knows at each point of its own loop. */
  ghost predicate PhaseInv(s: State)
    requires Shape(s)
  {
    var pc := s.pcs[0];
    && (PastRoots(pc) ==> s.read >= |s.roots|)
    && (pc.Outside? ==> s.read == 0)
    && s.stealId[0] < s.n
    && (pc.LockRoots? ==> s.rootsOnly)
    && (pc.TryPop? || pc.Steal? || pc.InObject? || pc.Decide? || pc.TryLock? || pc.Check? || pc.UnlockBack?
        ==> !s.rootsOnly)
    && (pc.Check? ==> pc.start < s.n && forall i: nat :: i < pc.j ==> Victim(s, pc.start, i) == [])
    && ((pc.Leave? || pc.Resetting?) && !s.rootsOnly ==> DequesEmpty(s))
  }

  ghost predicate DequesEmpty(s: State) {
    forall i :: 0 <= i < |s.deques| ==> s.deques[i] == []
  }

  /** The roots that nobody has taken yet. */
  ghost function Waiting(roots: seq<nat>, read: nat): multiset<nat> {
    if read < |roots| then multiset(roots[read..]) else multiset{}
  }

  /** Each time `r` was added it still waits, or is in one worker's hands, or finished. */
  ghost predicate RootOnce(s: State, r: nat) {
    s.addedRoots[r] == s.finishedRoots[r] + Held(s.pcs, Root(r)) + Waiting(s.roots, s.read)[r]
  }

  /** Each time `o` was enqueued it is still queued, or in one worker's hands, or traced. */
  ghost predicate ObjectOnce(s: State, o: Ref) {
    s.enqueued[o] == s.traced[o] + Held(s.pcs, Obj(o)) + Queued(s.deques, o)
  }

  ghost predicate CountInv(s: State) {
    && Held(s.pcs, Active) == s.active
    && (forall r: nat :: RootOnce(s, r))
    && (forall o :: ObjectOnce(s, o))
  }

  /** In a roots-only trace no worker, main or helper, comes to the object loop; and no worker is past the
      roots while one waits. */
  ghost predicate RootsOnlyInv(s: State)
    requires Shape(s)
  {
    && (s.rootsOnly ==> !s.pcs[0].Outside? && forall i :: 0 <= i < s.n ==> !InObjects(s.pcs[i]))
    && (forall i :: 0 <= i < s.n && s.pcs[i].AfterRoots? ==> s.read >= |s.roots|)
  }

  ghost predicate Inv(s: State) {
    Shape(s) && LocksInv(s) && PhaseInv(s) && RootsOnlyInv(s) && CountInv(s)
  }

  lemma InitInv(n: nat)
    requires n > 0
    ensures Inv(Init(n))
  {
    var s := Init(n);
    NoneHeld(s.pcs, Active);
    forall r: nat ensures RootOnce(s, r) { NoneHeld(s.pcs, Root(r)); }
    forall o ensures ObjectOnce(s, o) { NoneHeld(s.pcs, Obj(o)); NoneQueued(s.deques, o); }
    forall i | 0 < i < n ensures HelperLock(s, i) {}
  }

  lemma MainShape(s: State, c: Choice)
    requires Shape(s)
    ensures Shape(MainStep(s, c)) && MainStep(s, c).n == s.n
  {
    hide Wrap;
  }

  lemma ParkShape(s: State, w: nat)
    requires Shape(s) && 0 < w < s.n
    ensures Shape(ParkStep(s, w)) && ParkStep(s, w).n == s.n
  {
    hide Wrap;
  }

  ghost predicate WorkFrame(s: State, w: nat, s': State)
    requires Shape(s) && w < s.n
  {
    && Shape(s') && s'.n == s.n
    && s'.pcs == s.pcs[w := s'.pcs[w]]
    && s'.locks == s.locks
    && (!s.pcs[w].Leave? ==>
          && (w == 0 ==> !s'.pcs[0].Leave?)
          && (InTrace(s'.pcs[w]) || (w == 0 && (s'.pcs[0] == LockRoots(1) || s'.pcs[0] == TryLock(1)))))
    && (s.pcs[w].Leave? ==> s'.pcs[w] == if w == 0 then Resetting else Release)
  }

  lemma RootFrame(s: State, w: nat, c: Choice)
    requires Shape(s) && w < s.n && InTrace(s.pcs[w]) && !InObjects(s.pcs[w])
    ensures WorkFrame(s, w, RootStep(s, w, c))
  {
  }

  lemma ObjectFrame(s: State, w: nat, c: Choice)
    requires Shape(s) && w < s.n && InObjects(s.pcs[w])
    ensures WorkFrame(s, w, ObjectStep(s, w, c))
  {
    hide Wrap, ObjectStep, WorkFrame;
    if s.pcs[w].TryPop? || s.pcs[w].Steal? { TakeFrame(s, w, c); } else { TraceFrame(s, w, c); }
  }

  lemma TakeFrame(s: State, w: nat, c: Choice)
    requires Shape(s) && w < s.n && (s.pcs[w].TryPop? || s.pcs[w].Steal?)
    ensures WorkFrame(s, w, ObjectStep(s, w, c))
  {
    hide Wrap;
  }

  lemma TraceFrame(s: State, w: nat, c: Choice)
    requires Shape(s) && w < s.n && (s.pcs[w].InObject? || s.pcs[w].Decide?)
    ensures WorkFrame(s, w, ObjectStep(s, w, c))
  {
    hide Wrap;
  }

  lemma WorkShape(s: State, w: nat, c: Choice)
    requires Shape(s) && w < s.n && InTrace(s.pcs[w])
    ensures WorkFrame(s, w, WorkStep(s, w, c))
  {
    hide Wrap, RootStep, ObjectStep, WorkFrame;
    if InObjects(s.pcs[w]) { ObjectFrame(s, w, c); } else { RootFrame(s, w, c); }
  }

  /** Every residue is among `n` consecutive ones, so a full round of checks sees every deque. */
  lemma RoundCoversAll(n: nat, start: nat, v: nat) returns (i: nat)
    requires start < n && v < n
    ensures i < n && Wrap(start + i, n) == v
  {
    i := if v >= start then v - start else v + n - start;
    if v < start {
      assert start + i == v + n;
      assert (v + n) % n == v;
    }
  }

  lemma MainTakesLocks(s: State, c: Choice)
    requires Shape(s) && LocksInv(s) && (s.pcs[0].LockRoots? || s.pcs[0].TryLock?)
    ensures Shape(MainStep(s, c)) && LocksInv(MainStep(s, c))
  {
    hide Wrap;
    var s' := MainStep(s, c);
    MainShape(s, c);
    forall i | 0 < i < s.n
      ensures HelperLock(s', i)
    {
      assert HelperLock(s, i);
    }
  }

  lemma MainGivesLocks(s: State, c: Choice)
    requires Shape(s) && LocksInv(s) && (s.pcs[0].Unlocking? || s.pcs[0].UnlockBack?)
    ensures Shape(MainStep(s, c)) && LocksInv(MainStep(s, c))
  {
    hide Wrap;
    var s' := MainStep(s, c);
    MainShape(s, c);
    forall i | 0 < i < s.n
      ensures HelperLock(s', i)
    {
      assert HelperLock(s, i);
    }
  }

  lemma MainKeepsLocks(s: State, c: Choice)
    requires Shape(s) && LocksInv(s)
    requires s.pcs[0].Outside? || s.pcs[0].Waking? || s.pcs[0].Check? || s.pcs[0].Resetting?
    ensures Shape(MainStep(s, c)) && LocksInv(MainStep(s, c))
  {
    hide Wrap;
    var s' := MainStep(s, c);
    MainShape(s, c);
    forall i | 0 < i < s.n
      ensures HelperLock(s', i)
    {
      assert HelperLock(s, i);
    }
  }

  lemma MainLocks(s: State, c: Choice)
    requires Shape(s) && LocksInv(s) && !InTrace(s.pcs[0])
    ensures Shape(MainStep(s, c)) && LocksInv(MainStep(s, c))
  {
    hide MainStep;
    match s.pcs[0]
    case LockRoots(_) => MainTakesLocks(s, c);
    case TryLock(_) => MainTakesLocks(s, c);
    case Unlocking(_) => MainGivesLocks(s, c);
    case UnlockBack(_) => MainGivesLocks(s, c);
    case _ => MainKeepsLocks(s, c);
  }

  lemma CheckPhase(s: State, c: Choice)
    requires Shape(s) && LocksInv(s) && PhaseInv(s) && s.pcs[0].Check?
    ensures Shape(MainStep(s, c)) && PhaseInv(MainStep(s, c))
  {
    var s' := MainStep(s, c);
    var start, j := s.pcs[0].start, s.pcs[0].j;
    if j == s.n {
      forall v: nat | v < s.n
        ensures s.deques[v] == []
      {
        var i := RoundCoversAll(s.n, start, v);
        assert Victim(s, start, i) == [];
      }
    } else {
      forall i: nat | i < j + 1 && s'.pcs[0].Check?
        ensures Victim(s', start, i) == []
      {
        assert Victim(s, start, i) == Victim(s', start, i);
      }
    }
  }

  lemma LockPhase(s: State, c: Choice)
    requires Shape(s) && PhaseInv(s)
    requires s.pcs[0].LockRoots? || s.pcs[0].TryLock? || s.pcs[0].UnlockBack?
    ensures Shape(MainStep(s, c)) && PhaseInv(MainStep(s, c))
  {
    hide Wrap;
  }

  lemma OuterPhase(s: State, c: Choice)
    requires Shape(s) && PhaseInv(s)
    requires s.pcs[0].Outside? || s.pcs[0].Unlocking? || s.pcs[0].Waking? || s.pcs[0].Resetting?
    ensures Shape(MainStep(s, c)) && PhaseInv(MainStep(s, c))
  {
    hide Wrap;
  }

  lemma MainPhase(s: State, c: Choice)
    requires Shape(s) && LocksInv(s) && PhaseInv(s) && !InTrace(s.pcs[0])
    ensures Shape(MainStep(s, c)) && PhaseInv(MainStep(s, c))
  {
    hide PhaseInv, MainStep;
    match s.pcs[0]
    case Check(_, _) => CheckPhase(s, c);
    case LockRoots(_) => LockPhase(s, c);
    case TryLock(_) => LockPhase(s, c);
    case UnlockBack(_) => LockPhase(s, c);
    case _ => OuterPhase(s, c);
  }

  lemma ParkLocks(s: State, w: nat)
    requires Shape(s) && LocksInv(s) && 0 < w < s.n && !InTrace(s.pcs[w])
    ensures Shape(ParkStep(s, w)) && LocksInv(ParkStep(s, w))
  {
    var s' := ParkStep(s, w);
    forall i | 0 < i < s.n
      ensures HelperLock(s', i)
    {
      assert HelperLock(s, i);
    }
  }

  lemma ParkPhase(s: State, w: nat)
    requires Shape(s) && PhaseInv(s) && 0 < w < s.n && !InTrace(s.pcs[w])
    ensures Shape(ParkStep(s, w)) && PhaseInv(ParkStep(s, w))
  {
    var s' := ParkStep(s, w);
    if s.pcs[0].Check? {
      assert forall i: nat :: i < s.pcs[0].j ==> Victim(s', s.pcs[0].start, i) == Victim(s, s.pcs[0].start, i);
    }
  }

  lemma HelperWorkLocks(s: State, w: nat, c: Choice)
    requires Shape(s) && LocksInv(s) && 0 < w < s.n && InTrace(s.pcs[w])
    ensures Shape(WorkStep(s, w, c)) && LocksInv(WorkStep(s, w, c))
  {
    hide WorkStep;
    var s' := WorkStep(s, w, c);
    WorkShape(s, w, c);
    forall i | 0 < i < s.n
      ensures HelperLock(s', i)
    {
      assert HelperLock(s, i);
    }
  }

  lemma MainWorkLocks(s: State, c: Choice)
    requires Shape(s) && LocksInv(s) && InTrace(s.pcs[0])
    ensures Shape(WorkStep(s, 0, c)) && LocksInv(WorkStep(s, 0, c))
  {
    hide WorkStep;
    var s' := WorkStep(s, 0, c);
    WorkShape(s, 0, c);
    forall i | 0 < i < s.n
      ensures HelperLock(s', i)
    {
      assert HelperLock(s, i);
    }
  }

  lemma WorkLocks(s: State, w: nat, c: Choice)
    requires Shape(s) && LocksInv(s) && w < s.n && InTrace(s.pcs[w])
    ensures Shape(WorkStep(s, w, c)) && LocksInv(WorkStep(s, w, c))
  {
    hide WorkStep, LocksInv;
    if w == 0 { MainWorkLocks(s, c); } else { HelperWorkLocks(s, w, c); }
  }

  lemma RootPhase(s: State, w: nat, c: Choice)
    requires Shape(s) && LocksInv(s) && PhaseInv(s) && w < s.n && InTrace(s.pcs[w]) && !InObjects(s.pcs[w])
    ensures Shape(RootStep(s, w, c)) && PhaseInv(RootStep(s, w, c))
  {
    if w > 0 { assert HelperLock(s, w); }
  }

  lemma ObjectPhase(s: State, w: nat, c: Choice)
    requires Shape(s) && LocksInv(s) && PhaseInv(s) && w < s.n && InObjects(s.pcs[w])
    ensures Shape(ObjectStep(s, w, c)) && PhaseInv(ObjectStep(s, w, c))
  {
    hide Wrap, ObjectStep, PhaseInv, LocksInv;
    if s.pcs[w].TryPop? || s.pcs[w].Steal? { TakePhase(s, w, c); } else { TracePhase(s, w, c); }
  }

  lemma TakePhase(s: State, w: nat, c: Choice)
    requires Shape(s) && LocksInv(s) && PhaseInv(s) && w < s.n && (s.pcs[w].TryPop? || s.pcs[w].Steal?)
    ensures Shape(ObjectStep(s, w, c)) && PhaseInv(ObjectStep(s, w, c))
  {
    hide Wrap;
    if w > 0 { assert HelperLock(s, w); }
  }

  lemma TracePhase(s: State, w: nat, c: Choice)
    requires Shape(s) && LocksInv(s) && PhaseInv(s) && w < s.n && (s.pcs[w].InObject? || s.pcs[w].Decide?)
    ensures Shape(ObjectStep(s, w, c)) && PhaseInv(ObjectStep(s, w, c))
  {
    hide Wrap;
    if w > 0 { assert HelperLock(s, w); }
  }

  lemma WorkPhase(s: State, w: nat, c: Choice)
    requires Shape(s) && LocksInv(s) && PhaseInv(s) && w < s.n && InTrace(s.pcs[w])
    ensures Shape(WorkStep(s, w, c)) && PhaseInv(WorkStep(s, w, c))
  {
    hide RootStep, ObjectStep, LocksInv, PhaseInv;
    if InObjects(s.pcs[w]) { ObjectPhase(s, w, c); } else { RootPhase(s, w, c); }
  }

  lemma WorkRootsOnly(s: State, w: nat, c: Choice)
    requires Shape(s) && RootsOnlyInv(s) && w < s.n && InTrace(s.pcs[w])
    ensures Shape(WorkStep(s, w, c)) && RootsOnlyInv(WorkStep(s, w, c))
  {
    hide Wrap, ObjectStep, RootStep;
    WorkShape(s, w, c);
    if InObjects(s.pcs[w]) { ObjectSameKind(s, w, c); } else { RootSameKind(s, w, c); }
  }

  lemma ObjectSameKind(s: State, w: nat, c: Choice)
    requires Shape(s) && w < s.n
    ensures var s' := ObjectStep(s, w, c);
      && s'.rootsOnly == s.rootsOnly && s'.read == s.read && s'.roots == s.roots
      && (w < |s'.pcs| && s'.pcs[w].AfterRoots? ==> s.pcs[w].AfterRoots?)
  {
    hide Wrap;
  }

  lemma RootSameKind(s: State, w: nat, c: Choice)
    requires Shape(s) && w < s.n
    ensures var s' := RootStep(s, w, c);
      && s'.rootsOnly == s.rootsOnly && s'.roots == s.roots && s.read <= s'.read && w < |s'.pcs|
      && (InObjects(s'.pcs[w]) ==> InObjects(s.pcs[w]) || !s.rootsOnly)
      && (s'.pcs[w].AfterRoots? ==> s.pcs[w].AfterRoots? || s'.read >= |s.roots|)
  {
    hide RootStep, InObjects;
    RootSameRoots(s, w, c);
    RootPoint(s, w, c);
  }

  lemma RootSameRoots(s: State, w: nat, c: Choice)
    requires Shape(s) && w < s.n
    ensures var s' := RootStep(s, w, c); s'.rootsOnly == s.rootsOnly && s'.roots == s.roots && s.read <= s'.read
  {
  }

  lemma RootPoint(s: State, w: nat, c: Choice)
    requires Shape(s) && w < s.n
    ensures var s' := RootStep(s, w, c);
      && w < |s'.pcs|
      && (InObjects(s'.pcs[w]) ==> InObjects(s.pcs[w]) || !s.rootsOnly)
      && (s'.pcs[w].AfterRoots? ==> s.pcs[w].AfterRoots? || s'.read >= |s.roots|)
  {
  }

  lemma MainRootsOnly(s: State, c: Choice)
    requires Shape(s) && LocksInv(s) && PhaseInv(s) && RootsOnlyInv(s) && !InTrace(s.pcs[0])
    ensures Shape(MainStep(s, c)) && RootsOnlyInv(MainStep(s, c))
  {
    hide Wrap;
    MainShape(s, c);
    if s.pcs[0].Outside? || s.pcs[0].Resetting? {
      forall i | 0 < i < s.n ensures !InObjects(s.pcs[i]) && !s.pcs[i].AfterRoots? { assert HelperLock(s, i); }
    }
  }

  lemma ParkRootsOnly(s: State, w: nat)
    requires Shape(s) && RootsOnlyInv(s) && 0 < w < s.n && !InTrace(s.pcs[w])
    ensures Shape(ParkStep(s, w)) && RootsOnlyInv(ParkStep(s, w))
  {
  }

  // ---------- Conservation ----------

  /** A step that changes one program point and no deque and no history. */
  lemma OnlyPcMoved(s: State, s': State, w: nat)
    requires Shape(s) && Shape(s') && CountInv(s) && w < s.n
    requires |s'.pcs| == |s.pcs| && s'.pcs == s.pcs[w := s'.pcs[w]]
    requires s'.deques == s.deques && s'.enqueued == s.enqueued
    requires s'.active == s.active - Holds(s.pcs[w], Active) + Holds(s'.pcs[w], Active)
    requires forall r: nat ::
      s'.finishedRoots[r] + Holds(s'.pcs[w], Root(r)) + Waiting(s'.roots, s'.read)[r] + s.addedRoots[r]
      == s.finishedRoots[r] + Holds(s.pcs[w], Root(r)) + Waiting(s.roots, s.read)[r] + s'.addedRoots[r]
    requires forall o :: s'.traced[o] + Holds(s'.pcs[w], Obj(o)) == s.traced[o] + Holds(s.pcs[w], Obj(o))
    ensures CountInv(s')
  {
    hide Holds, Held, Queued, Waiting;
    HeldUpdate(s.pcs, w, s'.pcs[w], Active);
    forall r: nat
      ensures RootOnce(s', r)
    {
      assert RootOnce(s, r);
      HeldUpdate(s.pcs, w, s'.pcs[w], Root(r));
    }
    forall o
      ensures ObjectOnce(s', o)
    {
      assert ObjectOnce(s, o);
      HeldUpdate(s.pcs, w, s'.pcs[w], Obj(o));
    }
  }

  lemma MainCounts(s: State, c: Choice)
    requires Shape(s) && LocksInv(s) && PhaseInv(s) && CountInv(s) && !InTrace(s.pcs[0])
    ensures Shape(MainStep(s, c)) && CountInv(MainStep(s, c))
  {
    hide Held, Queued, Wrap, Waiting, LocksInv, PhaseInv, CountInv, MainStep;
    MainShape(s, c);
    if s.pcs[0].Resetting? {
      ResetCounts(s);
      ResetIsReset(s, c);
    } else if s.pcs[0].Outside? {
      OutsideCounts(s, c);
    } else {
      LoopCounts(s, c);
    }
  }

  lemma ResetIsReset(s: State, c: Choice)
    requires Shape(s) && s.pcs[0].Resetting?
    ensures MainStep(s, c) == MainStep(s, Go)
  {
    hide Wrap;
  }

  /** None of the steps between waking the helpers and returning touches a root or an object. */
  lemma LoopCounts(s: State, c: Choice)
    requires Shape(s) && CountInv(s) && !InTrace(s.pcs[0]) && !s.pcs[0].Outside? && !s.pcs[0].Resetting?
    ensures Shape(MainStep(s, c)) && CountInv(MainStep(s, c))
  {
    hide MainStep, CountInv;
    var pc := s.pcs[0];
    if pc.TryLock? || pc.Check? || pc.UnlockBack? { EndingCounts(s, c); } else { StartingCounts(s, c); }
  }

  lemma EndingCounts(s: State, c: Choice)
    requires Shape(s) && CountInv(s) && (s.pcs[0].TryLock? || s.pcs[0].Check? || s.pcs[0].UnlockBack?)
    ensures Shape(MainStep(s, c)) && CountInv(MainStep(s, c))
  {
    hide Held, Queued, Wrap, Waiting, CountInv;
    MainShape(s, c);
    OnlyPcMoved(s, MainStep(s, c), 0);
  }

  lemma StartingCounts(s: State, c: Choice)
    requires Shape(s) && CountInv(s) && !InTrace(s.pcs[0]) && !s.pcs[0].Outside? && !s.pcs[0].Resetting?
    requires !s.pcs[0].TryLock? && !s.pcs[0].Check? && !s.pcs[0].UnlockBack?
    ensures Shape(MainStep(s, c)) && CountInv(MainStep(s, c))
  {
    hide Held, Queued, Wrap, Waiting, CountInv;
    MainShape(s, c);
    OnlyPcMoved(s, MainStep(s, c), 0);
  }

  lemma OutsideCounts(s: State, c: Choice)
    requires Shape(s) && PhaseInv(s) && CountInv(s) && s.pcs[0].Outside?
    ensures Shape(MainStep(s, c)) && CountInv(MainStep(s, c))
  {
    hide Held, Queued, Wrap, Waiting;
    if c.AddRoot? { RootWaits(s.roots, c.root); }
    OnlyPcMoved(s, MainStep(s, c), 0);
  }

  lemma RootWaits(roots: seq<nat>, root: nat)
    ensures Waiting(roots + [root], 0) == Waiting(roots, 0) + multiset{root}
  {
    assert (roots + [root])[0..] == roots[0..] + [root];
  }

  lemma RootTaken(roots: seq<nat>, read: nat)
    ensures if read < |roots| then Waiting(roots, read) == multiset{roots[read]} + Waiting(roots, read + 1)
            else Waiting(roots, read) == Waiting(roots, read + 1) == multiset{}
  {
    if read < |roots| { assert roots[read..] == [roots[read]] + roots[read + 1..]; }
  }

  /** Emptying the root queue is sound because every root has been finished by then. */
  lemma ResetCounts(s: State)
    requires Shape(s) && LocksInv(s) && PhaseInv(s) && CountInv(s) && s.pcs[0].Resetting?
    ensures CountInv(MainStep(s, Go))
  {
    hide Queued, Held;
    var s' := MainStep(s, Go);
    HeldUpdate(s.pcs, 0, Outside, Active);
    forall r: nat
      ensures RootOnce(s', r)
    {
      assert RootOnce(s, r);
      HeldUpdate(s.pcs, 0, Outside, Root(r));
    }
    forall o
      ensures ObjectOnce(s', o)
    {
      assert ObjectOnce(s, o);
      HeldUpdate(s.pcs, 0, Outside, Obj(o));
    }
  }

  lemma ParkCounts(s: State, w: nat)
    requires Shape(s) && CountInv(s) && 0 < w < s.n && !InTrace(s.pcs[w])
    ensures Shape(ParkStep(s, w)) && CountInv(ParkStep(s, w))
  {
    hide Held, Queued, Waiting;
    ParkShape(s, w);
    var s' := ParkStep(s, w);
    if s' != s {
      OnlyPcMoved(s, s', w);
    }
  }

  lemma RootCounts(s: State, w: nat, c: Choice)
    requires Shape(s) && CountInv(s) && w < s.n && InTrace(s.pcs[w]) && !InObjects(s.pcs[w])
    requires c.Emit? ==> !s.pcs[w].InRoot?
    ensures Shape(RootStep(s, w, c)) && CountInv(RootStep(s, w, c))
  {
    hide Held, Queued, CountInv, Waiting;
    RootFrame(s, w, c);
    if s.pcs[w].PopRoot? { PopRootCounts(s, w, c); } else { OnlyPcMoved(s, RootStep(s, w, c), w); }
  }

  lemma PopRootCounts(s: State, w: nat, c: Choice)
    requires Shape(s) && CountInv(s) && w < s.n && s.pcs[w].PopRoot?
    ensures Shape(RootStep(s, w, c)) && CountInv(RootStep(s, w, c))
  {
    hide Held, Queued, CountInv, Waiting;
    RootTaken(s.roots, s.read);
    OnlyPcMoved(s, RootStep(s, w, c), w);
  }

  lemma ObjectCountsMove(s: State, w: nat, c: Choice)
    requires Shape(s) && CountInv(s) && w < s.n && InObjects(s.pcs[w])
    requires c.Emit? ==> !s.pcs[w].InObject?
    requires !(ObjectStep(s, w, c).pcs[w].InObject?)
    ensures Shape(ObjectStep(s, w, c)) && CountInv(ObjectStep(s, w, c))
  {
    hide Held, Queued, Wrap, CountInv, Waiting;
    ObjectFrame(s, w, c);
    OnlyPcMoved(s, ObjectStep(s, w, c), w);
  }

  lemma WorkCountsEmit(s: State, w: nat, c: Choice)
    requires Shape(s) && CountInv(s) && w < s.n && c.Emit? && (s.pcs[w].InRoot? || s.pcs[w].InObject?)
    ensures Shape(WorkStep(s, w, c)) && CountInv(WorkStep(s, w, c))
  {
    hide Held, Queued, Waiting;
    var s' := WorkStep(s, w, c);
    forall r: nat ensures RootOnce(s', r) { assert RootOnce(s, r); }
    forall o
      ensures ObjectOnce(s', o)
    {
      assert ObjectOnce(s, o);
      QueuedUpdate(s.deques, w, s.deques[w] + [c.ref], o);
    }
  }

  /** One object leaves deque `v` for the hands of worker `w`. */
  lemma TakeCounts(s: State, s': State, w: nat, v: nat, x: Ref)
    requires Shape(s) && CountInv(s) && w < s.n && v < s.n && !s.pcs[w].InRoot? && !s.pcs[w].InObject?
    requires Holds(s.pcs[w], Active) == 1
    requires s' == s.(pcs := s.pcs[w := InObject(x)], deques := s'.deques)
    requires |s'.deques| == s.n && s'.deques == s.deques[v := s'.deques[v]]
    requires multiset(s.deques[v]) == multiset(s'.deques[v]) + multiset{x}
    ensures CountInv(s')
  {
    hide Held, Queued, Waiting;
    HeldUpdate(s.pcs, w, s'.pcs[w], Active);
    forall r: nat
      ensures RootOnce(s', r)
    {
      assert RootOnce(s, r);
      HeldUpdate(s.pcs, w, s'.pcs[w], Root(r));
    }
    forall o
      ensures ObjectOnce(s', o)
    {
      assert ObjectOnce(s, o);
      HeldUpdate(s.pcs, w, s'.pcs[w], Obj(o));
      QueuedUpdate(s.deques, v, s'.deques[v], o);
    }
  }

  lemma PopTakes(s: State, w: nat, c: Choice)
    requires Shape(s) && w < s.n && s.pcs[w].TryPop? && ObjectStep(s, w, c).pcs[w].InObject?
    ensures var q, s' := s.deques[w], ObjectStep(s, w, c);
      q != [] && s' == s.(pcs := s.pcs[w := InObject(q[|q| - 1])], deques := s.deques[w := q[..|q| - 1]])
  {
  }

  lemma StealTakes(s: State, w: nat, c: Choice, v: nat)
    requires Shape(s) && w < s.n && s.pcs[w].Steal? && ObjectStep(s, w, c).pcs[w].InObject?
    requires v == Wrap(s.pcs[w].start + s.pcs[w].j, s.n)
    ensures var q, s' := s.deques[v], ObjectStep(s, w, c);
      q != [] && s' == s.(pcs := s.pcs[w := InObject(q[0])], deques := s.deques[v := q[1..]])
  {
    hide Wrap;
  }

  lemma WorkCountsTake(s: State, w: nat, c: Choice)
    requires Shape(s) && CountInv(s) && w < s.n && (s.pcs[w].TryPop? || s.pcs[w].Steal?)
    requires ObjectStep(s, w, c).pcs[w].InObject?
    ensures Shape(ObjectStep(s, w, c)) && CountInv(ObjectStep(s, w, c))
  {
    hide Held, Queued, Wrap, CountInv, ObjectStep;
    var s' := ObjectStep(s, w, c);
    if s.pcs[w].TryPop? {
      PopTakes(s, w, c);
      var q := s.deques[w];
      assert q == q[..|q| - 1] + [q[|q| - 1]];
      TakeCounts(s, s', w, w, q[|q| - 1]);
    } else {
      var v := Wrap(s.pcs[w].start + s.pcs[w].j, s.n);
      StealTakes(s, w, c, v);
      var q := s.deques[v];
      assert q == [q[0]] + q[1..];
      TakeCounts(s, s', w, v, q[0]);
    }
  }

  lemma WorkCounts(s: State, w: nat, c: Choice)
    requires Shape(s) && CountInv(s) && w < s.n && InTrace(s.pcs[w])
    ensures Shape(WorkStep(s, w, c)) && CountInv(WorkStep(s, w, c))
  {
    hide CountInv, Wrap, RootStep;
    if c.Emit? && (s.pcs[w].InRoot? || s.pcs[w].InObject?) {
      WorkCountsEmit(s, w, c);
    } else if !InObjects(s.pcs[w]) {
      RootCounts(s, w, c);
    } else if ObjectStep(s, w, c).pcs[w].InObject? {
      WorkCountsTake(s, w, c);
    } else {
      ObjectCountsMove(s, w, c);
    }
  }

  /** Every step of every worker keeps the invariant. */
  lemma StepInv(s: State, w: nat, c: Choice)
    requires Inv(s)
    ensures Inv(Step(s, w, c))
  {
    hide LocksInv, PhaseInv, RootsOnlyInv, CountInv, WorkStep, MainStep, ParkStep;
    if w >= s.n {
    } else if InTrace(s.pcs[w]) {
      WorkLocks(s, w, c);
      WorkPhase(s, w, c);
      WorkRootsOnly(s, w, c);
      WorkCounts(s, w, c);
    } else if w == 0 {
      MainLocks(s, c);
      MainPhase(s, c);
      MainRootsOnly(s, c);
      MainCounts(s, c);
    } else {
      ParkLocks(s, w);
      ParkPhase(s, w);
      ParkRootsOnly(s, w);
      ParkCounts(s, w);
    }
  }

  // ---------- Whole runs ----------

  ghost predicate Next(s: State, s': State) {
    Shape(s) && exists w, c :: s' == Step(s, w, c)
  }

  /** Any number of traces by `n` workers under any schedule, as a sequence of states. */
  ghost predicate IsRun(run: seq<State>, n: nat)
    requires n > 0
  {
    && |run| > 0
    && run[0] == Init(n)
    && forall i :: 0 < i < |run| ==> Next(run[i - 1], run[i])
  }

  lemma {:induction false} RunInv(run: seq<State>, n: nat)
    requires n > 0 && IsRun(run, n)
    ensures Inv(run[|run| - 1])
  {
    hide Inv, Init, Step, Shape;
    var k := |run|;
    if k == 1 {
      InitInv(n);
    } else {
      RunInv(run[..k - 1], n);
      assert Next(run[k - 2], run[k - 1]);
      var w, c :| run[k - 1] == Step(run[k - 2], w, c);
      StepInv(run[k - 2], w, c);
    }
  }

  // ---------- Nobody misses a trace ----------

  /** No helper has seen an epoch that has not begun. */
  ghost predicate SeenOk(s: State)
    requires Shape(s)
  {
    forall w :: 0 <= w < s.n ==> s.seen[w] <= s.epoch
  }

  /** A helper's view of the epoch changes only when it joins a trace, and the epoch only grows. */
  lemma SeenStep(s: State, w: nat, c: Choice, u: nat)
    requires Shape(s) && SeenOk(s) && u < s.n
    ensures var s' := Step(s, w, c);
      && Shape(s') && s'.n == s.n && SeenOk(s') && s.epoch <= s'.epoch
      && (s'.seen[u] == s.seen[u] || (u == w && s.pcs[u].CheckEpoch? && s'.pcs[u].Begin? && s'.seen[u] == s'.epoch))
  {
    hide Wrap, WorkStep, MainStep, ParkStep;
    if w >= s.n {
    } else if InTrace(s.pcs[w]) {
      WorkSeen(s, w, c);
    } else if w == 0 {
      MainSeen(s, c);
    } else {
      ParkSeen(s, w);
    }
  }

  ghost predicate SameSeen(s: State, s': State) {
    Shape(s') && s'.n == s.n && s'.seen == s.seen && s.epoch <= s'.epoch
  }

  lemma WorkSeen(s: State, w: nat, c: Choice)
    requires Shape(s) && w < s.n
    ensures SameSeen(s, WorkStep(s, w, c))
  {
    hide Wrap, RootStep, ObjectStep, SameSeen;
    if InObjects(s.pcs[w]) { ObjectSeen(s, w, c); } else { RootSeen(s, w, c); }
  }

  lemma RootSeen(s: State, w: nat, c: Choice)
    requires Shape(s) && w < s.n
    ensures SameSeen(s, RootStep(s, w, c))
  {
    hide Wrap;
  }

  lemma ObjectSeen(s: State, w: nat, c: Choice)
    requires Shape(s) && w < s.n
    ensures SameSeen(s, ObjectStep(s, w, c))
  {
    hide Wrap, ObjectStep, SameSeen;
    if s.pcs[w].TryPop? { PopSeen(s, w, c); } else if s.pcs[w].Steal? { StealSeen(s, w, c); } else { RestSeen(s, w, c); }
  }

  lemma PopSeen(s: State, w: nat, c: Choice)
    requires Shape(s) && w < s.n && s.pcs[w].TryPop?
    ensures SameSeen(s, ObjectStep(s, w, c))
  {
    hide Wrap;
  }

  lemma StealSeen(s: State, w: nat, c: Choice)
    requires Shape(s) && w < s.n && s.pcs[w].Steal?
    ensures SameSeen(s, ObjectStep(s, w, c))
  {
    hide Wrap;
  }

  lemma RestSeen(s: State, w: nat, c: Choice)
    requires Shape(s) && w < s.n && !s.pcs[w].TryPop? && !s.pcs[w].Steal?
    ensures SameSeen(s, ObjectStep(s, w, c))
  {
    hide Wrap;
  }

  lemma MainSeen(s: State, c: Choice)
    requires Shape(s)
    ensures SameSeen(s, MainStep(s, c))
  {
    hide Wrap, MainStep, SameSeen;
    var pc := s.pcs[0];
    if pc.Outside? || pc.Unlocking? || pc.Waking? || pc.Resetting? { OuterSeen(s, c); } else { LoopSeen(s, c); }
  }

  lemma OuterSeen(s: State, c: Choice)
    requires Shape(s) && (s.pcs[0].Outside? || s.pcs[0].Unlocking? || s.pcs[0].Waking? || s.pcs[0].Resetting?)
    ensures SameSeen(s, MainStep(s, c))
  {
    hide Wrap;
  }

  lemma LoopSeen(s: State, c: Choice)
    requires Shape(s) && !(s.pcs[0].Outside? || s.pcs[0].Unlocking? || s.pcs[0].Waking? || s.pcs[0].Resetting?)
    ensures SameSeen(s, MainStep(s, c))
  {
    hide Wrap;
  }

  lemma ParkSeen(s: State, w: nat)
    requires Shape(s) && SeenOk(s) && 0 < w < s.n
    ensures var s' := ParkStep(s, w);
      && Shape(s') && s'.n == s.n && s'.epoch == s.epoch && SeenOk(s')
      && forall u :: 0 <= u < s.n ==>
           s'.seen[u] == s.seen[u] || (u == w && s.pcs[w].CheckEpoch? && s'.pcs[w].Begin? && s'.seen[u] == s'.epoch)
  {
  }

  lemma {:induction false} RunSeen(run: seq<State>, n: nat)
    requires n > 0 && IsRun(run, n)
    ensures Shape(run[|run| - 1]) && SeenOk(run[|run| - 1])
  {
    hide Init, Step, Next;
    var k := |run|;
    if k == 1 {
      InitSeen(n);
    } else {
      RunSeen(run[..k - 1], n);
      NextAt(run, n, k - 2);
      var w, c :| run[k - 1] == Step(run[k - 2], w, c);
      SeenStep(run[k - 2], w, c, 0);
    }
  }

  lemma InitSeen(n: nat)
    requires n > 0
    ensures Shape(Init(n)) && SeenOk(Init(n))
  {
  }

  /** Main wakes the helpers: at the start of a trace, or between objects while some helper is not active. */
  ghost predicate Wakes(s: State, c: Choice)
    requires Shape(s)
  {
    s.pcs[0].Waking? || (s.pcs[0].TryPop? && c.Unpark? && s.active < s.n)
  }

  /** Main wakes the helpers in state `i`, and up to state `j` helper `w` has not joined since. */
  ghost predicate NotJoined(run: seq<State>, n: nat, i: nat, j: nat, w: nat)
    requires n > 0
  {
    && IsRun(run, n) && i < j < |run| && Shape(run[i]) && 0 < w < run[i].n
    && (exists c :: Wakes(run[i], c) && run[i + 1] == Step(run[i], 0, c))
    && forall k :: i < k <= j ==> Shape(run[k]) && w < |run[k].pcs| && !run[k].pcs[w].Begin?
  }

  lemma {:induction false} StaleView(run: seq<State>, n: nat, i: nat, j: nat, w: nat)
    requires n > 0 && NotJoined(run, n, i, j, w)
    ensures Shape(run[j]) && w < run[j].n && run[j].seen[w] < run[j].epoch
    decreases j
  {
    hide Init, Step, Next, IsRun;
    if j == i + 1 {
      SeenAt(run, n, i);
      var c :| Wakes(run[i], c) && run[i + 1] == Step(run[i], 0, c);
      WakesAll(run[i], c);
    } else {
      StaleView(run, n, i, j - 1, w);
      SeenAt(run, n, j - 1);
      NextAt(run, n, j - 1);
      var u, c :| run[j] == Step(run[j - 1], u, c);
      SeenStep(run[j - 1], u, c, w);
    }
  }

  lemma SeenAt(run: seq<State>, n: nat, i: nat)
    requires n > 0 && IsRun(run, n) && i < |run|
    ensures Shape(run[i]) && SeenOk(run[i])
  {
    hide Next;
    assert IsRun(run[..i + 1], n);
    RunSeen(run[..i + 1], n);
  }

  lemma WakesAll(s: State, c: Choice)
    requires Shape(s) && Wakes(s, c)
    ensures var s' := Step(s, 0, c); Shape(s') && s'.n == s.n && s'.seen == s.seen && s'.epoch == s.epoch + 1
  {
    hide Wrap;
  }

  /** The epoch moves on just when main wakes the helpers. */
  lemma OnlyMainWakes(s: State, w: nat, c: Choice)
    requires Shape(s) && w < s.n
    ensures Step(s, w, c).epoch != s.epoch <==> w == 0 && Wakes(s, c)
  {
    hide Wrap, Neighbours, RootStep, ObjectStep, MainStep, ParkStep;
    if InTrace(s.pcs[w]) {
      if s.pcs[w].TryPop? { PopEpoch(s, w, c); } else { WorkEpoch(s, w, c); }
    } else if w == 0 {
      MainEpoch(s, c);
    } else {
      ParkEpoch(s, w);
    }
  }

  lemma PopEpoch(s: State, w: nat, c: Choice)
    requires Shape(s) && w < s.n && s.pcs[w].TryPop?
    ensures ObjectStep(s, w, c).epoch != s.epoch <==> w == 0 && c.Unpark? && s.active < s.n
  {
    hide Wrap;
  }

  lemma WorkEpoch(s: State, w: nat, c: Choice)
    requires Shape(s) && w < s.n && !s.pcs[w].TryPop?
    ensures ObjectStep(s, w, c).epoch == s.epoch == RootStep(s, w, c).epoch
  {
    hide Wrap;
  }

  lemma MainEpoch(s: State, c: Choice)
    requires Shape(s) && !InTrace(s.pcs[0])
    ensures MainStep(s, c).epoch != s.epoch <==> s.pcs[0].Waking?
  {
    hide Wrap, Neighbours;
  }

  lemma ParkEpoch(s: State, w: nat)
    requires Shape(s) && 0 < w < s.n
    ensures ParkStep(s, w).epoch == s.epoch
  {
  }

  /** A helper that looks at the epoch after main has woken the helpers joins the trace, whatever wakeups it
      has missed. */
  lemma WokenHelperJoins(run: seq<State>, n: nat, i: nat, j: nat, w: nat, c: Choice)
    requires n > 0 && NotJoined(run, n, i, j, w) && run[j].pcs[w].CheckEpoch?
    ensures Shape(run[j]) && w < run[j].n && Shape(Step(run[j], w, c)) && Step(run[j], w, c).pcs[w].Begin?
  {
    hide Wrap;
    StaleView(run, n, i, j, w);
    ParkShape(run[j], w);
  }

  /** By the step from state `i` helper `w` joins a trace. */
  ghost predicate Joins(run: seq<State>, i: nat, w: nat) {
    && i + 1 < |run| && w < |run[i].pcs| && w < |run[i + 1].pcs|
    && run[i].pcs[w].CheckEpoch? && run[i + 1].pcs[w].Begin?
  }

  lemma JoinStep(s: State, u: nat, c: Choice, w: nat)
    requires Shape(s) && LocksInv(s) && w < s.n && s.pcs[w].CheckEpoch?
    requires Shape(Step(s, u, c)) && w < Step(s, u, c).n && Step(s, u, c).pcs[w].Begin?
    ensures var s' := Step(s, u, c); s.seen[w] != s.epoch && s'.epoch == s.epoch && s'.seen[w] == s.epoch
  {
    hide Wrap, WorkStep, MainStep, LocksInv;
    CheckingIsHelper(s, w);
    if u != w { OthersSpare(s, u, c, w); }
  }

  lemma CheckingIsHelper(s: State, w: nat)
    requires Shape(s) && LocksInv(s) && w < s.n && s.pcs[w].CheckEpoch?
    ensures w > 0
  {
  }

  lemma OthersSpare(s: State, u: nat, c: Choice, w: nat)
    requires Shape(s) && w < s.n && u != w
    ensures var s' := Step(s, u, c); Shape(s') && w < s'.n && s'.pcs[w] == s.pcs[w]
  {
    hide Wrap, WorkStep, MainStep;
    if u < s.n && InTrace(s.pcs[u]) {
      WorkShape(s, u, c);
    } else if u == 0 {
      MainSpares(s, c, w);
    }
  }

  lemma MainSpares(s: State, c: Choice, w: nat)
    requires Shape(s) && 0 < w < s.n
    ensures var s' := MainStep(s, c); Shape(s') && s'.n == s.n && s'.pcs[w] == s.pcs[w]
  {
    hide MainStep;
    MainShape(s, c);
    MainMoves(s, c);
  }

  lemma MainMoves(s: State, c: Choice)
    requires Shape(s)
    ensures |MainStep(s, c).pcs| == s.n && MainStep(s, c).pcs == s.pcs[0 := MainStep(s, c).pcs[0]]
  {
    hide Wrap, Neighbours;
  }

  lemma {:induction false} SeenGrows(run: seq<State>, n: nat, i: nat, j: nat, w: nat)
    requires n > 0 && IsRun(run, n) && i <= j < |run| && Shape(run[i]) && w < run[i].n
    ensures Shape(run[j]) && w < run[j].n && run[i].seen[w] <= run[j].seen[w]
    decreases j
  {
    hide Init, Step, Next, IsRun;
    if i < j {
      SeenGrows(run, n, i, j - 1, w);
      SeenAt(run, n, j - 1);
      NextAt(run, n, j - 1);
      var u, c :| run[j] == Step(run[j - 1], u, c);
      SeenStep(run[j - 1], u, c, w);
    }
  }

  /** A helper joins at most once for each time main wakes the helpers. */
  lemma JoinsOncePerWake(run: seq<State>, n: nat, i: nat, j: nat, w: nat)
    requires n > 0 && IsRun(run, n) && i < j && Joins(run, i, w) && Joins(run, j, w)
    ensures run[i].epoch < run[j].epoch
  {
    hide Init, Step, Next, IsRun;
    JoinAt(run, n, i, w);
    JoinAt(run, n, j, w);
    SeenGrows(run, n, i + 1, j, w);
    SeenAt(run, n, j);
  }

  lemma JoinAt(run: seq<State>, n: nat, i: nat, w: nat)
    requires n > 0 && IsRun(run, n) && Joins(run, i, w)
    ensures Shape(run[i]) && Shape(run[i + 1]) && w < run[i].n && w < run[i + 1].n
    ensures run[i].seen[w] != run[i].epoch && run[i + 1].seen[w] == run[i].epoch
  {
    hide Init, Step, Next, IsRun;
    SeenAt(run, n, i);
    SeenAt(run, n, i + 1);
    RunInvAt(run, n, i);
    InvParts(run[i]);
    NextAt(run, n, i);
    var u, c :| run[i + 1] == Step(run[i], u, c);
    JoinStep(run[i], u, c, w);
  }

  // ---------- How workers use the deques ----------

  /** What the step of worker `w` does to deque `v`: only its owner pushes and pops, what is pushed was just
      discovered, and what is popped or stolen is what the worker goes on to trace. */
  ghost predicate Uses(s: State, w: nat, c: Choice, s': State, v: nat, e: D.Event)
    requires Shape(s) && Shape(s') && s'.n == s.n && w < s.n && v < s.n
  {
    && D.AbstractStep(s.deques[v], s'.deques[v], e)
    && match e
       case Tau => true
       case Pushed(x) => v == w && c == Emit(x) && (s.pcs[w].InRoot? || s.pcs[w].InObject?)
       case Popped(x) => v == w && s.pcs[w].TryPop? && s'.pcs[w] == InObject(x)
       case Stolen(x) => s.pcs[w].Steal? && s'.pcs[w] == InObject(x)
  }

  /** Every step is, on each deque, one of the operations that the deque is proved to implement, or nothing. */
  lemma UsesDeques(s: State, w: nat, c: Choice, v: nat) returns (e: D.Event)
    requires Inv(s) && w < s.n && v < s.n
    ensures Shape(Step(s, w, c)) && Step(s, w, c).n == s.n && Uses(s, w, c, Step(s, w, c), v, e)
  {
    hide Wrap, LocksInv, PhaseInv, RootsOnlyInv, CountInv, MainStep, ParkStep, RootStep, ObjectStep, Uses;
    e := D.Tau;
    if InTrace(s.pcs[w]) {
      WorkShape(s, w, c);
      if InObjects(s.pcs[w]) { e := ObjectUses(s, w, c, v); } else { e := RootUses(s, w, c, v); }
    } else if w == 0 {
      MainUses(s, c, v);
    } else {
      ParkUses(s, w, c, v);
    }
  }

  lemma RootUses(s: State, w: nat, c: Choice, v: nat) returns (e: D.Event)
    requires Shape(s) && w < s.n && v < s.n && !InObjects(s.pcs[w])
    requires Shape(RootStep(s, w, c)) && RootStep(s, w, c).n == s.n
    ensures Uses(s, w, c, RootStep(s, w, c), v, e)
  {
    e := if v == w && c.Emit? && s.pcs[w].InRoot? then D.Pushed(c.ref) else D.Tau;
  }

  lemma ObjectUses(s: State, w: nat, c: Choice, v: nat) returns (e: D.Event)
    requires Shape(s) && w < s.n && v < s.n && InObjects(s.pcs[w])
    requires Shape(ObjectStep(s, w, c)) && ObjectStep(s, w, c).n == s.n
    ensures Uses(s, w, c, ObjectStep(s, w, c), v, e)
  {
    hide Wrap, ObjectStep, Uses;
    match s.pcs[w]
    case TryPop => e := PopUses(s, w, c, v);
    case Steal(_, _) => e := StealUses(s, w, c, v);
    case _ => e := TraceUses(s, w, c, v);
  }

  lemma PopUses(s: State, w: nat, c: Choice, v: nat) returns (e: D.Event)
    requires Shape(s) && w < s.n && v < s.n && s.pcs[w].TryPop?
    requires Shape(ObjectStep(s, w, c)) && ObjectStep(s, w, c).n == s.n
    ensures Uses(s, w, c, ObjectStep(s, w, c), v, e)
  {
    hide Wrap;
    var q := s.deques[w];
    if v == w && ObjectStep(s, w, c).pcs[w].InObject? {
      assert q == q[..|q| - 1] + [q[|q| - 1]];
      e := D.Popped(q[|q| - 1]);
    } else {
      e := D.Tau;
    }
  }

  lemma StealUses(s: State, w: nat, c: Choice, v: nat) returns (e: D.Event)
    requires Shape(s) && w < s.n && v < s.n && s.pcs[w].Steal?
    requires Shape(ObjectStep(s, w, c)) && ObjectStep(s, w, c).n == s.n
    ensures Uses(s, w, c, ObjectStep(s, w, c), v, e)
  {
    hide Wrap;
    var q := s.deques[v];
    if v == Wrap(s.pcs[w].start + s.pcs[w].j, s.n) && ObjectStep(s, w, c).pcs[w].InObject? {
      assert q == [q[0]] + q[1..];
      e := D.Stolen(q[0]);
    } else {
      e := D.Tau;
    }
  }

  lemma TraceUses(s: State, w: nat, c: Choice, v: nat) returns (e: D.Event)
    requires Shape(s) && w < s.n && v < s.n && (s.pcs[w].InObject? || s.pcs[w].Decide?)
    requires Shape(ObjectStep(s, w, c)) && ObjectStep(s, w, c).n == s.n
    ensures Uses(s, w, c, ObjectStep(s, w, c), v, e)
  {
    hide Wrap;
    e := if v == w && c.Emit? && s.pcs[w].InObject? then D.Pushed(c.ref) else D.Tau;
  }

  lemma MainUses(s: State, c: Choice, v: nat)
    requires Shape(s) && v < s.n
    ensures Shape(MainStep(s, c)) && MainStep(s, c).n == s.n && Uses(s, 0, c, MainStep(s, c), v, D.Tau)
  {
    hide Wrap;
    MainShape(s, c);
  }

  lemma ParkUses(s: State, w: nat, c: Choice, v: nat)
    requires Shape(s) && 0 < w < s.n && v < s.n
    ensures Shape(ParkStep(s, w)) && ParkStep(s, w).n == s.n && Uses(s, w, c, ParkStep(s, w), v, D.Tau)
  {
    ParkShape(s, w);
  }

  // ---------- Nobody gives up without looking everywhere ----------

  /** Where the worker looks next is part of its state, so that its rounds over the deques go on in turn. */
  ghost predicate StealOk(s: State, w: nat)
    requires Shape(s) && w < s.n
  {
    && s.stealId[w] < s.n
    && (match s.pcs[w]
        case Steal(start, j) => start < s.n && j <= s.n && s.stealId[w] == Wrap(start + j, s.n)
        case Check(start, j) => start < s.n && j <= s.n && s.stealId[w] == Wrap(start + j, s.n)
        case _ => true)
  }

  /** By this step worker `w` tries to steal from worker `v` and gets nothing. */
  ghost predicate Tries(s: State, c: Choice, s': State, w: nat, v: nat) {
    && Shape(s) && Shape(s') && w < s.n && w < s'.n && v < s.n
    && s.pcs[w].Steal? && s.pcs[w].j < s.n && s'.pcs[w] == Steal(s.pcs[w].start, s.pcs[w].j + 1)
    && s.stealId[w] == v && (s.deques[v] == [] || c.Miss?)
  }

  /** A worker is at place `j` of a round only by having tried the place before, and gives up only at the
      end of one. */
  ghost predicate RoundStep(s: State, w: nat, c: Choice, s': State, u: nat)
    requires Shape(s) && u < s.n
  {
    && Shape(s') && s'.n == s.n && StealOk(s', u)
    && (s'.pcs[u] != s.pcs[u] ==> u == w)
    && (s'.pcs[u].Steal? && s'.pcs[u].j > 0 && s'.pcs[u] != s.pcs[u] ==>
          s.pcs[u] == Steal(s'.pcs[u].start, s'.pcs[u].j - 1) && Tries(s, c, s', u, s.stealId[u]))
    && (s'.pcs[u].Decide? && !s.pcs[u].Decide? ==> s.pcs[u].Steal? && s.pcs[u].j == s.n)
  }

  lemma WrapSmall(i: nat, n: nat)
    requires i < n
    ensures Wrap(i, n) == i
  {
  }

  lemma StepRounds(s: State, w: nat, c: Choice, u: nat)
    requires Shape(s) && LocksInv(s) && u < s.n && StealOk(s, u)
    ensures RoundStep(s, w, c, Step(s, w, c), u)
  {
    hide Wrap, WorkStep, MainStep, ParkStep, RoundStep, LocksInv;
    if w >= s.n {
      SameRounds(s, w, c, u);
    } else if InTrace(s.pcs[w]) {
      WorkRounds(s, w, c, u);
    } else if w == 0 && s.pcs[0].Outside? {
      OutsideRounds(s, c, u);
    } else if w == 0 {
      MainRounds(s, c, u);
    } else {
      ParkRounds(s, w, c, u);
    }
  }

  lemma SameRounds(s: State, w: nat, c: Choice, u: nat)
    requires Shape(s) && u < s.n && StealOk(s, u)
    ensures RoundStep(s, w, c, s, u)
  {
    hide Wrap;
  }

  lemma WorkRounds(s: State, w: nat, c: Choice, u: nat)
    requires Shape(s) && w < s.n && u < s.n && StealOk(s, u) && InTrace(s.pcs[w])
    ensures RoundStep(s, w, c, WorkStep(s, w, c), u)
  {
    hide Wrap, RootStep, ObjectStep, RoundStep;
    if !InObjects(s.pcs[w]) {
      RootRounds(s, w, c, u);
    } else if s.pcs[w].Steal? {
      StealRounds(s, w, c, u);
    } else {
      ObjectRounds(s, w, c, u);
    }
  }

  /** A step that moves at most worker `w`, and not into a round or its end. */
  ghost predicate NoRound(s: State, w: nat, s': State)
    requires Shape(s) && w < s.n
  {
    && Shape(s') && s'.n == s.n && s'.stealId == s.stealId && s'.pcs == s.pcs[w := s'.pcs[w]]
    && (s'.pcs[w] == s.pcs[w] || !(s'.pcs[w].Steal? || s'.pcs[w].Check? || s'.pcs[w].Decide?))
  }

  lemma QuietRounds(s: State, w: nat, c: Choice, s': State, u: nat)
    requires Shape(s) && w < s.n && u < s.n && StealOk(s, u) && NoRound(s, w, s')
    ensures RoundStep(s, w, c, s', u)
  {
    hide Wrap;
  }

  lemma RootRounds(s: State, w: nat, c: Choice, u: nat)
    requires Shape(s) && w < s.n && u < s.n && StealOk(s, u) && !InObjects(s.pcs[w])
    ensures RoundStep(s, w, c, RootStep(s, w, c), u)
  {
    hide Wrap, RootStep, RoundStep, StealOk;
    RootNoRound(s, w, c);
    QuietRounds(s, w, c, RootStep(s, w, c), u);
  }

  lemma RootNoRound(s: State, w: nat, c: Choice)
    requires Shape(s) && w < s.n && !InObjects(s.pcs[w])
    ensures NoRound(s, w, RootStep(s, w, c))
  {
    hide RootStep, NoRound;
    if s.pcs[w].InRoot? { InRootNoRound(s, w, c); } else { ToRootNoRound(s, w, c); }
  }

  lemma InRootNoRound(s: State, w: nat, c: Choice)
    requires Shape(s) && w < s.n && s.pcs[w].InRoot?
    ensures NoRound(s, w, RootStep(s, w, c))
  {
  }

  lemma ToRootNoRound(s: State, w: nat, c: Choice)
    requires Shape(s) && w < s.n && !InObjects(s.pcs[w]) && !s.pcs[w].InRoot?
    ensures NoRound(s, w, RootStep(s, w, c))
  {
  }

  lemma StealRounds(s: State, w: nat, c: Choice, u: nat)
    requires Shape(s) && w < s.n && u < s.n && StealOk(s, u) && s.pcs[w].Steal?
    ensures RoundStep(s, w, c, ObjectStep(s, w, c), u)
  {
    hide Wrap;
  }

  lemma ObjectRounds(s: State, w: nat, c: Choice, u: nat)
    requires Shape(s) && w < s.n && u < s.n && StealOk(s, u) && InObjects(s.pcs[w]) && !s.pcs[w].Steal?
    ensures RoundStep(s, w, c, ObjectStep(s, w, c), u)
  {
    hide Wrap, ObjectStep, RoundStep, StealOk;
    if s.pcs[w].TryPop? {
      PopRounds(s, w, c, u);
    } else {
      ObjectNoRound(s, w, c);
      QuietRounds(s, w, c, ObjectStep(s, w, c), u);
    }
  }

  lemma ObjectNoRound(s: State, w: nat, c: Choice)
    requires Shape(s) && w < s.n && (s.pcs[w].InObject? || s.pcs[w].Decide?)
    ensures NoRound(s, w, ObjectStep(s, w, c))
  {
    hide Wrap;
  }

  lemma PopRounds(s: State, w: nat, c: Choice, u: nat)
    requires Shape(s) && w < s.n && u < s.n && StealOk(s, u) && s.pcs[w].TryPop?
    ensures RoundStep(s, w, c, ObjectStep(s, w, c), u)
  {
    hide Wrap;
    if u == w { WrapSmall(s.stealId[w], s.n); }
  }

  /** Between traces every helper is parked, so no round is under way when the rounds start afresh. */
  lemma OutsideRounds(s: State, c: Choice, u: nat)
    requires Shape(s) && LocksInv(s) && u < s.n && StealOk(s, u) && s.pcs[0].Outside?
    ensures RoundStep(s, 0, c, MainStep(s, c), u)
  {
    hide Wrap;
    if u > 0 { assert HelperLock(s, u); }
  }

  lemma MainRounds(s: State, c: Choice, u: nat)
    requires Shape(s) && u < s.n && StealOk(s, u) && !InTrace(s.pcs[0]) && !s.pcs[0].Outside?
    ensures RoundStep(s, 0, c, MainStep(s, c), u)
  {
    hide Wrap, Neighbours, MainStep, RoundStep, StealOk;
    if s.pcs[0].TryLock? || s.pcs[0].Check? {
      CheckRounds(s, c, u);
    } else {
      MainNoRound(s, c);
      QuietRounds(s, 0, c, MainStep(s, c), u);
    }
  }

  lemma MainNoRound(s: State, c: Choice)
    requires Shape(s) && !InTrace(s.pcs[0]) && !s.pcs[0].Outside? && !s.pcs[0].TryLock? && !s.pcs[0].Check?
    ensures NoRound(s, 0, MainStep(s, c))
  {
    hide Wrap, Neighbours;
  }

  lemma CheckRounds(s: State, c: Choice, u: nat)
    requires Shape(s) && u < s.n && StealOk(s, u) && (s.pcs[0].TryLock? || s.pcs[0].Check?)
    ensures RoundStep(s, 0, c, MainStep(s, c), u)
  {
    hide MainStep, RoundStep, StealOk;
    if s.pcs[0].TryLock? { LockedRounds(s, c, u); } else { CheckedRounds(s, c, u); }
  }

  lemma CheckedRounds(s: State, c: Choice, u: nat)
    requires Shape(s) && u < s.n && StealOk(s, u) && s.pcs[0].Check?
    ensures RoundStep(s, 0, c, MainStep(s, c), u)
  {
    hide Wrap, Neighbours;
  }

  lemma LockedRounds(s: State, c: Choice, u: nat)
    requires Shape(s) && u < s.n && StealOk(s, u) && s.pcs[0].TryLock?
    ensures RoundStep(s, 0, c, MainStep(s, c), u)
  {
    hide Wrap, Neighbours;
    if u == 0 { WrapSmall(s.stealId[0], s.n); }
  }

  lemma ParkRounds(s: State, w: nat, c: Choice, u: nat)
    requires Shape(s) && 0 < w < s.n && u < s.n && StealOk(s, u)
    ensures RoundStep(s, w, c, ParkStep(s, w), u)
  {
    hide ParkStep, RoundStep, StealOk;
    ParkNoRound(s, w);
    QuietRounds(s, w, c, ParkStep(s, w), u);
  }

  lemma ParkNoRound(s: State, w: nat)
    requires Shape(s) && 0 < w < s.n
    ensures NoRound(s, w, ParkStep(s, w))
  {
  }

  lemma {:induction false} RunRounds(run: seq<State>, n: nat, j: nat, u: nat)
    requires n > 0 && IsRun(run, n) && j < |run| && u < n
    ensures Shape(run[j]) && run[j].n == n && StealOk(run[j], u)
  {
    hide Init, Step, Next, RoundStep, LocksInv, StealOk;
    if j == 0 {
      InitRounds(n, u);
    } else {
      RunRounds(run, n, j - 1, u);
      var w, c := RoundAt(run, n, j - 1, u);
    }
  }

  lemma InitRounds(n: nat, u: nat)
    requires u < n
    ensures Shape(Init(n)) && Init(n).n == n && StealOk(Init(n), u)
  {
  }

  lemma RoundAt(run: seq<State>, n: nat, j: nat, u: nat) returns (w: nat, c: Choice)
    requires n > 0 && IsRun(run, n) && j + 1 < |run| && u < n && Shape(run[j]) && run[j].n == n && StealOk(run[j], u)
    ensures run[j + 1] == Step(run[j], w, c) && RoundStep(run[j], w, c, run[j + 1], u)
    ensures Shape(run[j + 1]) && run[j + 1].n == n && StealOk(run[j + 1], u)
  {
    hide Init, Step, Next, LocksInv, StealOk, PhaseInv, RootsOnlyInv, CountInv;
    RunInvAt(run, n, j);
    NextAt(run, n, j);
    w, c :| run[j + 1] == Step(run[j], w, c);
    StepRounds(run[j], w, c, u);
  }

  /** Worker `u` tries worker `v` at some state from `k` on, and does nothing but steal from there to `j`. */
  ghost predicate TriedSince(run: seq<State>, k: nat, c: Choice, j: nat, u: nat, v: nat) {
    && k < j < |run| && Shape(run[k]) && run[k + 1] == Step(run[k], u, c) && Tries(run[k], c, run[k + 1], u, v)
    && forall m :: k < m < j ==> u < |run[m].pcs| && run[m].pcs[u].Steal?
  }

  lemma {:induction false} RoundSoFar(run: seq<State>, n: nat, j: nat, u: nat, i: nat) returns (k: nat, c: Choice)
    requires n > 0 && IsRun(run, n) && j < |run| && u < n && u < |run[j].pcs| && run[j].pcs[u].Steal?
    requires i < run[j].pcs[u].j
    ensures TriedSince(run, k, c, j, u, Wrap(run[j].pcs[u].start + i, n))
    decreases j
  {
    hide Init, Step, Next, IsRun, Wrap;
    if j == 0 {
      InitRounds(n, u);
      InitNotStealing(run, n, u);
    } else {
      RunRounds(run, n, j - 1, u);
      var w, c' := RoundAt(run, n, j - 1, u);
      if run[j].pcs[u] != run[j - 1].pcs[u] && i == run[j].pcs[u].j - 1 {
        k, c := j - 1, c';
      } else {
        k, c := RoundSoFar(run, n, j - 1, u, i);
      }
    }
  }

  lemma InitNotStealing(run: seq<State>, n: nat, u: nat)
    requires n > 0 && IsRun(run, n) && u < n
    ensures !run[0].pcs[u].Steal? && !run[0].pcs[u].Decide?
  {
  }

  /** A worker that is about to give up has tried every worker's deque since it last had an object. */
  lemma {:induction false} GivesUpAfterRound(run: seq<State>, n: nat, j: nat, u: nat, v: nat)
    requires n > 0 && IsRun(run, n) && 0 < j < |run| && u < n && v < n
    requires u < |run[j].pcs| && run[j].pcs[u].Decide? && u < |run[j - 1].pcs| && !run[j - 1].pcs[u].Decide?
    ensures exists k, c :: TriedSince(run, k, c, j, u, v)
  {
    hide Init, Step, Next, IsRun, Wrap;
    RunRounds(run, n, j - 1, u);
    var w, c' := RoundAt(run, n, j - 1, u);
    var i := RoundCoversAll(n, run[j - 1].pcs[u].start, v);
    var k, c := RoundSoFar(run, n, j - 1, u, i);
    assert TriedSince(run, k, c, j, u, v);
  }

  /** A worker enters the way out of a trace only when, in a roots-only trace, no root waits any more, and
      in a full one, as a helper, it has given up. */
  lemma LeavesWhenDone(s: State, w: nat, c: Choice)
    requires Inv(s) && w < s.n && !s.pcs[w].Leave?
    ensures var s' := Step(s, w, c);
      && Shape(s') && s'.n == s.n
      && (s'.pcs[w].Leave? ==> if s.rootsOnly then s.read >= |s.roots| else w == 0 || s.pcs[w].Decide?)
  {
    hide Wrap, LocksInv, PhaseInv, CountInv, MainStep, ParkStep, RootStep, ObjectStep, WorkFrame;
    if InTrace(s.pcs[w]) {
      WorkShape(s, w, c);
      WorkLeaves(s, w, c);
    } else if w == 0 {
      MainLeaves(s, c);
    } else {
      ParkLeaves(s, w);
    }
  }

  lemma WorkLeaves(s: State, w: nat, c: Choice)
    requires Inv(s) && w < s.n && InTrace(s.pcs[w]) && !s.pcs[w].Leave?
    ensures var s' := WorkStep(s, w, c);
      && Shape(s') && s'.n == s.n
      && (s'.pcs[w].Leave? ==> if s.rootsOnly then s.read >= |s.roots| else w == 0 || s.pcs[w].Decide?)
  {
    hide Wrap, LocksInv, CountInv;
    WorkShape(s, w, c);
  }

  lemma MainLeaves(s: State, c: Choice)
    requires Shape(s) && PhaseInv(s) && !InTrace(s.pcs[0])
    ensures var s' := MainStep(s, c); Shape(s') && s'.n == s.n && (s'.pcs[0].Leave? && s.rootsOnly ==> s.read >= |s.roots|)
  {
    hide Wrap;
    MainShape(s, c);
  }

  lemma ParkLeaves(s: State, w: nat)
    requires Shape(s) && 0 < w < s.n && !s.pcs[w].Leave?
    ensures var s' := ParkStep(s, w); Shape(s') && s'.n == s.n && !s'.pcs[w].Leave?
  {
  }

  // ---------- Workers without work stop ----------

  /** How far worker `w` is from being parked, or main from having returned, when there is nothing to trace. */
  ghost function Left(s: State, w: nat): int
    requires Shape(s) && w < s.n
  {
    var roots := if s.read < |s.roots| then |s.roots| - s.read else 0;
    match s.pcs[w]
    case Resetting => 1
    case Release => 1
    case Leave => 2
    case LockRoots(k) => 3 + (s.n - k)
    case Check(_, j) => 3 + (s.n - j)
    case TryLock(k) => 4 + s.n + (s.n - k)
    case Decide => 5 + 2 * s.n
    case Steal(_, j) => 6 + 2 * s.n + (s.n - j)
    case TryPop => 7 + 3 * s.n
    case InObject(_) => 8 + 3 * s.n
    case UnlockBack(k) => 7 + 3 * s.n + k
    case AfterRoots => 9 + 3 * s.n
    case PopRoot => 10 + 3 * s.n + 2 * roots
    case InRoot(_) => 11 + 3 * s.n + 2 * roots
    case Begin => 11 + 3 * s.n + 2 * roots
    case Waking => 12 + 3 * s.n + 2 * roots
    case Unlocking(k) => 13 + 3 * s.n + 2 * roots + (s.n - k)
    case _ => 0
  }

  /** Helper `i` waits for the condition variable or for its lock. */
  ghost predicate Asleep(pc: Pc) {
    pc.CondWait? || pc.WantLock?
  }

  /** There is nothing on the deques, and if `w` is main all helpers are asleep. */
  ghost predicate NothingToDo(s: State, w: nat)
    requires Shape(s) && w < s.n
  {
    DequesEmpty(s) && (w == 0 ==> forall i :: 0 < i < s.n ==> Asleep(s.pcs[i]))
  }

  /** With nothing on the deques each step of a worker that discovers nothing brings it nearer to the end: a
      helper to sleep, and main, once the helpers are asleep, to its return. */
  lemma StopsWithoutWork(run: seq<State>, n: nat, s: State, w: nat)
    requires n > 0 && IsRun(run, n) && s == run[|run| - 1]
    requires Shape(s) && w < s.n && NothingToDo(s, w) && Left(s, w) > 0
    ensures var s' := Step(s, w, Go);
      && Shape(s') && s'.n == s.n && NothingToDo(s', w) && 0 <= Left(s', w) < Left(s, w)
      && (Left(s', w) == 0 ==> if w == 0 then s'.pcs[0].Outside? else Asleep(s'.pcs[w]))
  {
    hide IsRun, Inv, Wrap, Left, MainStep, ParkStep, RootStep, ObjectStep, WorkFrame, StealOk;
    RunInv(run, n);
    RunsInTurn(run, n, w);
    InvParts(s);
    var s' := Step(s, w, Go);
    if InTrace(s.pcs[w]) {
      if w == 0 { AloneActive(s); }
      if InObjects(s.pcs[w]) { ObjectStops(s, w); } else { RootStops(s, w); }
    } else if w == 0 {
      MainStops(s);
    } else {
      ParkStops(s, w);
    }
  }

  ghost predicate Stops(s: State, w: nat, s': State)
    requires Shape(s) && w < s.n
  {
    && Shape(s') && s'.n == s.n && s'.pcs == s.pcs[w := s'.pcs[w]] && s'.deques == s.deques && 0 <= Left(s', w) < Left(s, w)
    && (Left(s', w) == 0 ==> if w == 0 then s'.pcs[0].Outside? else Asleep(s'.pcs[w]))
  }

  lemma InvParts(s: State)
    requires Inv(s)
    ensures Shape(s) && LocksInv(s) && CountInv(s)
  {
  }

  lemma RunsInTurn(run: seq<State>, n: nat, w: nat)
    requires n > 0 && IsRun(run, n) && Shape(run[|run| - 1]) && w < run[|run| - 1].n
    ensures StealOk(run[|run| - 1], w)
  {
    hide Init, Step, Next, StealOk;
    RunRounds(run, n, |run| - 1, 0);
    RunRounds(run, n, |run| - 1, w);
  }

  /** While the helpers are asleep main is the only active tracer. */
  lemma AloneActive(s: State)
    requires Shape(s) && CountInv(s) && InTrace(s.pcs[0]) && NothingToDo(s, 0)
    ensures s.pcs[0].Begin? || s.active == 1
  {
    assert Held(s.pcs, Active) == Holds(s.pcs[0], Active) + Held(s.pcs[1..], Active);
    NoneHeld(s.pcs[1..], Active);
  }

  lemma RootStops(s: State, w: nat)
    requires Shape(s) && w < s.n && InTrace(s.pcs[w]) && !InObjects(s.pcs[w])
    ensures Stops(s, w, RootStep(s, w, Go))
  {
  }

  lemma ObjectStops(s: State, w: nat)
    requires Shape(s) && w < s.n && InObjects(s.pcs[w]) && DequesEmpty(s) && StealOk(s, w) && (w == 0 ==> s.active == 1)
    ensures Stops(s, w, ObjectStep(s, w, Go))
  {
    hide Wrap, ObjectStep, Stops, StealOk;
    if s.pcs[w].TryPop? || s.pcs[w].Steal? { TakesNothing(s, w); } else { TracingStops(s, w); }
  }

  lemma TakesNothing(s: State, w: nat)
    requires Shape(s) && w < s.n && (s.pcs[w].TryPop? || s.pcs[w].Steal?) && DequesEmpty(s) && StealOk(s, w)
    ensures Stops(s, w, ObjectStep(s, w, Go))
  {
    hide Wrap;
  }

  lemma TracingStops(s: State, w: nat)
    requires Shape(s) && w < s.n && (s.pcs[w].InObject? || s.pcs[w].Decide?) && (w == 0 ==> s.active == 1)
    ensures Stops(s, w, ObjectStep(s, w, Go))
  {
    hide Wrap;
  }

  lemma MainStops(s: State)
    requires Shape(s) && LocksInv(s) && !InTrace(s.pcs[0]) && NothingToDo(s, 0) && Left(s, 0) > 0
    ensures Stops(s, 0, MainStep(s, Go))
  {
    hide MainStep, LocksInv, Stops, NothingToDo, Left;
    var pc := s.pcs[0];
    if pc.LockRoots? || pc.TryLock? { LocksStop(s); } else { LoopStops(s); }
  }

  lemma LocksStop(s: State)
    requires Shape(s) && LocksInv(s) && (s.pcs[0].LockRoots? || s.pcs[0].TryLock?) && NothingToDo(s, 0)
    ensures Stops(s, 0, MainStep(s, Go))
  {
    hide Wrap;
    if s.pcs[0].k < s.n { assert HelperLock(s, s.pcs[0].k); }
  }

  lemma LoopStops(s: State)
    requires Shape(s) && LocksInv(s) && !InTrace(s.pcs[0]) && NothingToDo(s, 0) && Left(s, 0) > 0
    requires !s.pcs[0].LockRoots? && !s.pcs[0].TryLock?
    ensures Stops(s, 0, MainStep(s, Go))
  {
    hide MainStep, LocksInv, Stops, NothingToDo;
    if s.pcs[0].Check? || s.pcs[0].UnlockBack? { ChecksStop(s); } else { StartStops(s); }
  }

  lemma ChecksStop(s: State)
    requires Shape(s) && LocksInv(s) && NothingToDo(s, 0) && (s.pcs[0].Check? || s.pcs[0].UnlockBack?)
    ensures Stops(s, 0, MainStep(s, Go))
  {
    hide Wrap, HelperLock;
  }

  lemma StartStops(s: State)
    requires Shape(s) && LocksInv(s) && !InTrace(s.pcs[0]) && NothingToDo(s, 0) && Left(s, 0) > 0
    requires !s.pcs[0].LockRoots? && !s.pcs[0].TryLock? && !s.pcs[0].Check? && !s.pcs[0].UnlockBack?
    ensures Stops(s, 0, MainStep(s, Go))
  {
    hide Wrap, HelperLock;
  }

  lemma ParkStops(s: State, w: nat)
    requires Shape(s) && 0 < w < s.n && !InTrace(s.pcs[w]) && Left(s, w) > 0 && LocksInv(s)
    ensures Stops(s, w, ParkStep(s, w))
  {
    assert HelperLock(s, w);
  }

  // ---------- A roots-only trace ----------

  /** What any step does between the start of a roots-only trace and its return. */
  ghost predicate OnlyRoots(s: State, s': State)
    requires Shape(s)
  {
    && Shape(s') && s'.n == s.n && s'.traced == s.traced
    && (s'.rootsOnly == s.rootsOnly || s'.pcs[0].Outside?)
    && forall w :: 0 <= w < s.n ==> s.deques[w] <= s'.deques[w]
  }

  lemma RootsOnlyStep(s: State, w: nat, c: Choice)
    requires Inv(s) && s.rootsOnly
    ensures OnlyRoots(s, Step(s, w, c))
  {
    hide Wrap, CountInv, PhaseInv, LocksInv, ObjectStep, MainStep, ParkStep, RootStep, OnlyRoots;
    if w >= s.n {
      SameOnlyRoots(s);
    } else if InTrace(s.pcs[w]) {
      RootOnlyRoots(s, w, c);
    } else if w == 0 {
      MainOnlyRoots(s, c);
    } else {
      ParkOnlyRoots(s, w);
    }
  }

  lemma SameOnlyRoots(s: State)
    requires Shape(s)
    ensures OnlyRoots(s, s)
  {
  }

  lemma RootOnlyRoots(s: State, w: nat, c: Choice)
    requires Shape(s) && w < s.n && InTrace(s.pcs[w]) && !InObjects(s.pcs[w])
    ensures OnlyRoots(s, RootStep(s, w, c))
  {
    RootFrame(s, w, c);
  }

  lemma MainOnlyRoots(s: State, c: Choice)
    requires Shape(s) && s.rootsOnly && !s.pcs[0].Outside?
    ensures OnlyRoots(s, MainStep(s, c))
  {
    hide Wrap;
  }

  lemma ParkOnlyRoots(s: State, w: nat)
    requires Shape(s) && 0 < w < s.n
    ensures OnlyRoots(s, ParkStep(s, w))
  {
  }

  lemma {:induction false} RunInvAt(run: seq<State>, n: nat, i: nat)
    requires n > 0 && IsRun(run, n) && i < |run|
    ensures Inv(run[i])
  {
    hide Inv, Next;
    assert IsRun(run[..i + 1], n);
    RunInv(run[..i + 1], n);
  }

  /** Main starts a trace in state `i`, roots-only or not, and in state `j` it has not returned from it. */
  ghost predicate Tracing(run: seq<State>, n: nat, i: nat, j: nat, only: bool)
    requires n > 0
  {
    && IsRun(run, n) && i < j < |run| && Shape(run[i]) && run[i].pcs[0].Outside?
    && run[i + 1] == Step(run[i], 0, StartTrace(only))
    && forall k :: i < k <= j ==> Shape(run[k]) && !run[k].pcs[0].Outside?
  }

  lemma {:induction false} DequesOnlyGrow(run: seq<State>, n: nat, i: nat, j: nat)
    requires n > 0 && Tracing(run, n, i, j, true)
    ensures run[j].rootsOnly && run[j].traced == run[i].traced && Shape(run[j]) && run[j].n == run[i].n
    ensures forall w :: 0 <= w < run[i].n ==> run[i].deques[w] <= run[j].deques[w]
    decreases j
  {
    hide Inv, Next, Shape, IsRun, Step;
    if j == i + 1 {
      StartsRootsOnly(run[i]);
    } else {
      DequesOnlyGrow(run, n, i, j - 1);
      RunInvAt(run, n, j - 1);
      NextAt(run, n, j - 1);
      var w, c :| run[j] == Step(run[j - 1], w, c);
      RootsOnlyStep(run[j - 1], w, c);
    }
  }

  lemma StartsRootsOnly(s: State)
    requires Shape(s) && s.pcs[0].Outside?
    ensures var s' := Step(s, 0, StartTrace(true));
      Shape(s') && s'.rootsOnly && s'.n == s.n && s'.traced == s.traced && s'.deques == s.deques && s'.enqueued == s.enqueued
  {
    hide Wrap;
  }

  lemma NextAt(run: seq<State>, n: nat, i: nat)
    requires n > 0 && IsRun(run, n) && i + 1 < |run|
    ensures Shape(run[i]) && exists w, c :: run[i + 1] == Step(run[i], w, c)
  {
    assert Next(run[i], run[i + 1]);
  }

  /** A roots-only trace traces no object: no worker comes to the object loop, every deque keeps what was on
      it, and all that the roots enqueue is left there too. */
  lemma RootsOnlyTracesNothing(run: seq<State>, n: nat, i: nat, j: nat)
    requires n > 0 && Tracing(run, n, i, j, true)
    ensures run[j].traced == run[i].traced
    ensures forall w :: 0 <= w < run[j].n && w < |run[j].pcs| ==> !InObjects(run[j].pcs[w])
    ensures forall w :: 0 <= w < run[i].n && w < |run[i].deques| && w < |run[j].deques| ==> run[i].deques[w] <= run[j].deques[w]
    ensures forall o :: Queued(run[j].deques, o) + run[i].enqueued[o] == Queued(run[i].deques, o) + run[j].enqueued[o]
  {
    DequesOnlyGrow(run, n, i, j);
    RunInvAt(run, n, i);
    RunInvAt(run, n, j);
    forall o ensures Queued(run[j].deques, o) + run[i].enqueued[o] == Queued(run[i].deques, o) + run[j].enqueued[o] {
      NothingHeldOutside(run[i], o);
      NothingHeldRootsOnly(run[j], o);
    }
  }

  lemma NothingHeldOutside(s: State, o: Ref)
    requires Inv(s) && s.pcs[0].Outside?
    ensures s.enqueued[o] == s.traced[o] + Queued(s.deques, o)
  {
    hide Queued, Held;
    assert ObjectOnce(s, o);
    forall i | 0 <= i < s.n ensures Holds(s.pcs[i], Obj(o)) == 0 {
      if i > 0 { assert HelperLock(s, i); }
    }
    NoneHeld(s.pcs, Obj(o));
  }

  lemma NothingHeldRootsOnly(s: State, o: Ref)
    requires Inv(s) && s.rootsOnly
    ensures s.enqueued[o] == s.traced[o] + Queued(s.deques, o)
  {
    hide Queued, Held, LocksInv, PhaseInv;
    assert ObjectOnce(s, o);
    NoneHeld(s.pcs, Obj(o));
  }

  /** Main is about to return from gc_tracer_trace. */
  ghost predicate Returning(s: State) {
    Shape(s) && s.pcs[0].Resetting?
  }

  /** When any trace returns, no helper is inside trace_with_data, `active_tracers` is zero,
      and every root ever added was processed by exactly one worker, once and to completion. */
  lemma TraceReturnsQuiet(run: seq<State>, n: nat, s: State)
    requires n > 0 && IsRun(run, n) && s == run[|run| - 1] && Returning(s)
    ensures forall i :: 0 < i < s.n ==> Parking(s.pcs[i]) && s.locks[i].Main?
    ensures s.active == 0
    ensures s.finishedRoots == s.addedRoots
  {
    RunInv(run, n);
    QuietTokens(s, Active);
    forall r: nat
      ensures s.finishedRoots[r] == s.addedRoots[r]
    {
      assert RootOnce(s, r);
      QuietTokens(s, Root(r));
    }
  }

  lemma QuietTokens(s: State, t: Token)
    requires Inv(s) && Returning(s)
    ensures forall i :: 0 < i < s.n ==> Parking(s.pcs[i]) && s.locks[i].Main?
    ensures Held(s.pcs, t) == 0
  {
    hide Held, CountInv, PhaseInv;
    forall i | 0 <= i < s.n
      ensures Holds(s.pcs[i], t) == 0 && (i > 0 ==> Parking(s.pcs[i]) && s.locks[i].Main?)
    {
      if i > 0 { assert HelperLock(s, i); }
    }
    NoneHeld(s.pcs, t);
  }

  /** When a full trace returns, moreover, every deque is empty and every object ever
      enqueued, in this trace or left over from a roots-only one, was traced exactly once. */
  lemma FullTraceIsComplete(run: seq<State>, n: nat, i: nat, j: nat)
    requires n > 0 && Tracing(run, n, i, j, false) && Returning(run[j])
    ensures DequesEmpty(run[j])
    ensures run[j].traced == run[j].enqueued
  {
    KindKept(run, n, i, j, false);
    RunInvAt(run, n, j);
    EmptyAtReturn(run[j]);
  }

  lemma EmptyAtReturn(s: State)
    requires Inv(s) && Returning(s) && !s.rootsOnly
    ensures DequesEmpty(s) && s.traced == s.enqueued
  {
    forall o
      ensures s.traced[o] == s.enqueued[o]
    {
      assert ObjectOnce(s, o);
      QuietTokens(s, Obj(o));
      NoneQueued(s.deques, o);
    }
  }

  /** A trace is roots-only from its start to its return just if it was started so. */
  lemma {:induction false} KindKept(run: seq<State>, n: nat, i: nat, j: nat, only: bool)
    requires n > 0 && Tracing(run, n, i, j, only)
    ensures run[j].rootsOnly == only
    decreases j
  {
    hide Inv, Next, Shape, IsRun, Step;
    RunInvAt(run, n, j - 1);
    if j == i + 1 {
      StartsKind(run[i], only);
    } else {
      KindKept(run, n, i, j - 1, only);
      NextAt(run, n, j - 1);
      var w, c :| run[j] == Step(run[j - 1], w, c);
      KindStep(run[j - 1], w, c);
    }
  }

  lemma StartsKind(s: State, only: bool)
    requires Shape(s) && s.pcs[0].Outside?
    ensures Step(s, 0, StartTrace(only)).rootsOnly == only
  {
    hide Wrap;
  }

  lemma KindStep(s: State, w: nat, c: Choice)
    requires Inv(s) && !s.pcs[0].Outside?
    ensures var s' := Step(s, w, c); Shape(s') && (s'.rootsOnly == s.rootsOnly || s'.pcs[0].Outside?)
  {
    hide Wrap, MainStep, WorkStep, ParkStep, LocksInv, PhaseInv, RootsOnlyInv, CountInv;
    StepInv(s, w, c);
    if w >= s.n {
    } else if InTrace(s.pcs[w]) {
      WorkKind(s, w, c);
    } else if w == 0 {
      MainKind(s, c);
    } else {
      ParkKind(s, w);
    }
  }

  lemma WorkKind(s: State, w: nat, c: Choice)
    requires Shape(s) && w < s.n
    ensures WorkStep(s, w, c).rootsOnly == s.rootsOnly
  {
    hide Wrap, ObjectStep;
    ObjectSameKind(s, w, c);
  }

  lemma MainKind(s: State, c: Choice)
    requires Shape(s) && !s.pcs[0].Outside? && Shape(MainStep(s, c))
    ensures MainStep(s, c).rootsOnly == s.rootsOnly || MainStep(s, c).pcs[0].Outside?
  {
    hide Wrap;
  }

  lemma ParkKind(s: State, w: nat)
    requires Shape(s) && 0 < w < s.n
    ensures ParkStep(s, w).rootsOnly == s.rootsOnly
  {
  }
}
