/**
  The stop-the-world rendezvous of src/mmc.c: mutators join, leave, deactivate, reactivate,
  reach safepoints and trigger collections, in any number and any order.

  What a thread does between taking the heap lock and giving it up, or sleeping on a
  condition variable, is one step.  A thread asleep on a condition variable may wake at any
  time, as POSIX allows; `asleep` records whether it has been signalled since it went to
  sleep.  The collector keeps the heap lock while it collects; the model lets the others
  go on taking it, and the results hold all the same.
*/
module Rendezvous {

  type Kind = nat  // GC_COLLECTION_ANY = 0, MINOR, MAJOR, COMPACTING

  datatype Why = Safepoint | Trigger(requested: Kind)

  datatype Mutator =
    | Detached
    | Joining(asleep: bool)                             // add_mutator, waiting
    | Running
    | Inactive
    | Reactivating(asleep: bool)                        // reactivate_mutator, waiting
    | Paused(why: Why, prevKind: Kind, asleep: bool)    // pause_mutator_for_collection
    | Waiting(asleep: bool)                             // wait_for_mutators_to_stop
    | Collecting
    | Crashed                                           // an assertion failed

  datatype Heap = Heap(
    ms: map<nat, Mutator>,
    mutators: int, paused: int, inactive: int,          // the three counts
    collecting: bool,
    gcKind: Kind,
    kinds: seq<Kind>)                                   // collections done, by kind

  datatype Action =
    | Add | Remove | Deactivate | Reactivate
    | PollSafepoint
    | Collect(requested: Kind)
    | Wake
    | FinishCollection(kind: Kind)

  function Of(h: Heap, t: nat): Mutator {
    if t in h.ms then h.ms[t] else Detached
  }

  function Set(h: Heap, t: nat, m: Mutator): Heap {
    h.(ms := h.ms[t := m])
  }

  predicate AllStopped(h: Heap) {
    h.mutators == h.paused + h.inactive
  }

  /** pthread_cond_signal on collector_cond. */
  function Signalled(m: Mutator): Mutator {
    if m.Waiting? then Waiting(false) else m
  }

  function SignalCollector(h: Heap): Heap {
    h.(ms := map t | t in h.ms :: Signalled(h.ms[t]))
  }

  /** pthread_cond_broadcast on mutator_cond. */
  function Broadcast(m: Mutator): Mutator {
    match m
    case Joining(_) => Joining(false)
    case Reactivating(_) => Reactivating(false)
    case Paused(why, prev, _) => Paused(why, prev, false)
    case _ => m
  }

  function BroadcastMutators(h: Heap): Heap {
    h.(ms := map t | t in h.ms :: Broadcast(h.ms[t]))
  }

  // ---------- Steps ----------

  function Join(h: Heap, t: nat): Heap {
    if h.collecting then Set(h, t, Joining(true))
    else Set(h, t, Running).(mutators := h.mutators + 1)
  }

  function RemoveMutator(h: Heap, t: nat): Heap {
    var h1 := Set(h, t, Detached)
      .(inactive := if Of(h, t).Inactive? then h.inactive - 1 else h.inactive, mutators := h.mutators - 1);
    if h1.collecting && AllStopped(h1) then SignalCollector(h1) else h1
  }

  function DeactivateMutator(h: Heap, t: nat): Heap {
    var h1 := Set(h, t, Inactive).(inactive := h.inactive + 1);
    if AllStopped(h1) then SignalCollector(h1) else h1
  }

  function ReactivateMutator(h: Heap, t: nat): Heap {
    if h.collecting then Set(h, t, Reactivating(true))
    else Set(h, t, Running).(inactive := h.inactive - 1)
  }

  /** pause_mutator_for_collection, up to its wait. */
  function Pause(h: Heap, t: nat, why: Why): Heap {
    if AllStopped(h) then Set(h, t, Crashed)
    else
      var h1 := Set(h, t, Paused(why, h.gcKind, true)).(paused := h.paused + 1);
      if AllStopped(h1) then SignalCollector(h1) else h1
  }

  /** collect, up to the end of wait_for_mutators_to_stop or its first wait. */
  function StartCollection(h: Heap, t: nat): Heap {
    if h.collecting then Set(h, t, Crashed)
    else WaitForStop(h.(collecting := true, paused := h.paused + 1), t)
  }

  function WaitForStop(h: Heap, t: nat): Heap {
    Set(h, t, if AllStopped(h) then Collecting else Waiting(true))
  }

  /** A paused mutator wakes: go back to sleep, or resume what it was doing. */
  function Resume(h: Heap, t: nat, why: Why, prevKind: Kind): Heap {
    if h.collecting then Set(h, t, Paused(why, prevKind, true))
    else
      var h1 := Set(h, t, Running).(paused := h.paused - 1);
      if why.Trigger? && prevKind < why.requested then StartCollection(h1, t) else h1
  }

  function WakeUp(h: Heap, t: nat): Heap {
    match Of(h, t)
    case Joining(_) => Join(h, t)
    case Reactivating(_) => ReactivateMutator(h, t)
    case Paused(why, prevKind, _) => Resume(h, t, why, prevKind)
    case Waiting(_) => WaitForStop(h, t)
    case _ => h
  }

  /** The collection, and allow_mutators_to_continue. */
  function Finish(h: Heap, t: nat, kind: Kind): Heap {
    if !h.collecting || !AllStopped(h) then Set(h, t, Crashed)
    else
      BroadcastMutators(Set(h, t, Running)
        .(paused := h.paused - 1, collecting := false, gcKind := kind, kinds := h.kinds + [kind]))
  }

  function Step(h: Heap, t: nat, act: Action): Heap {
    var m := Of(h, t);
    match act
    case Add => if m.Detached? then Join(h, t) else h
    case Remove => if m.Running? || m.Inactive? then RemoveMutator(h, t) else h
    case Deactivate => if m.Running? then DeactivateMutator(h, t) else h
    case Reactivate => if m.Inactive? then ReactivateMutator(h, t) else h
    case PollSafepoint => if m.Running? && h.collecting then Pause(h, t, Safepoint) else h
    case Collect(requested) =>
      if !m.Running? then h
      else if h.collecting then Pause(h, t, Trigger(requested))
      else StartCollection(h, t)
    case Wake => WakeUp(h, t)
    case FinishCollection(kind) => if m.Collecting? then Finish(h, t, kind) else h
  }

  function Init(): Heap {
    Heap(map[], 0, 0, 0, false, 0, [])
  }

  // ---------- Invariant ----------

  function LastKind(h: Heap): Kind {
    if h.kinds == [] then 0 else h.kinds[|h.kinds| - 1]
  }

  predicate IsAttached(m: Mutator) {
    !m.Detached? && !m.Joining?
  }

  predicate IsPaused(m: Mutator) {
    m.Paused? || m.Waiting? || m.Collecting?
  }

  predicate IsInactive(m: Mutator) {
    m.Inactive? || m.Reactivating?
  }

  predicate IsCollector(m: Mutator) {
    m.Waiting? || m.Collecting?
  }

  ghost function Members(ms: map<nat, Mutator>, p: Mutator -> bool): set<nat> {
    set t | t in ms && p(ms[t])
  }

  ghost function Attached(h: Heap): set<nat> {
    Members(h.ms, IsAttached)
  }

  ghost function PausedOnes(h: Heap): set<nat> {
    Members(h.ms, IsPaused)
  }

  ghost function InactiveOnes(h: Heap): set<nat> {
    Members(h.ms, IsInactive)
  }

  ghost predicate CountsOk(h: Heap) {
    h.mutators == |Attached(h)| && h.paused == |PausedOnes(h)| && h.inactive == |InactiveOnes(h)|
  }

  ghost predicate OneCollector(h: Heap) {
    && (forall t, u :: IsCollector(Of(h, t)) && IsCollector(Of(h, u)) ==> t == u)
    && (h.collecting <==> exists t :: IsCollector(Of(h, t)))
  }

  /** Nobody sleeps who ought to have been woken. */
  ghost predicate SleepOk(h: Heap, m: Mutator) {
    match m
    case Joining(asleep) => asleep ==> h.collecting
    case Reactivating(asleep) => asleep ==> h.collecting
    case Paused(_, _, asleep) => asleep ==> h.collecting
    case Waiting(asleep) => asleep ==> !AllStopped(h)
    case Collecting => AllStopped(h)
    case Crashed => false
    case _ => true
  }

  ghost predicate Inv(h: Heap) {
    && CountsOk(h) && OneCollector(h)
    && (forall t :: SleepOk(h, Of(h, t)))
    && h.gcKind == LastKind(h)
  }

  lemma InitInv()
    ensures Inv(Init())
  {
    assert Attached(Init()) == {} && PausedOnes(Init()) == {} && InactiveOnes(Init()) == {};
  }

  // ---------- Counting ----------

  function Delta(b: bool, b': bool): int {
    (if b' then 1 else 0) - (if b then 1 else 0)
  }

  lemma MembersAfter(ms: map<nat, Mutator>, t: nat, m: Mutator, p: Mutator -> bool)
    requires !p(Detached)
    ensures |Members(ms[t := m], p)| == |Members(ms, p)| + Delta(t in ms && p(ms[t]), p(m))
  {
    var a, a' := Members(ms, p), Members(ms[t := m], p);
    if p(m) {
      assert a' == a + {t};
    } else {
      assert a' == a - {t};
    }
  }

  /** One thread changes state: each population changes by what that thread's change says. */
  lemma SetCounts(h: Heap, t: nat, m: Mutator)
    ensures var h' := Set(h, t, m);
      && |Attached(h')| == |Attached(h)| + Delta(IsAttached(Of(h, t)), IsAttached(m))
      && |PausedOnes(h')| == |PausedOnes(h)| + Delta(IsPaused(Of(h, t)), IsPaused(m))
      && |InactiveOnes(h')| == |InactiveOnes(h)| + Delta(IsInactive(Of(h, t)), IsInactive(m))
  {
    hide Delta, Members;
    MembersAfter(h.ms, t, m, IsAttached);
    MembersAfter(h.ms, t, m, IsPaused);
    MembersAfter(h.ms, t, m, IsInactive);
  }

  lemma SameClasses(h: Heap, h': Heap)
    requires forall t :: Of(h', t) == Signalled(Of(h, t)) || Of(h', t) == Broadcast(Of(h, t))
    requires h'.ms.Keys == h.ms.Keys
    ensures Attached(h') == Attached(h) && PausedOnes(h') == PausedOnes(h) && InactiveOnes(h') == InactiveOnes(h)
  {
    forall t ensures t in Attached(h') <==> t in Attached(h) { assert Of(h', t) == Of(h', t); }
    forall t ensures t in PausedOnes(h') <==> t in PausedOnes(h) { assert Of(h', t) == Of(h', t); }
    forall t ensures t in InactiveOnes(h') <==> t in InactiveOnes(h) { assert Of(h', t) == Of(h', t); }
  }

  /** All stopped means that no attached mutator is running. */
  lemma StoppedMeansNoneRunning(h: Heap)
    requires CountsOk(h) && forall t :: !Of(h, t).Crashed?
    ensures AllStopped(h) <==> forall t :: !Of(h, t).Running?
  {
    var rest := Attached(h) - PausedOnes(h) - InactiveOnes(h);
    assert PausedOnes(h) !! InactiveOnes(h) && PausedOnes(h) + InactiveOnes(h) <= Attached(h);
    assert Attached(h) == PausedOnes(h) + InactiveOnes(h) + rest;
    assert |Attached(h)| == |PausedOnes(h)| + |InactiveOnes(h)| + |rest|;
    forall t ensures t in rest <==> Of(h, t).Running? {}
    if AllStopped(h) {
      assert rest == {};
    }
    if forall t :: !Of(h, t).Running? {
      assert rest == {};
    }
  }

  /** The counts after one thread's change of state, from the counts before. */
  lemma CountsAfter(h: Heap, h': Heap, t: nat, m: Mutator)
    requires CountsOk(h) && h'.ms == Set(h, t, m).ms
    requires h'.mutators == h.mutators + Delta(IsAttached(Of(h, t)), IsAttached(m))
    requires h'.paused == h.paused + Delta(IsPaused(Of(h, t)), IsPaused(m))
    requires h'.inactive == h.inactive + Delta(IsInactive(Of(h, t)), IsInactive(m))
    ensures CountsOk(h')
  {
    hide Delta, IsAttached, IsPaused, IsInactive;
    SetCounts(h, t, m);
    var h1 := Set(h, t, m);
    assert Attached(h') == Attached(h1) && PausedOnes(h') == PausedOnes(h1) && InactiveOnes(h') == InactiveOnes(h1);
  }

  // ---------- Steps keep the invariant ----------

  /** All but the counts: thread `t` changes state to `m` and nobody is signalled. */
  lemma OthersKept(h: Heap, h': Heap, t: nat, m: Mutator)
    requires Inv(h) && h'.ms == Set(h, t, m).ms && CountsOk(h') && h'.kinds == h.kinds && h'.gcKind == h.gcKind
    requires SleepOk(h', m) && (IsCollector(m) ==> h'.collecting)
    requires h.collecting ==> h'.collecting && !IsCollector(m) && !IsCollector(Of(h, t))
    requires h.collecting ==> (AllStopped(h') <==> AllStopped(h))
    requires h'.collecting && !h.collecting ==> IsCollector(m)
    ensures Inv(h')
  {
    forall u ensures SleepOk(h', Of(h', u)) { assert SleepOk(h, Of(h, u)); }
    assert OneCollector(h') by {
      forall u ensures IsCollector(Of(h', u)) <==> if u == t then IsCollector(m) else IsCollector(Of(h, u)) {}
      if h.collecting {
        var u :| IsCollector(Of(h, u));
        assert IsCollector(Of(h', u));
      } else if h'.collecting {
        assert IsCollector(Of(h', t));
      }
    }
  }

  lemma SignalKeeps(h: Heap, h': Heap, t: nat, m: Mutator)
    requires Inv(h) && h'.ms == Set(h, t, m).ms && CountsOk(h') && h'.kinds == h.kinds && h'.gcKind == h.gcKind
    requires h'.collecting == h.collecting && !IsCollector(m) && !IsCollector(Of(h, t)) && SleepOk(h', m)
    requires AllStopped(h')
    ensures Inv(SignalCollector(h'))
  {
    var h2 := SignalCollector(h');
    SameClasses(h', h2);
    forall u ensures SleepOk(h2, Of(h2, u)) { assert SleepOk(h, Of(h, u)); }
    assert OneCollector(h2) by {
      forall u ensures IsCollector(Of(h2, u)) <==> IsCollector(Of(h, u)) {}
      if h.collecting {
        var u :| IsCollector(Of(h, u));
        assert IsCollector(Of(h2, u));
      }
    }
  }

  lemma NotStoppedIfRunning(h: Heap, t: nat)
    requires Inv(h) && Of(h, t).Running?
    ensures !AllStopped(h)
  {
    forall u ensures !Of(h, u).Crashed? { assert SleepOk(h, Of(h, u)); }
    StoppedMeansNoneRunning(h);
  }

  lemma JoinKeeps(h: Heap, t: nat)
    requires Inv(h) && (Of(h, t).Detached? || Of(h, t).Joining?)
    ensures Inv(Join(h, t))
  {
    var h' := Join(h, t);
    var m := if h.collecting then Joining(true) else Running;
    CountsAfter(h, h', t, m);
    OthersKept(h, h', t, m);
  }

  lemma RemoveKeeps(h: Heap, t: nat)
    requires Inv(h) && (Of(h, t).Running? || Of(h, t).Inactive?)
    ensures Inv(RemoveMutator(h, t))
  {
    var h1 := Set(h, t, Detached)
      .(inactive := if Of(h, t).Inactive? then h.inactive - 1 else h.inactive, mutators := h.mutators - 1);
    CountsAfter(h, h1, t, Detached);
    if Of(h, t).Running? { NotStoppedIfRunning(h, t); }
    if h1.collecting && AllStopped(h1) {
      SignalKeeps(h, h1, t, Detached);
    } else {
      OthersKept(h, h1, t, Detached);
    }
  }

  lemma DeactivateKeeps(h: Heap, t: nat)
    requires Inv(h) && Of(h, t).Running?
    ensures Inv(DeactivateMutator(h, t))
  {
    var h1 := Set(h, t, Inactive).(inactive := h.inactive + 1);
    CountsAfter(h, h1, t, Inactive);
    NotStoppedIfRunning(h, t);
    if AllStopped(h1) { SignalKeeps(h, h1, t, Inactive); } else { OthersKept(h, h1, t, Inactive); }
  }

  lemma ReactivateKeeps(h: Heap, t: nat)
    requires Inv(h) && (Of(h, t).Inactive? || Of(h, t).Reactivating?)
    ensures Inv(ReactivateMutator(h, t))
  {
    var h' := ReactivateMutator(h, t);
    var m := if h.collecting then Reactivating(true) else Running;
    CountsAfter(h, h', t, m);
    OthersKept(h, h', t, m);
  }

  lemma PauseKeeps(h: Heap, t: nat, why: Why)
    requires Inv(h) && Of(h, t).Running? && h.collecting
    ensures Inv(Pause(h, t, why))
  {
    NotStoppedIfRunning(h, t);
    var m := Paused(why, h.gcKind, true);
    var h1 := Set(h, t, m).(paused := h.paused + 1);
    CountsAfter(h, h1, t, m);
    if AllStopped(h1) { SignalKeeps(h, h1, t, m); } else { OthersKept(h, h1, t, m); }
  }

  lemma StartKeeps(h: Heap, t: nat)
    requires Inv(h) && Of(h, t).Running? && !h.collecting
    ensures Inv(StartCollection(h, t))
  {
    var h' := StartCollection(h, t);
    var m := Of(h', t);
    CountsAfter(h, h', t, m);
    OthersKept(h, h', t, m);
  }

  lemma ResumeKeeps(h: Heap, t: nat, why: Why, prevKind: Kind)
    requires Inv(h) && Of(h, t).Paused?
    ensures Inv(Resume(h, t, why, prevKind))
  {
    if h.collecting {
      var m := Paused(why, prevKind, true);
      CountsAfter(h, Set(h, t, m), t, m);
      OthersKept(h, Set(h, t, m), t, m);
    } else {
      var h1 := Set(h, t, Running).(paused := h.paused - 1);
      CountsAfter(h, h1, t, Running);
      OthersKept(h, h1, t, Running);
      if why.Trigger? && prevKind < why.requested { StartKeeps(h1, t); }
    }
  }

  lemma CollectorWakes(h: Heap, t: nat)
    requires Inv(h) && Of(h, t).Waiting?
    ensures Inv(WaitForStop(h, t))
  {
    var h' := WaitForStop(h, t);
    CountsAfter(h, h', t, Of(h', t));
    forall u ensures SleepOk(h', Of(h', u)) { assert SleepOk(h, Of(h, u)); }
    assert IsCollector(Of(h', t)) && IsCollector(Of(h, t));
    forall u, v | IsCollector(Of(h', u)) && IsCollector(Of(h', v)) ensures u == v {
      assert IsCollector(Of(h, u)) && IsCollector(Of(h, v));
    }
  }

  lemma FinishKeeps(h: Heap, t: nat, kind: Kind)
    requires Inv(h) && Of(h, t).Collecting?
    ensures Inv(Finish(h, t, kind))
  {
    assert SleepOk(h, Of(h, t)) && IsCollector(Of(h, t));
    var h1 := Set(h, t, Running)
      .(paused := h.paused - 1, collecting := false, gcKind := kind, kinds := h.kinds + [kind]);
    var h' := Finish(h, t, kind);
    CountsAfter(h, h1, t, Running);
    SameClasses(h1, h');
    forall u ensures SleepOk(h', Of(h', u)) && !IsCollector(Of(h', u)) {
      assert SleepOk(h, Of(h, u));
      if IsCollector(Of(h, u)) { assert u == t; }
    }
  }

  lemma StepInv(h: Heap, t: nat, act: Action)
    requires Inv(h)
    ensures Inv(Step(h, t, act))
  {
    hide Inv, Join, RemoveMutator, DeactivateMutator, ReactivateMutator, Pause, StartCollection, Resume, WaitForStop, Finish;
    var m := Of(h, t);
    match act
    case Add => if m.Detached? { JoinKeeps(h, t); }
    case Remove => if m.Running? || m.Inactive? { RemoveKeeps(h, t); }
    case Deactivate => if m.Running? { DeactivateKeeps(h, t); }
    case Reactivate => if m.Inactive? { ReactivateKeeps(h, t); }
    case PollSafepoint => if m.Running? && h.collecting { PauseKeeps(h, t, Safepoint); }
    case Collect(requested) =>
      if m.Running? {
        if h.collecting { PauseKeeps(h, t, Trigger(requested)); } else { StartKeeps(h, t); }
      }
    case Wake => WakeKeeps(h, t);
    case FinishCollection(kind) => if m.Collecting? { FinishKeeps(h, t, kind); }
  }

  lemma WakeKeeps(h: Heap, t: nat)
    requires Inv(h)
    ensures Inv(WakeUp(h, t))
  {
    hide Inv, Join, ReactivateMutator, Resume, WaitForStop;
    match Of(h, t)
    case Joining(_) => JoinKeeps(h, t);
    case Reactivating(_) => ReactivateKeeps(h, t);
    case Paused(why, prevKind, _) => ResumeKeeps(h, t, why, prevKind);
    case Waiting(_) => CollectorWakes(h, t);
    case _ =>
  }

  // ---------- Runs ----------

  ghost predicate Next(h: Heap, h': Heap) {
    exists t, act :: h' == Step(h, t, act)
  }

  ghost predicate IsRun(run: seq<Heap>) {
    && run != [] && run[0] == Init()
    && forall i :: 0 <= i < |run| - 1 ==> Next(run[i], run[i + 1])
  }

  lemma {:induction false} RunInv(run: seq<Heap>)
    requires IsRun(run)
    ensures Inv(run[|run| - 1])
  {
    hide Inv, Step;
    if |run| == 1 {
      InitInv();
    } else {
      var front := run[..|run| - 1];
      assert IsRun(front) by {
        forall i | 0 <= i < |front| - 1 ensures Next(front[i], front[i + 1]) { assert Next(run[i], run[i + 1]); }
      }
      RunInv(front);
      assert Next(run[|run| - 2], run[|run| - 1]);
      var t, act :| run[|run| - 1] == Step(run[|run| - 2], t, act);
      StepInv(run[|run| - 2], t, act);
    }
  }

  // ---------- Main results ----------

  /** While a collection is going on no mutator is running, nobody else is collecting or about
      to, and none of the assertions has failed. */
  lemma WorldIsStopped(run: seq<Heap>, h: Heap, t: nat)
    requires IsRun(run) && h == run[|run| - 1]
    ensures !Of(h, t).Crashed?
    ensures Of(h, t).Collecting? ==> h.collecting && forall u :: !Of(h, u).Running? && (u != t ==> !IsCollector(Of(h, u)))
  {
    RunInv(run);
    forall u ensures !Of(h, u).Crashed? { assert SleepOk(h, Of(h, u)); }
    if Of(h, t).Collecting? {
      assert IsCollector(Of(h, t));
      StoppedMeansNoneRunning(h);
    }
  }

  /** The three counts are the sizes of the populations they stand for, in every reachable state. */
  lemma CountsAreExact(run: seq<Heap>, h: Heap)
    requires IsRun(run) && h == run[|run| - 1]
    ensures h.mutators == |Attached(h)| && h.paused == |PausedOnes(h)| && h.inactive == |InactiveOnes(h)|
    ensures AllStopped(h) <==> forall t :: !Of(h, t).Running?
  {
    RunInv(run);
    forall u ensures !Of(h, u).Crashed? { assert SleepOk(h, Of(h, u)); }
    StoppedMeansNoneRunning(h);
  }

  /** No wakeup is lost.  If the last mutator has stopped, the waiting collector has been
      signalled; if no collection is going on, everyone waiting for its end has been. */
  lemma NobodySleepsForever(run: seq<Heap>, h: Heap, t: nat)
    requires IsRun(run) && h == run[|run| - 1]
    ensures Of(h, t) == Waiting(true) ==> exists u :: Of(h, u).Running?
    ensures (Of(h, t).Joining? || Of(h, t).Reactivating? || Of(h, t).Paused?) && Of(h, t).asleep ==>
      exists u :: IsCollector(Of(h, u))
  {
    RunInv(run);
    CountsAreExact(run, h);
    assert SleepOk(h, Of(h, t));
  }

  /** No call waits without reason: joining, reactivating and going on after a pause wait only while a collection
      is going on, leaving and deactivating never wait, a safepoint waits just if a collection is going on, the
      collector goes to work once nobody is running, and when it is done it runs and no collection is going on. */
  lemma CallsAreServed(run: seq<Heap>, h: Heap, t: nat, act: Action)
    requires IsRun(run) && h == run[|run| - 1]
    ensures var m, h' := Of(h, t), Step(h, t, act);
      var m' := Of(h', t);
      && (act.Add? && m.Detached? ==> if h.collecting then m'.Joining? else m'.Running?)
      && (act.Remove? && (m.Running? || m.Inactive?) ==> m'.Detached?)
      && (act.Deactivate? && m.Running? ==> m'.Inactive?)
      && (act.Reactivate? && m.Inactive? ==> if h.collecting then m'.Reactivating? else m'.Running?)
      && (act.PollSafepoint? && m.Running? ==> if h.collecting then m'.Paused? && m'.asleep else m'.Running?)
      && (act.Collect? && m.Running? ==> if h.collecting then m'.Paused? && m'.asleep else IsCollector(m'))
      && (act.Wake? && (m.Joining? || m.Reactivating?) && !h.collecting ==> m'.Running?)
      && (act.Wake? && m.Paused? && !h.collecting ==> m'.Running? || (m.why.Trigger? && IsCollector(m')))
      && (act.Wake? && m.Waiting? && (forall u :: !Of(h, u).Running?) ==> m'.Collecting?)
      && (act.FinishCollection? && m.Collecting? ==> m'.Running? && !h'.collecting)
  {
    hide IsRun;
    RunInv(run);
    CountsAreExact(run, h);
    assert SleepOk(h, Of(h, t));
    if Of(h, t).Running? && h.collecting { NotStoppedIfRunning(h, t); }
  }

  /** A mutator that pauses notes the kind of the collection before the one it pauses for: the
      collector settles the kind of the current one only after everybody has stopped. */
  lemma PauseSeesPreviousKind(run: seq<Heap>, h: Heap, t: nat, why: Why)
    requires IsRun(run) && h == run[|run| - 1] && Of(h, t).Running? && h.collecting
    ensures Of(Pause(h, t, why), t) == Paused(why, LastKind(h), true)
  {
    RunInv(run);
    NotStoppedIfRunning(h, t);
  }

  // ---------- Requests ----------

  /** In state `i` of the run mutator `t` asks for a collection while another is going on; in state `j` its
      pause is over. */
  ghost predicate Requests(run: seq<Heap>, i: nat, j: nat, t: nat, requested: Kind) {
    && IsRun(run) && i < j < |run|
    && Of(run[i], t).Running? && run[i].collecting && run[i + 1] == Step(run[i], t, Collect(requested))
    && (forall k :: i < k < j ==> Of(run[k], t).Paused?) && !Of(run[j], t).Paused?
  }

  /** A collection of at least that kind has been done since there were `n`. */
  ghost predicate DoneSince(h: Heap, n: nat, requested: Kind) {
    exists k :: n <= k < |h.kinds| && h.kinds[k] >= requested
  }

  /** Whether it collects, when the pause is over, depends only on the kind that was the last one when it asked. */
  lemma RequestOutcome(run: seq<Heap>, i: nat, j: nat, t: nat, requested: Kind)
    requires Requests(run, i, j, t, requested)
    ensures run[i].kinds < run[j].kinds
    ensures if requested <= LastKind(run[i]) then Of(run[j], t).Running? && !run[j].collecting
            else IsCollector(Of(run[j], t)) && run[j].collecting
  {
    hide Inv, Step, IsRun;
    RequestPauses(run, i, j, t, requested);
    assert Of(run[j - 1], t).Paused?;
    WhilePaused(run, i, j - 1, t, requested);
    NextOf(run, j - 1);
    var u, act :| run[j] == Step(run[j - 1], u, act);
    PausedStep(run[j - 1], u, act, t);
  }

  /** A request goes on without a sufficient collection having been done since it was made, if and only if the
      last collection before it was sufficient and none since has been. */
  lemma RequestUnmetIff(run: seq<Heap>, i: nat, j: nat, t: nat, requested: Kind)
    requires Requests(run, i, j, t, requested)
    ensures Of(run[j], t).Running? && !DoneSince(run[j], |run[i].kinds|, requested) <==>
            requested <= LastKind(run[i]) && forall k :: |run[i].kinds| <= k < |run[j].kinds| ==> run[j].kinds[k] < requested
  {
    hide Requests;
    RequestOutcome(run, i, j, t, requested);
  }

  /** And a request for more than the last collection was always leads to a collection of its own. */
  lemma HigherRequestCollects(run: seq<Heap>, i: nat, j: nat, t: nat, requested: Kind)
    requires Requests(run, i, j, t, requested) && requested > LastKind(run[i])
    ensures IsCollector(Of(run[j], t)) && run[j].collecting && !Of(run[j], t).Running?
  {
    RequestOutcome(run, i, j, t, requested);
  }

  lemma NextOf(run: seq<Heap>, k: nat)
    requires IsRun(run) && k + 1 < |run|
    ensures Next(run[k], run[k + 1])
  {
  }

  lemma {:induction false} InvAt(run: seq<Heap>, i: nat)
    requires IsRun(run) && i < |run|
    ensures Inv(run[i])
  {
    hide Inv, Next;
    var front := run[..i + 1];
    assert IsRun(front) by {
      forall k | 0 <= k < |front| - 1 ensures Next(front[k], front[k + 1]) { assert Next(run[k], run[k + 1]); }
    }
    RunInv(front);
  }

  lemma RequestPauses(run: seq<Heap>, i: nat, j: nat, t: nat, requested: Kind)
    requires Requests(run, i, j, t, requested)
    ensures Of(run[i + 1], t) == Paused(Trigger(requested), LastKind(run[i]), true)
    ensures run[i + 1].kinds == run[i].kinds && run[i + 1].collecting && i + 1 < j
  {
    hide IsRun, Next;
    InvAt(run, i);
    NotStoppedIfRunning(run[i], t);
  }

  /** A paused mutator takes no notice of what goes on until no collection is, and then at least one more
      has been done. */
  lemma {:induction false} WhilePaused(run: seq<Heap>, i: nat, k: nat, t: nat, requested: Kind)
    requires IsRun(run) && i + 1 <= k < |run| && forall m :: i < m <= k ==> Of(run[m], t).Paused?
    requires Of(run[i + 1], t) == Paused(Trigger(requested), LastKind(run[i]), true)
    requires run[i + 1].kinds == run[i].kinds && run[i + 1].collecting
    ensures Of(run[k], t).why == Trigger(requested) && Of(run[k], t).prevKind == LastKind(run[i])
    ensures run[i].kinds <= run[k].kinds && (!run[k].collecting ==> run[i].kinds < run[k].kinds)
    decreases k
  {
    hide IsRun, Step;
    if k > i + 1 {
      WhilePaused(run, i, k - 1, t, requested);
      NextOf(run, k - 1);
      var u, act :| run[k] == Step(run[k - 1], u, act);
      assert Of(run[k - 1], t).Paused? && Of(run[k], t).Paused?;
      PausedStep(run[k - 1], u, act, t);
    }
  }

  /** One step of anybody, for a mutator in its pause. */
  lemma PausedStep(h: Heap, u: nat, act: Action, t: nat)
    requires Of(h, t).Paused?
    ensures var m, h' := Of(h, t), Step(h, u, act);
      && h.kinds <= h'.kinds && (h.collecting && !h'.collecting ==> h.kinds < h'.kinds)
      && if Of(h', t).Paused? then Of(h', t).why == m.why && Of(h', t).prevKind == m.prevKind
         else u == t && act == Wake && !h.collecting && h' == Resume(h, t, m.why, m.prevKind) && h'.kinds == h.kinds &&
              if m.why.Trigger? && m.prevKind < m.why.requested then IsCollector(Of(h', t)) && h'.collecting
              else Of(h', t).Running? && !h'.collecting
  {
  }

  /** Hence a request can be taken as met by a collection of a lesser kind.  In this run a compacting
      collection (3) is done; mutator 1 asks for another while mutator 0 is stopping the world
      for what turns out to be a minor one (1), and mutator 1 then goes on without collecting. */
  lemma StaleKindSatisfiesRequest() returns (run: seq<Heap>, h: Heap, h': Heap)
    ensures IsRun(run) && h == run[|run| - 1]
    ensures h.kinds == [3] && Of(h, 0).Running? && Of(h, 1).Running?
    ensures h' == Step(Step(Step(Step(Step(h, 0, Collect(0)), 1, Collect(3)), 0, Wake), 0, FinishCollection(1)), 1, Wake)
    ensures h'.kinds == [3, 1] && Of(h', 1).Running? && !h'.collecting
  {
    run := CompactingRun();
    h := run[|run| - 1];
    h' := MinorAfter(h);
  }

  lemma Extend(run: seq<Heap>, t: nat, act: Action) returns (run': seq<Heap>)
    requires IsRun(run)
    ensures IsRun(run') && run' != [] && run'[|run'| - 1] == Step(run[|run| - 1], t, act)
  {
    hide Step, Init;
    run' := run + [Step(run[|run| - 1], t, act)];
    forall i | 0 <= i < |run'| - 1 ensures Next(run'[i], run'[i + 1]) {
      if i < |run| - 1 { assert Next(run[i], run[i + 1]); }
    }
  }

  // The steps of that run, one by one

  lemma FirstJoins()
    ensures Step(Init(), 0, Add) == Heap(map[0 := Running], 1, 0, 0, false, 0, [])
  {
    assert Join(Init(), 0).ms == map[0 := Running];
  }

  lemma SecondJoins(h: Heap)
    requires h == Heap(map[0 := Running], 1, 0, 0, false, 0, [])
    ensures Step(h, 1, Add) == Heap(map[0 := Running, 1 := Running], 2, 0, 0, false, 0, [])
  {
    assert Join(h, 1).ms == map[0 := Running, 1 := Running];
  }

  lemma FirstStarts(h: Heap, kind: Kind)
    requires h.ms == map[0 := Running, 1 := Running] && h.mutators == 2 && h.paused == h.inactive == 0 && !h.collecting
    ensures Step(h, 0, Collect(kind)) ==
      h.(ms := map[0 := Waiting(true), 1 := Running], paused := 1, collecting := true)
  {
    var h1 := h.(collecting := true, paused := 1);
    assert !AllStopped(h1) && Of(h, 0) == Running;
    assert WaitForStop(h1, 0).ms == map[0 := Waiting(true), 1 := Running];
    assert Step(h, 0, Collect(kind)) == WaitForStop(h1, 0);
  }

  lemma LastPauses(h: Heap, why: Why)
    requires h.ms == map[0 := Waiting(true), 1 := Running] && h.mutators == 2 && h.paused == 1 && h.inactive == 0
    ensures Pause(h, 1, why) == h.(ms := map[0 := Waiting(false), 1 := Paused(why, h.gcKind, true)], paused := 2)
  {
    var m := Paused(why, h.gcKind, true);
    var h1 := Set(h, 1, m).(paused := 2);
    assert h1.ms == map[0 := Waiting(true), 1 := m];
    assert SignalCollector(h1).ms == map[0 := Waiting(false), 1 := m];
    assert Pause(h, 1, why) == SignalCollector(h1);
  }

  lemma CollectorGoesOn(h: Heap, m: Mutator)
    requires h.ms == map[0 := Waiting(false), 1 := m] && AllStopped(h)
    ensures Step(h, 0, Wake) == h.(ms := map[0 := Collecting, 1 := m])
  {
    assert Of(h, 0) == Waiting(false);
    assert WaitForStop(h, 0).ms == map[0 := Collecting, 1 := m];
  }

  lemma CollectorEnds(h: Heap, why: Why, prev: Kind, kind: Kind)
    requires h.ms == map[0 := Collecting, 1 := Paused(why, prev, true)] && AllStopped(h) && h.collecting
    ensures Step(h, 0, FinishCollection(kind)) ==
      h.(ms := map[0 := Running, 1 := Paused(why, prev, false)], paused := h.paused - 1, collecting := false,
         gcKind := kind, kinds := h.kinds + [kind])
  {
    var h1 := Set(h, 0, Running).(paused := h.paused - 1, collecting := false, gcKind := kind, kinds := h.kinds + [kind]);
    assert Of(h, 0) == Collecting;
    assert h1.ms == map[0 := Running, 1 := Paused(why, prev, true)];
    assert BroadcastMutators(h1).ms == map[0 := Running, 1 := Paused(why, prev, false)];
  }

  lemma SecondResumes(h: Heap, why: Why, prev: Kind)
    requires h.ms == map[0 := Running, 1 := Paused(why, prev, false)] && !h.collecting
    requires why.Trigger? ==> prev >= why.requested
    ensures Step(h, 1, Wake) == h.(ms := map[0 := Running, 1 := Running], paused := h.paused - 1)
  {
    assert Of(h, 1) == Paused(why, prev, false);
    assert Set(h, 1, Running).ms == map[0 := Running, 1 := Running];
  }

  lemma CompactingRun() returns (run: seq<Heap>)
    ensures IsRun(run) && run != [] && run[|run| - 1] == Heap(map[0 := Running, 1 := Running], 2, 0, 0, false, 3, [3])
  {
    hide IsRun, Step;
    run := StoppingRun();
    var h := run[|run| - 1];
    CollectorGoesOn(h, Paused(Safepoint, 0, true));
    run := Extend(run, 0, Wake);
    CollectorEnds(run[|run| - 1], Safepoint, 0, 3);
    run := Extend(run, 0, FinishCollection(3));
    SecondResumes(run[|run| - 1], Safepoint, 0);
    run := Extend(run, 1, Wake);
  }

  lemma StoppingRun() returns (run: seq<Heap>)
    ensures IsRun(run) && run != []
    ensures run[|run| - 1] == Heap(map[0 := Waiting(false), 1 := Paused(Safepoint, 0, true)], 2, 2, 0, true, 0, [])
  {
    run := [Init()];
    assert IsRun(run);
    hide IsRun, Step, Init;
    FirstJoins();
    run := Extend(run, 0, Add);
    SecondJoins(run[|run| - 1]);
    run := Extend(run, 1, Add);
    FirstStarts(run[|run| - 1], 3);
    run := Extend(run, 0, Collect(3));
    SafepointIsPause(run[|run| - 1], 1);
    LastPauses(run[|run| - 1], Safepoint);
    run := Extend(run, 1, PollSafepoint);
  }

  lemma SafepointIsPause(h: Heap, t: nat)
    requires h.collecting && Of(h, t).Running?
    ensures Step(h, t, PollSafepoint) == Pause(h, t, Safepoint)
  {
  }

  lemma RequestIsPause(h: Heap, t: nat, requested: Kind)
    requires h.collecting && Of(h, t).Running?
    ensures Step(h, t, Collect(requested)) == Pause(h, t, Trigger(requested))
  {
  }

  lemma MinorAfter(h: Heap) returns (h': Heap)
    requires h == Heap(map[0 := Running, 1 := Running], 2, 0, 0, false, 3, [3])
    ensures h' == Step(Step(Step(Step(Step(h, 0, Collect(0)), 1, Collect(3)), 0, Wake), 0, FinishCollection(1)), 1, Wake)
    ensures h'.kinds == [3, 1] && Of(h', 1).Running? && !h'.collecting
  {
    hide Step, Pause;
    FirstStarts(h, 0);
    var h1 := Step(h, 0, Collect(0));
    RequestIsPause(h1, 1, 3);
    LastPauses(h1, Trigger(3));
    var h2 := Step(h1, 1, Collect(3));
    CollectorGoesOn(h2, Paused(Trigger(3), 3, true));
    var h3 := Step(h2, 0, Wake);
    CollectorEnds(h3, Trigger(3), 3, 1);
    var h4 := Step(h3, 0, FinishCollection(1));
    SecondResumes(h4, Trigger(3), 3);
    h' := Step(h4, 1, Wake);
  }

  // ---------- The same operation in src/pcc.c ----------

  /** remove_mutator there leaves the inactive count alone. */
  function RemoveMutatorPcc(h: Heap, t: nat): Heap {
    var h1 := Set(h, t, Detached).(mutators := h.mutators - 1);
    if h1.collecting && AllStopped(h1) then SignalCollector(h1) else h1
  }

  /** So the counts stay exact just when the mutator leaving is an active one. */
  lemma PccRemoveKeepsCounts(h: Heap, t: nat)
    requires Inv(h) && (Of(h, t).Running? || Of(h, t).Inactive?)
    ensures CountsOk(RemoveMutatorPcc(h, t)) <==> Of(h, t).Running?
    ensures Of(h, t).Running? ==> RemoveMutatorPcc(h, t) == RemoveMutator(h, t)
  {
    var h1 := Set(h, t, Detached).(mutators := h.mutators - 1);
    var h2 := RemoveMutatorPcc(h, t);
    SetCounts(h, t, Detached);
    assert Attached(h1) == Attached(Set(h, t, Detached)) && PausedOnes(h1) == PausedOnes(Set(h, t, Detached));
    assert InactiveOnes(h1) == InactiveOnes(Set(h, t, Detached));
    SameClasses(h1, h2);
  }

  /** One mutator is left, it is waiting for the others to stop, and the counts say they have not. */
  ghost predicate Stranded(h: Heap, t: nat) {
    && h.collecting && Of(h, t).Waiting? && !AllStopped(h)
    && forall v :: v != t ==> Of(h, v).Detached? || Of(h, v).Joining?
  }

  /** And once one has left while inactive, a lone mutator that triggers a collection waits for
      others that are not there ... */
  lemma PccRemoveStrandsCollector(h: Heap, t: nat, u: nat, requested: Kind)
    requires Inv(h) && t != u && Of(h, t).Running? && Of(h, u).Inactive? && !h.collecting
    requires forall v :: v != t && v != u ==> Of(h, v).Detached?
    ensures Stranded(Step(RemoveMutatorPcc(h, u), t, Collect(requested)), t)
  {
    forall v ensures v in h.ms && IsAttached(h.ms[v]) <==> v == t || v == u { assert v in h.ms ==> h.ms[v] == Of(h, v); }
    assert Attached(h) == {t, u};
    forall v ensures v in h.ms && IsPaused(h.ms[v]) <==> false { assert v in h.ms ==> h.ms[v] == Of(h, v); }
    assert PausedOnes(h) == {};
    forall v ensures v in h.ms && IsInactive(h.ms[v]) <==> v == u { assert v in h.ms ==> h.ms[v] == Of(h, v); }
    assert InactiveOnes(h) == {u};
  }

  /** ... for ever, whatever anybody does. */
  lemma StrandedForGood(h: Heap, t: nat, v: nat, act: Action)
    requires Stranded(h, t)
    ensures Stranded(Step(h, v, act), t)
  {
    var h' := Step(h, v, act);
    assert v != t ==> Of(h, v).Detached? || Of(h, v).Joining?;
    forall w | w != t ensures Of(h', w).Detached? || Of(h', w).Joining? {
      assert Of(h, w).Detached? || Of(h, w).Joining?;
    }
  }
}
