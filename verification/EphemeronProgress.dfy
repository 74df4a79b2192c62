/**
  Concurrent ephemeron tracing, continued: nobody is forgotten.

  EphemeronTracing shows that every step keeps the table and the claims in order.  Here every
  step is shown to leave, for each pending ephemeron whose key is marked, a thread that will come to
  it; the main results on whole runs follow.
*/
module EphemeronProgress {
  import opened EphemeronTracing

  /** Another thread's duties do not change when thread `t` takes a step. */
  lemma DutyKept(s: State, s': State, t: nat, u: nat, e: nat)
    requires PcInv(s, u, PcOf(s, u)) && u != t && PcOf(s', u) == PcOf(s, u)
    requires SameTable(s, s') && Live(s, e) && WillCheck(s, u, e)
    requires forall x :: x in s.rank || x == 0 ==> Rk(s', x) == Rk(s, x)
    ensures WillCheck(s', u, e)
  {
    hide DeadUpTo;
  }

  /** A step of `t` after which `t` still owes what it owed, or no longer needs to. */
  lemma Remembered(s: State, s': State, t: nat, e: nat)
    requires BaseInv(s) && NotForgotten(s, e) && SameTable(s, s')
    requires forall u :: u != t ==> PcOf(s', u) == PcOf(s, u)
    requires forall x :: x in s.rank || x == 0 ==> Rk(s', x) == Rk(s, x)
    requires Live(s', e) ==> Live(s, e)
    requires Live(s', e) && e in s'.keyMoved && e !in s.keyMoved ==> WillResolve(s', t, e)
    requires s'.key(e) in s'.marked && !s'.phase.Lazy? && Live(s, e) ==>
      (s.key(e) in s.marked && !s.phase.Lazy?) || WillCheck(s', t, e)
    requires Live(s', e) && WillResolve(s, t, e) ==> WillResolve(s', t, e)
    requires Live(s', e) && WillCheck(s, t, e) && s.key(e) in s.marked && e !in s'.keyMoved ==> WillCheck(s', t, e)
    requires s.keyMoved <= s'.keyMoved
    ensures NotForgotten(s', e)
  {
    hide WillCheck, EphsInv, ChainsInv;
    if Live(s', e) && e in s.keyMoved {
      var u :| WillResolve(s, u, e);
      assert WillResolve(s', u, e);
    }
    if Live(s', e) && !s'.phase.Lazy? && s'.key(e) in s'.marked && e !in s'.keyMoved && !WillCheck(s', t, e) {
      var u :| WillCheck(s, u, e);
      assert u != t;
      assert PcInv(s, u, PcOf(s, u));
      DutyKept(s, s', t, u, e);
    }
  }

  lemma FoundProgress(s: State, w: Walk, cur: nat, e: nat)
    requires BucketOf(s, e) < s.nbuckets && Rk(s, e) > 0 && Rk(s, 0) == 0
    requires Ahead(s, w, e, Rk(s, e) <= Rk(s, cur))
    ensures Checks(s, FoundPc(s, w, cur), e)
  {
  }

  lemma LiveRank(s: State, e: nat)
    requires EphsInv(s) && Live(s, e)
    ensures Rk(s, e) > 0 && Rk(s, 0) == 0 && BucketOf(s, e) < s.nbuckets
  {
    assert EphInv(s, e);
  }

  lemma LoadProgress(s: State, t: nat, w: Walk, loc: Loc, e: nat)
    requires EphsInv(s) && ChainsInv(s) && PcInv(s, t, Load(w, loc)) && Live(s, e)
    requires Ahead(s, w, e, After(s, loc, e))
    ensures Checks(s, LoadPc(s, w, loc), e)
  {
    hide EphsInv;
    LiveRank(s, e);
    assert LocInv(s, WalkBucket(s, w), loc);
  }

  lemma SkipProgress(s: State, t: nat, w: Walk, loc: Loc, head: nat, cur: nat, e: nat)
    requires EphsInv(s) && Live(s, e)
    requires Ahead(s, w, e, Rk(s, e) <= Rk(s, cur))
    ensures Checks(s, SkipPc(s, w, loc, head, cur), e)
  {
    assert EphInv(s, e) && RanksDiffer(s, e, cur);
    LiveRank(s, e);
    FoundProgress(s, w, cur, e);
  }

  lemma NextOfProgress(s: State, t: nat, w: Walk, loc: Loc, head: nat, cur: nat, e: nat)
    requires ChainsInv(s) && PcInv(s, t, NextOf(w, loc, head, cur)) && Live(s, e)
    requires Ahead(s, w, e, Rk(s, e) < Rk(s, cur))
    ensures Ahead(s, w, e, Rk(s, e) <= Rk(s, Value(s, Link(cur))))
  {
    assert LocInv(s, WalkBucket(s, w), Link(cur));
  }

  lemma SwingProgress(s: State, t: nat, w: Walk, loc: Loc, head: nat, cur: nat, e: nat)
    requires EphsInv(s) && ChainsInv(s) && PcInv(s, t, Swing(w, loc, head, cur)) && Live(s, e)
    requires Ahead(s, w, e, Rk(s, e) <= Rk(s, cur))
    ensures Checks(s, SwingPc(s, w, loc, head, cur), e)
  {
    hide EphsInv, DeadUpTo;
    LiveRank(s, e);
    assert LocInv(s, WalkBucket(s, w), loc);
    FoundProgress(s, w, cur, e);
  }

  /** A walk comes to the key of each ephemeron it reaches, unless another thread has been there. */
  lemma GotProgress(s: State, t: nat, w: Walk, x: nat, e: nat)
    requires EphsInv(s) && Live(s, e) && e !in s.keyMoved && At1(s, w, x)
    requires Ahead(s, w, e, Rk(s, e) <= Rk(s, x))
    ensures Checks(s, GotPc(s, w, x), e)
  {
    assert RanksDiffer(s, e, x) && EphInv(s, e);
  }

  lemma WalkProgress(s: State, t: nat, pc: Pc, e: nat)
    requires EphsInv(s) && ChainsInv(s) && PcInv(s, t, pc)
    requires Walking(pc) && Live(s, e) && Checks(s, pc, e) && s.key(e) in s.marked && e !in s.keyMoved
    ensures Checks(s, NextPc(s, pc), e) || (pc.TryResolve? && pc.e == e)
  {
    hide EphsInv, ChainsInv, EndPc, SkipPc, LoadPc, FoundPc, GotPc, SwingPc, PcInv, After, Ahead;
    match pc
    case Load(w, loc) => LoadProgress(s, t, w, loc, e);
    case Skip(w, loc, head, cur) => SkipProgress(s, t, w, loc, head, cur, e);
    case NextOf(w, loc, head, cur) => NextOfProgress(s, t, w, loc, head, cur, e);
    case Swing(w, loc, head, cur) => SwingProgress(s, t, w, loc, head, cur, e);
    case Got(w, x) => GotPart(s, t, w, x); GotProgress(s, t, w, x, e);
    case VisitKey(w, x) => PassProgress(s, w, x, e);
    case TryResolve(w, x) => PassProgress(s, w, x, e);
    case PushResolved(w, x) => PassProgress(s, w, x, e);
  }

  lemma PassProgress(s: State, w: Walk, x: nat, e: nat)
    ensures Ahead(s, w, e, Rk(s, e) < Rk(s, x)) ==> Ahead(s, w, e, After(s, Link(x), e)) && !w.Own?
  {
  }

  lemma GotPart(s: State, t: nat, w: Walk, x: nat)
    requires PcInv(s, t, Got(w, x))
    ensures At1(s, w, x)
  {
  }

  lemma LiveIsPending(s: State, e: nat)
    requires EphsInv(s) && Live(s, e)
    ensures StOf(s, e).Pending?
  {
    assert EphInv(s, e);
  }

  /** What every step keeps, apart from what it does for its own thread. */
  ghost predicate Frame(s: State, s': State, t: nat) {
    && SameTable(s, s') && s.keyMoved <= s'.keyMoved && s.marked <= s'.marked
    && (forall u :: u != t ==> PcOf(s', u) == PcOf(s, u))
    && (forall x :: x in s.rank || x == 0 ==> Rk(s', x) == Rk(s, x))
    && s.passed <= s'.passed
  }

  /** A step that leaves marks, phase and ranks alone. */
  ghost predicate Quiet(s: State, s': State, t: nat) {
    Frame(s, s', t) && s'.marked == s.marked && s'.phase == s.phase && s'.rank == s.rank
  }

  lemma MoveQuiet(s: State, t: nat, pc: Pc)
    ensures Quiet(s, At(s, t, pc), t) && PcOf(At(s, t, pc), t) == pc && At(s, t, pc).keyMoved == s.keyMoved
  {
  }

  lemma StoreQuiet(s: State, t: nat, loc: Loc, v: nat, pc: Pc)
    ensures var s' := At(Store(s, loc, v), t, pc); Quiet(s, s', t) && PcOf(s', t) == pc && s'.keyMoved == s.keyMoved
  {
  }

  lemma UpdateKeyQuiet(s: State, t: nat, e: nat, pc: Pc)
    ensures var s' := At(UpdateKey(s, e), t, pc);
      Quiet(s, s', t) && PcOf(s', t) == pc && (s'.keyMoved == s.keyMoved || s'.keyMoved == s.keyMoved + {e})
  {
    hide At, Quiet;
    if s.key(e) in s.moved { KeyMovedQuiet(s, t, e, pc); } else { MoveQuiet(s, t, pc); }
  }

  lemma KeyMovedQuiet(s: State, t: nat, e: nat, pc: Pc)
    ensures var s' := At(s.(keyMoved := s.keyMoved + {e}), t, pc);
      Quiet(s, s', t) && PcOf(s', t) == pc && s'.keyMoved == s.keyMoved + {e}
  {
  }

  lemma SwingQuiet(s: State, t: nat, w: Walk, loc: Loc, head: nat, cur: nat)
    ensures var s' := SwingStep(s, t, w, loc, head, cur);
      Quiet(s, s', t) && s'.keyMoved == s.keyMoved && PcOf(s', t) == SwingPc(s, w, loc, head, cur)
  {
    hide FoundPc, At, Store, Quiet;
    StoreQuiet(s, t, loc, cur, FoundPc(s, w, cur));
    MoveQuiet(s, t, SwingPc(s, w, loc, head, cur));
  }

  lemma TryResolveQuiet(s: State, t: nat, w: Walk, e: nat)
    ensures var s' := TryResolveStep(s, t, w, e);
      Quiet(s, s', t) && s'.keyMoved == s.keyMoved && PcOf(s', t) == NextPc(s, TryResolve(w, e))
  {
    hide ContinuePc, At, Quiet;
    MoveQuiet(s, t, ContinuePc(w, e));
    if StOf(s, e).Pending? { ResolvedQuiet(s, t, e, PushResolved(w, e)); }
  }

  lemma ResolvedQuiet(s: State, t: nat, e: nat, pc: Pc)
    ensures var s' := At(s, t, pc)
        .(st := s.st[e := Resolved], passed := s.passed + {e}, place := s.place[e := Hand(t)]);
      Quiet(s, s', t) && s'.keyMoved == s.keyMoved && PcOf(s', t) == pc
  {
  }

  lemma PushResolvedQuiet(s: State, t: nat, w: Walk, e: nat)
    ensures var s' := PushResolvedStep(s, t, w, e);
      Quiet(s, s', t) && s'.keyMoved == s.keyMoved && PcOf(s', t) == ContinuePc(w, e)
  {
    hide ContinuePc;
  }

  lemma WalkQuiet(s: State, t: nat)
    requires Walking(PcOf(s, t))
    ensures Quiet(s, WalkStep(s, t), t) && PcOf(WalkStep(s, t), t) == NextPc(s, PcOf(s, t))
    ensures forall e :: e in WalkStep(s, t).keyMoved && e !in s.keyMoved ==>
      KeyTraced(s, e) && WillResolve(WalkStep(s, t), t, e)
  {
    hide At, Quiet, LoadPc, SkipPc, EndPc, GotPc, SwingPc, SwingStep, TryResolveStep, PushResolvedStep, UpdateKey, KeyTraced;
    MoveQuiet(s, t, NextPc(s, PcOf(s, t)));
    match PcOf(s, t)
    case Swing(w, loc, head, cur) => SwingQuiet(s, t, w, loc, head, cur);
    case VisitKey(w, e) => UpdateKeyQuiet(s, t, e, TryResolve(w, e));
    case TryResolve(w, e) => TryResolveQuiet(s, t, w, e);
    case PushResolved(w, e) => PushResolvedQuiet(s, t, w, e);
    case _ =>
  }

  /** Walks and scans keep their kind, and resolve no ephemeron whose key is unmarked. */
  lemma WalkPhase(s: State, t: nat, pc: Pc)
    requires Walking(pc) && PhaseOk(s, t, pc)
    requires forall e :: e in s.keyMoved ==> s.key(e) in s.marked
    ensures PhaseOk(s, t, NextPc(s, pc))
  {
  }

  lemma WalkResolves(s: State, t: nat, e: nat)
    requires EphsInv(s) && Live(s, e) && WillResolve(s, t, e)
    ensures !Live(WalkStep(s, t), e)
  {
    hide At, EphsInv, ContinuePc;
    LiveIsPending(s, e);
  }

  lemma WalkCheck(s: State, t: nat)
    requires Inv(s) && Walking(PcOf(s, t))
    ensures CheckInv(WalkStep(s, t))
  {
    hide BaseInv, WalkStep, NotForgotten, PhaseOk, NextPc;
    var s' := WalkStep(s, t);
    WalkQuiet(s, t);
    forall e ensures NotForgotten(s', e) { WalkRemembers(s, t, e); }
    forall u ensures PhaseOk(s', u, PcOf(s', u)) {
      assert PhaseOk(s, u, PcOf(s, u));
      if u == t { WalkPhase(s, t, PcOf(s, t)); }
      PhaseKept(s, s', u, PcOf(s', u));
    }
  }

  lemma PhaseKept(s: State, s': State, u: nat, pc: Pc)
    requires PhaseOk(s, u, pc)
    requires SameTable(s, s') && s'.phase == s.phase && s.marked <= s'.marked
    ensures PhaseOk(s', u, pc)
  {
  }

  lemma ChecksKept(s: State, s': State, t: nat, pc: Pc, e: nat)
    requires Quiet(s, s', t) && Checks(s, pc, e)
    ensures Checks(s', pc, e)
  {
  }

  lemma WalkRemembers(s: State, t: nat, e: nat)
    requires BaseInv(s) && NotForgotten(s, e) && Walking(PcOf(s, t))
    ensures NotForgotten(WalkStep(s, t), e)
  {
    hide BaseInv, EphsInv, ChainsInv, ThreadsInv, WalkStep, NotForgotten, Checks, NextPc;
    var s' := WalkStep(s, t);
    WalkQuiet(s, t);
    BaseParts(s, t);
    if Live(s', e) {
      assert Live(s, e);
      if WillResolve(s, t, e) { WalkResolves(s, t, e); }
      if WillCheck(s, t, e) && s.key(e) in s.marked && e !in s'.keyMoved {
        WalkProgress(s, t, PcOf(s, t), e);
        ChecksKept(s, s', t, NextPc(s, PcOf(s, t)), e);
      }
      Remembered(s, s', t, e);
    } else {
      NothingToRemember(s', e);
    }
  }

  lemma NothingToRemember(s: State, e: nat)
    requires !Live(s, e)
    ensures NotForgotten(s, e)
  {
  }

  // Steps of gc_trace_ephemeron and gc_trace_resolved_ephemerons

  /** A step that moves no key field and ends outside any walk. */
  ghost predicate Plain(s: State, s': State, t: nat) {
    Quiet(s, s', t) && s'.keyMoved == s.keyMoved && !Walking(PcOf(s', t))
  }

  lemma MovePlain(s: State, t: nat, pc: Pc)
    requires !Walking(pc)
    ensures Plain(s, At(s, t, pc), t)
  {
  }

  lemma EpochPlain(s: State, t: nat, e: nat)
    ensures Plain(s, EpochStep(s, t, e), t)
  {
    hide Plain, At;
    if e in s.current {
      MovePlain(s, t, StoreTraced(e));
    } else {
      NewEpochPlain(s, t, e, if e in s.dead then StoreTraced(e) else VisitOwnKey(e));
    }
  }

  lemma NewEpochPlain(s: State, t: nat, e: nat, pc: Pc)
    requires !Walking(pc)
    ensures Plain(s, At(s, t, pc)
                     .(current := s.current + {e}, claims := s.claims + multiset{e}, link := s.link[e := 0]), t)
  {
  }

  lemma SetStatePlain(s: State, t: nat, e: nat, st: EphState, pc: Pc)
    requires !Walking(pc)
    ensures Plain(s, At(s, t, pc).(st := s.st[e := st]), t)
  {
  }

  lemma PushLinkPlain(s: State, t: nat, e: nat, tail: nat)
    ensures Plain(s, At(s, t, PushCas(e, tail)).(link := s.link[e := tail]), t)
  {
  }

  lemma BatchPlain(s: State, t: nat, es: seq<nat>)
    ensures Plain(s, BatchStep(s, t, es), t)
  {
    hide Plain, At;
    if es == [] { MovePlain(s, t, Idle); } else { TracedPlain(s, t, es[0], TraceBatch(es[1..])); }
  }

  lemma TracedPlain(s: State, t: nat, e: nat, pc: Pc)
    requires !Walking(pc)
    ensures Plain(s, At(s, t, pc)
                     .(st := s.st[e := Traced], done := s.done + {e}, visits := s.visits + multiset{e}), t)
  {
  }

  lemma VisitOwnQuiet(s: State, t: nat, e: nat)
    ensures var s' := VisitOwnStep(s, t, e);
      Quiet(s, s', t) && !Walking(PcOf(s', t)) && (s'.keyMoved == s.keyMoved || (KeyTraced(s, e) && s'.keyMoved == s.keyMoved + {e}))
  {
    hide At, Quiet, UpdateKey, KeyTraced;
    if KeyTraced(s, e) {
      UpdateKeyQuiet(s, t, e, StoreTraced(e));
      VisitsQuiet(s, At(UpdateKey(s, e), t, StoreTraced(e)), t, s.visits + multiset{e}, s.done + {e});
    } else {
      MoveQuiet(s, t, SetPending(e));
    }
  }

  lemma VisitsQuiet(s: State, s1: State, t: nat, visits: multiset<nat>, done: set<nat>)
    requires Quiet(s, s1, t)
    ensures var s' := s1.(visits := visits, done := done);
      Quiet(s, s', t) && PcOf(s', t) == PcOf(s1, t)
  {
  }

  /** A step by a thread that was not looking for `e` leaves it as remembered as it was. */
  lemma BystanderRemembers(s: State, s': State, t: nat, e: nat)
    requires BaseInv(s) && NotForgotten(s, e) && Quiet(s, s', t)
    requires !Walking(PcOf(s, t)) && !PcOf(s, t).Recheck?
    requires e in s'.keyMoved && e !in s.keyMoved ==> !Live(s, e)
    ensures NotForgotten(s', e)
  {
    hide BaseInv, NotForgotten;
    if Live(s', e) {
      assert Live(s, e);
      Remembered(s, s', t, e);
    } else {
      NothingToRemember(s', e);
    }
  }

  lemma OwnerQuiet(s: State, t: nat)
    requires var pc := PcOf(s, t); !Walking(pc) && !pc.Recheck?
    requires var pc := PcOf(s, t); pc.PushCas? ==> Value(s, Bucket(BucketOf(s, pc.e))) != pc.tail
    ensures Quiet(s, OwnerStep(s, t), t) && !Walking(PcOf(OwnerStep(s, t), t))
    ensures forall e :: e in OwnerStep(s, t).keyMoved && e !in s.keyMoved ==>
      KeyTraced(s, e) && PcOf(s, t) == VisitOwnKey(e)
  {
    hide At, Quiet, EpochStep, VisitOwnStep, RecheckStep, BatchStep, KeyTraced;
    match PcOf(s, t)
    case EpochCheck(e) => EpochPlain(s, t, e);
    case StoreTraced(e) => SetStatePlain(s, t, e, Traced, Idle);
    case VisitOwnKey(e) => VisitOwnQuiet(s, t, e);
    case SetPending(e) => SetStatePlain(s, t, e, Pending, PushLoad(e));
    case PushLoad(e) => MovePlain(s, t, PushLink(e, Value(s, Bucket(BucketOf(s, e)))));
    case PushLink(e, tail) => PushLinkPlain(s, t, e, tail);
    case PushCas(e, tail) => MovePlain(s, t, PushLink(e, Value(s, Bucket(BucketOf(s, e)))));
    case TraceBatch(es) => BatchPlain(s, t, es);
    case Idle => MoveQuiet(s, t, Idle); SameQuiet(s, t);
  }

  lemma SameQuiet(s: State, t: nat)
    ensures Quiet(s, s, t)
  {
  }

  /** CheckInv after a step that keeps the phase, from what the step does for its own thread. */
  lemma CheckFromParts(s: State, s': State, t: nat)
    requires CheckInv(s) && Frame(s, s', t) && s'.phase == s.phase
    requires forall e :: NotForgotten(s', e)
    requires forall e :: e in s'.keyMoved && e !in s.keyMoved ==> KeyTraced(s, e)
    requires PhaseOk(s', t, PcOf(s', t))
    ensures CheckInv(s')
  {
    hide NotForgotten, PhaseOk;
    forall u ensures PhaseOk(s', u, PcOf(s', u)) {
      assert PhaseOk(s, u, PcOf(s, u));
      if u != t { PhaseKept(s, s', u, PcOf(s', u)); }
    }
  }

  lemma OwnerCheck(s: State, t: nat)
    requires Inv(s) && !Walking(PcOf(s, t)) && !PcOf(s, t).Idle? && !PcOf(s, t).Recheck?
    requires var pc := PcOf(s, t); pc.PushCas? ==> Value(s, Bucket(BucketOf(s, pc.e))) != pc.tail
    ensures CheckInv(OwnerStep(s, t))
  {
    hide BaseInv, NotForgotten, OwnerStep, KeyTraced, Frame;
    var s' := OwnerStep(s, t);
    OwnerQuiet(s, t);
    assert PhaseOk(s, t, PcOf(s, t));
    BaseParts(s, t);
    forall e ensures NotForgotten(s', e) { BystanderRemembers(s, s', t, e); }
    CheckFromParts(s, s', t);
  }

  /** Publication: the claimer goes on to recheck the key of what it has just published. */
  lemma PublishCheck(s: State, t: nat, e: nat, tail: nat)
    requires Inv(s) && PcOf(s, t) == PushCas(e, tail) && Value(s, Bucket(BucketOf(s, e))) == tail
    ensures CheckInv(PublishStep(s, t, e, tail))
  {
    hide BaseInv, NotForgotten;
    var s' := PublishStep(s, t, e, tail);
    assert PhaseOk(s, t, PcOf(s, t));
    BaseParts(s, t);
    forall d ensures NotForgotten(s', d) { PublishRemembers(s, t, e, tail, d); }
    CheckFromParts(s, s', t);
  }

  lemma PublishRemembers(s: State, t: nat, e: nat, tail: nat, d: nat)
    requires BaseInv(s) && NotForgotten(s, d)
    requires PcOf(s, t) == PushCas(e, tail) && Value(s, Bucket(BucketOf(s, e))) == tail
    ensures NotForgotten(PublishStep(s, t, e, tail), d)
  {
    hide BaseInv, EphsInv, ChainsInv, ThreadsInv;
    BaseParts(s, t);
    var s' := PublishStep(s, t, e, tail);
    if d == e {
      assert WillCheck(s', t, e);
    } else {
      Remembered(s, s', t, d);
    }
  }

  lemma RecheckQuiet(s: State, t: nat, e: nat)
    ensures var s' := RecheckStep(s, t, e);
      Quiet(s, s', t) && PcOf(s', t) == (if KeyTraced(s, e) then TryResolve(Own, e) else Idle)
    ensures var s' := RecheckStep(s, t, e); forall d :: d in s'.keyMoved && d !in s.keyMoved ==> d == e && KeyTraced(s, e)
  {
    hide At, UpdateKey, Quiet, KeyTraced;
    UpdateKeyQuiet(s, t, e, TryResolve(Own, e));
    MoveQuiet(s, t, Idle);
  }

  lemma RecheckRemembers(s: State, t: nat, e: nat, d: nat)
    requires BaseInv(s) && NotForgotten(s, d) && PcOf(s, t) == Recheck(e)
    ensures NotForgotten(RecheckStep(s, t, e), d)
  {
    hide BaseInv, NotForgotten, RecheckStep;
    var s' := RecheckStep(s, t, e);
    RecheckQuiet(s, t, e);
    Remembered(s, s', t, d);
  }

  lemma RecheckCheck(s: State, t: nat, e: nat)
    requires Inv(s) && PcOf(s, t) == Recheck(e)
    ensures CheckInv(RecheckStep(s, t, e))
  {
    hide BaseInv, NotForgotten, RecheckStep;
    var s' := RecheckStep(s, t, e);
    RecheckQuiet(s, t, e);
    assert PhaseOk(s, t, PcOf(s, t));
    forall d ensures NotForgotten(s', d) { RecheckRemembers(s, t, e, d); }
    CheckFromParts(s, s', t);
  }

  // Steps of an idle thread, and changes of phase

  lemma MarkCheck(s: State, t: nat, k: nat, moves: bool)
    requires Inv(s) && PcOf(s, t).Idle? && k !in s.marked && !s.phase.Scanning?
    ensures CheckInv(StartStep(s, t, Mark(k, moves)))
  {
    hide BaseInv, NotForgotten;
    var s' := StartStep(s, t, Mark(k, moves));
    forall d ensures NotForgotten(s', d) { MarkRemembers(s, t, k, moves, d); }
    CheckFromParts(s, s', t);
  }

  /** In eager mode, the thread that marks a key goes on to walk the key's bucket. */
  lemma MarkRemembers(s: State, t: nat, k: nat, moves: bool, d: nat)
    requires BaseInv(s) && NotForgotten(s, d) && PcOf(s, t).Idle? && k !in s.marked && !s.phase.Scanning?
    ensures NotForgotten(StartStep(s, t, Mark(k, moves)), d)
  {
    hide BaseInv, NotForgotten;
    var s' := StartStep(s, t, Mark(k, moves));
    Remembered(s, s', t, d);
  }

  lemma ClaimQuiet(s: State, t: nat, e: nat)
    requires PcOf(s, t).Idle?
    ensures var s' := StartStep(s, t, TraceEphemeron(e));
      Quiet(s, s', t) && s'.keyMoved == s.keyMoved && (PcOf(s', t).Idle? || PcOf(s', t).EpochCheck?)
  {
    if e != 0 && StOf(s, e) == Traced {
      var s1 := At(s, t, EpochCheck(e));
      MoveQuiet(s, t, EpochCheck(e));
      assert StartStep(s, t, TraceEphemeron(e)) == s1.(st := s.st[e := Claimed], owner := s.owner[e := t]);
    }
  }

  lemma ClaimCheck(s: State, t: nat, e: nat)
    requires Inv(s) && PcOf(s, t).Idle? && !s.phase.Scanning?
    ensures CheckInv(StartStep(s, t, TraceEphemeron(e)))
  {
    hide BaseInv, NotForgotten, StartStep;
    var s' := StartStep(s, t, TraceEphemeron(e));
    ClaimQuiet(s, t, e);
    forall d ensures NotForgotten(s', d) { BystanderRemembers(s, s', t, d); }
    CheckFromParts(s, s', t);
  }

  lemma TakeCheck(s: State, t: nat)
    requires Inv(s) && PcOf(s, t).Idle? && !s.phase.Scanning?
    ensures CheckInv(StartStep(s, t, TakeResolved))
  {
    hide BaseInv, NotForgotten;
    var s' := StartStep(s, t, TakeResolved);
    forall d ensures NotForgotten(s', d) { BystanderRemembers(s, s', t, d); }
    CheckFromParts(s, s', t);
  }

  /** The scan starts at bucket 0, so every live ephemeron is ahead of it. */
  lemma ScanStartCheck(s: State)
    requires Inv(s) && s.phase.Lazy? && AllIdle(s)
    ensures CheckInv(At(s, 0, Load(Scan(0), Bucket(0))).(phase := Scanning))
  {
    hide BaseInv;
    var s' := At(s, 0, Load(Scan(0), Bucket(0))).(phase := Scanning);
    BaseParts(s, 0);
    forall d ensures NotForgotten(s', d) {
      assert NotForgotten(s, d);
      if Live(s, d) { LiveRank(s, d); assert WillCheck(s', 0, d); }
      assert forall u :: !WillResolve(s, u, d);
    }
    forall u ensures PhaseOk(s', u, PcOf(s', u)) {
      assert PcOf(s, u).Idle?;
    }
  }

  /** When the scan is over nothing is left behind: only it could have had something to do. */
  lemma ScanEndCheck(s: State)
    requires Inv(s) && s.phase.Scanning? && PcOf(s, 0).Idle?
    ensures CheckInv(s.(phase := Eager))
  {
    hide BaseInv;
    var s' := s.(phase := Eager);
    forall u ensures PcOf(s, u).Idle? { assert PhaseOk(s, u, PcOf(s, u)); }
    forall u ensures PhaseOk(s', u, PcOf(s', u)) { assert PcOf(s', u) == PcOf(s, u); }
    forall d ensures NotForgotten(s', d) {
      assert NotForgotten(s, d);
      assert forall u :: !WillResolve(s, u, d) && !WillCheck(s, u, d);
    }
  }

  /** Every step of every thread, in every phase, keeps the invariant. */
  lemma StepInv(s: State, t: nat, c: Choice)
    requires Inv(s)
    ensures Inv(Step(s, t, c))
  {
    hide BaseInv, CheckInv, StartStep, WalkStep, OwnerStep;
    StepBase(s, t, c);
    var pc := PcOf(s, t);
    if s.phase.Scanning? && t != 0 {
    } else if pc.Idle? {
      if c.StartScan? {
        if s.phase.Lazy? && AllIdle(s) && t == 0 && s.nbuckets > 0 { ScanStartCheck(s); }
      } else if s.phase.Scanning? {
        ScanEndCheck(s);
      } else {
        StartCheck(s, t, c);
      }
    } else if Walking(pc) {
      WalkCheck(s, t);
    } else if pc.Recheck? {
      RecheckCheck(s, t, pc.e);
      OwnerStepIs(s, t);
    } else if pc.PushCas? && Value(s, Bucket(BucketOf(s, pc.e))) == pc.tail {
      PublishCheck(s, t, pc.e, pc.tail);
      OwnerStepIs(s, t);
    } else {
      OwnerCheck(s, t);
    }
  }

  lemma OwnerStepIs(s: State, t: nat)
    ensures PcOf(s, t).Recheck? ==> OwnerStep(s, t) == RecheckStep(s, t, PcOf(s, t).e)
    ensures PcOf(s, t).PushCas? ==> OwnerStep(s, t) == PublishStep(s, t, PcOf(s, t).e, PcOf(s, t).tail)
  {
    hide RecheckStep, PublishStep;
  }

  lemma StartCheck(s: State, t: nat, c: Choice)
    requires Inv(s) && PcOf(s, t).Idle? && !s.phase.Scanning?
    ensures CheckInv(StartStep(s, t, c))
  {
    hide BaseInv, CheckInv;
    match c
    case Mark(k, moves) => if k !in s.marked { MarkCheck(s, t, k, moves); }
    case TraceEphemeron(e) => ClaimCheck(s, t, e);
    case TakeResolved => TakeCheck(s, t);
    case _ =>
  }

  // ---------- Only for marked keys ----------

  /** Nothing is resolved, and no value visited, unless the key is marked. */
  ghost predicate Evidence(s: State) {
    forall e :: e in s.passed || e in s.done ==> s.key(e) in s.marked
  }

  ghost predicate SameHistory(s: State, s': State) {
    s'.key == s.key && s'.passed == s.passed && s'.done == s.done && s.marked <= s'.marked
  }

  lemma AtHistory(s: State, t: nat, pc: Pc)
    ensures SameHistory(s, At(s, t, pc))
  {
  }

  lemma StoreHistory(s: State, loc: Loc, v: nat)
    ensures SameHistory(s, Store(s, loc, v))
  {
  }

  lemma UpdateKeyHistory(s: State, e: nat)
    ensures SameHistory(s, UpdateKey(s, e))
  {
  }

  lemma WalkHistory(s: State, t: nat)
    ensures PcOf(s, t).TryResolve? || SameHistory(s, WalkStep(s, t))
  {
    hide At, Store, UpdateKey, PushResolvedStep, LoadPc, SkipPc, GotPc, FoundPc, KeyTraced, Value, TryResolveStep;
    var s' := WalkStep(s, t);
    match PcOf(s, t)
    case Load(w, loc) => AtHistory(s, t, LoadPc(s, w, loc));
    case Skip(w, loc, head, cur) => AtHistory(s, t, SkipPc(s, w, loc, head, cur));
    case NextOf(w, loc, head, cur) => AtHistory(s, t, Skip(w, loc, head, Value(s, Link(cur))));
    case Swing(w, loc, head, cur) => SwingHistory(s, t, w, loc, head, cur);
    case Got(w, e) => AtHistory(s, t, GotPc(s, w, e));
    case VisitKey(w, e) =>
      UpdateKeyHistory(s, e);
      AtHistory(UpdateKey(s, e), t, TryResolve(w, e));
      AtHistory(s, t, Load(w, Link(e)));
    case PushResolved(w, e) => PushResolvedHistory(s, t, w, e);
    case _ =>
  }

  lemma PushResolvedHistory(s: State, t: nat, w: Walk, e: nat)
    ensures SameHistory(s, PushResolvedStep(s, t, w, e))
  {
    hide ContinuePc;
  }

  lemma SwingHistory(s: State, t: nat, w: Walk, loc: Loc, head: nat, cur: nat)
    ensures SameHistory(s, SwingStep(s, t, w, loc, head, cur))
  {
    hide At, Store, FoundPc, Value;
    var now := Value(s, loc);
    StoreHistory(s, loc, cur);
    AtHistory(Store(s, loc, cur), t, FoundPc(s, w, cur));
    AtHistory(s, t, FoundPc(s, w, cur));
    AtHistory(s, t, Skip(w, loc, now, now));
  }

  lemma TryResolveHistory(s: State, t: nat, w: Walk, e: nat)
    requires Evidence(s) && s.key(e) in s.marked
    ensures Evidence(TryResolveStep(s, t, w, e))
  {
    hide ContinuePc;
  }

  lemma EpochHistory(s: State, t: nat, e: nat)
    ensures SameHistory(s, EpochStep(s, t, e))
  {
    hide At;
    AtHistory(s, t, StoreTraced(e));
    AtHistory(s, t, VisitOwnKey(e));
  }

  lemma SetStateHistory(s: State, t: nat, e: nat, st: EphState, pc: Pc)
    ensures SameHistory(s, At(s, t, pc).(st := s.st[e := st]))
  {
  }

  lemma PushLinkHistory(s: State, t: nat, e: nat, tail: nat)
    ensures SameHistory(s, At(s, t, PushCas(e, tail)).(link := s.link[e := tail]))
  {
  }

  lemma OwnerHistory(s: State, t: nat)
    ensures PcOf(s, t).VisitOwnKey? || PcOf(s, t).TraceBatch? || SameHistory(s, OwnerStep(s, t))
  {
    hide At, UpdateKey, KeyTraced, Value, EpochStep, PublishStep, VisitOwnStep, BatchStep;
    match PcOf(s, t)
    case EpochCheck(e) => EpochHistory(s, t, e);
    case StoreTraced(e) => SetStateHistory(s, t, e, Traced, Idle);
    case SetPending(e) => SetStateHistory(s, t, e, Pending, PushLoad(e));
    case PushLoad(e) => AtHistory(s, t, PushLink(e, Value(s, Bucket(BucketOf(s, e)))));
    case PushLink(e, tail) => PushLinkHistory(s, t, e, tail);
    case PushCas(e, tail) => PublishHistory(s, t, e, tail);
    case Recheck(e) =>
      UpdateKeyHistory(s, e);
      AtHistory(UpdateKey(s, e), t, TryResolve(Own, e));
      AtHistory(s, t, Idle);
    case _ =>
  }

  lemma PublishHistory(s: State, t: nat, e: nat, tail: nat)
    ensures SameHistory(s, PublishStep(s, t, e, tail))
  {
    hide At, Store, Value;
    var loc := Bucket(BucketOf(s, e));
    StoreHistory(s, loc, e);
    AtHistory(Store(s, loc, e), t, Recheck(e));
    AtHistory(s, t, PushLink(e, Value(s, loc)));
  }

  lemma VisitOwnHistory(s: State, t: nat, e: nat)
    requires Evidence(s) && (e in s.keyMoved ==> s.key(e) in s.marked)
    ensures Evidence(VisitOwnStep(s, t, e))
  {
  }

  lemma BatchHistory(s: State, t: nat, es: seq<nat>)
    requires Evidence(s) && (es != [] ==> es[0] in s.passed)
    ensures Evidence(BatchStep(s, t, es))
  {
  }

  lemma StartHistory(s: State, t: nat, c: Choice)
    ensures SameHistory(s, StartStep(s, t, c))
  {
  }

  lemma StepEvidence(s: State, t: nat, c: Choice)
    requires Inv(s) && Evidence(s)
    ensures Evidence(Step(s, t, c))
  {
    hide BaseInv, StartStep, WalkStep, OwnerStep, BatchStep, TryResolveStep, VisitOwnStep, At;
    var pc := PcOf(s, t);
    BaseParts(s, t);
    assert PhaseOk(s, t, pc);
    WalkHistory(s, t);
    OwnerHistory(s, t);
    StartHistory(s, t, c);
    AtHistory(s, 0, Load(Scan(0), Bucket(0)));
    StepsAre(s, t);
    match pc
    case TryResolve(w, e) => TryResolveHistory(s, t, w, e);
    case VisitOwnKey(e) => VisitOwnHistory(s, t, e);
    case TraceBatch(es) => BatchHistory(s, t, es);
    case _ =>
  }

  lemma StepsAre(s: State, t: nat)
    ensures var pc := PcOf(s, t);
      && (pc.TryResolve? ==> WalkStep(s, t) == TryResolveStep(s, t, pc.w, pc.e))
      && (pc.VisitOwnKey? ==> OwnerStep(s, t) == VisitOwnStep(s, t, pc.e))
      && (pc.TraceBatch? ==> OwnerStep(s, t) == BatchStep(s, t, pc.es))
  {
    hide At, SwingStep, TryResolveStep, VisitOwnStep, BatchStep;
  }

  // ---------- Runs ----------

  ghost predicate Next(s: State, s': State) {
    exists t, c :: s' == Step(s, t, c)
  }

  ghost predicate IsRun(run: seq<State>) {
    && run != [] && Init(run[0])
    && forall i :: 0 <= i < |run| - 1 ==> Next(run[i], run[i + 1])
  }

  lemma {:induction false} RunInv(run: seq<State>)
    requires IsRun(run)
    ensures Inv(run[|run| - 1]) && Evidence(run[|run| - 1])
  {
    hide Inv, Init, Step, Evidence;
    if |run| == 1 {
      InitInv(run[0]);
      InitEvidence(run[0]);
    } else {
      var front := run[..|run| - 1];
      assert IsRun(front) by {
        forall i | 0 <= i < |front| - 1 ensures Next(front[i], front[i + 1]) { assert Next(run[i], run[i + 1]); }
      }
      RunInv(front);
      assert Next(run[|run| - 2], run[|run| - 1]);
      var t, c :| run[|run| - 1] == Step(run[|run| - 2], t, c);
      StepInv(run[|run| - 2], t, c);
      StepEvidence(run[|run| - 2], t, c);
    }
  }

  lemma InitEvidence(s: State)
    requires Init(s)
    ensures Evidence(s)
  {
  }

  // ---------- Main results ----------

  /** In every run each ephemeron is claimed at most once in the epoch, is resolved at most
      once, and has its value visited at most once. */
  lemma EachEphemeronOnce(run: seq<State>, s: State, e: nat)
    requires IsRun(run) && s == run[|run| - 1]
    ensures s.claims[e] <= 1 && s.entries[e] <= 1 && s.visits[e] <= 1
    ensures s.entries[e] == 1 ==> s.claims[e] == 1 && e in s.rank
  {
    hide Init, ChainsInv, ThreadsInv, CheckInv;
    RunInv(run);
    assert EphInv(s, e);
  }

  /** What following links from a bucket reaches in at most `n` steps. */
  ghost predicate Reaches(s: State, loc: Loc, e: nat, n: nat)
    decreases n
  {
    var p := Value(s, loc);
    p != 0 && (p == e || (n > 0 && Reaches(s, Link(p), e, n - 1)))
  }

  /** No walk, push or compare-and-swap ever makes a published pending ephemeron unreachable. */
  lemma PendingStaysReachable(run: seq<State>, s: State, e: nat)
    requires IsRun(run) && s == run[|run| - 1] && StOf(s, e).Pending? && e in s.rank
    ensures exists n :: Reaches(s, Bucket(BucketOf(s, e)), e, n)
  {
    hide Init, ThreadsInv, CheckInv;
    RunInv(run);
    assert EphInv(s, e);
    ReachesFrom(s, Bucket(BucketOf(s, e)), e, s.clock + 1);
  }

  lemma {:induction false} ReachesFrom(s: State, loc: Loc, e: nat, bound: nat)
    requires EphsInv(s) && ChainsInv(s) && Live(s, e) && LocIn(s, BucketOf(s, e), loc) && After(s, loc, e)
    requires match loc case Bucket(_) => s.clock < bound case Link(x) => Rk(s, x) <= bound
    ensures Reaches(s, loc, e, bound)
    decreases bound
  {
    var b := BucketOf(s, e);
    assert LocInv(s, b, loc);
    var p := Value(s, loc);
    LiveRank(s, e);
    assert After(s, loc, e) && Rk(s, e) <= Rk(s, p);
    assert EphInv(s, p) && RanksDiffer(s, p, e);
    if p != e {
      ReachesFrom(s, Link(p), e, bound - 1);
    }
  }

  /** Publish, then recheck: once a cycle resolves eagerly and every thread has come to rest,
      no pending ephemeron is left whose key has been marked. */
  lemma NoneLeftBehind(run: seq<State>, s: State, e: nat)
    requires IsRun(run) && s == run[|run| - 1]
    requires s.phase.Eager? && AllIdle(s) && s.key(e) in s.marked
    ensures !StOf(s, e).Pending?
  {
    hide Init, ChainsInv;
    RunInv(run);
    assert EphInv(s, e) && HeldWhilePublishing(s, e) && NotForgotten(s, e);
    assert forall t :: !WillCheck(s, t, e) && !WillResolve(s, t, e);
  }

  /** Conversely, an ephemeron leaves the table, or has its value visited, only once its key is
      marked; and one that was published and visited went through the resolved set. */
  lemma OnlyMarkedKeysResolve(run: seq<State>, s: State, e: nat)
    requires IsRun(run) && s == run[|run| - 1]
    ensures s.visits[e] > 0 || s.entries[e] > 0 || StOf(s, e).Resolved? ==> s.key(e) in s.marked
    ensures s.visits[e] > 0 && e in s.rank ==> s.entries[e] > 0
  {
    hide Init, ChainsInv, CheckInv;
    RunInv(run);
    assert EphInv(s, e);
  }
}
