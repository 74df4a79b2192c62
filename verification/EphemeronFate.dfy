/**
  What becomes of each ephemeron in a cycle of src/gc-ephemeron.c: an ephemeron that was dead before is
  never published, resolved or visited; of any other that was traced, the value is visited if and only
  if the key is marked, and the key field follows a key that moves.  The steps are those of
  EphemeronTracing.
*/
module EphemeronFate {

  import opened EphemeronTracing
  import P = EphemeronProgress

  // ---------- Invariant ----------

  /** Points at which the thread is responsible neither for a claim nor for a resolved ephemeron. */
  predicate Free(pc: Pc) {
    pc.Idle? || pc.Recheck? || (Walking(pc) && !pc.PushResolved?)
  }

  predicate Claiming(pc: Pc, e: nat) {
    (pc.EpochCheck? || pc.StoreTraced? || pc.VisitOwnKey? || pc.SetPending?) && pc.e == e
  }

  /** A resolved ephemeron is where its place says. */
  ghost predicate PlaceOk(s: State, e: nat) {
    e in s.passed && e !in s.done && e in s.place ==>
      match s.place[e]
      case Hand(t) => PcOf(s, t).PushResolved? && PcOf(s, t).e == e
      case Stack => e in s.stack
      case Batch(t) => PcOf(s, t).TraceBatch? && e in PcOf(s, t).es
  }

  ghost predicate EphFate(s: State, e: nat) {
    && (e in s.dead ==> e !in s.rank && e !in s.passed && e !in s.done && !StOf(s, e).Pending? && !StOf(s, e).Resolved?)
    && (StOf(s, e).Traced? && e in s.current && e !in s.dead ==> e in s.done)
    && (StOf(s, e).Claimed? ==> e in s.owner && Claiming(PcOf(s, s.owner[e]), e))
    && PlaceOk(s, e)
  }

  ghost predicate PcFate(s: State, pc: Pc) {
    match pc
    case EpochCheck(e) => e in s.current && e !in s.dead ==> e in s.done
    case StoreTraced(e) => e in s.dead || e in s.done
    case VisitOwnKey(e) => e !in s.dead
    case SetPending(e) => e !in s.dead
    case PushLoad(e) => e !in s.dead
    case PushLink(e, _) => e !in s.dead
    case PushCas(e, _) => e !in s.dead
    case _ => true
  }

  ghost predicate Fate(s: State) {
    (forall e :: EphFate(s, e)) && (forall t :: PcFate(s, PcOf(s, t)))
  }

  lemma InitFate(s: State)
    requires Init(s)
    ensures Fate(s)
  {
  }

  // ---------- Steps that are neither claims nor resolutions ----------

  ghost predicate SameEphs(s: State, s': State) {
    && s'.dead == s.dead && s'.st == s.st && s'.current == s.current && s'.rank == s.rank && s'.passed == s.passed
    && s'.done == s.done && s'.place == s.place && s'.owner == s.owner && s'.stack == s.stack
  }

  ghost predicate OthersStay(s: State, s': State, t: nat) {
    forall u :: u != t ==> PcOf(s', u) == PcOf(s, u)
  }

  lemma FreeStep(s: State, s': State, t: nat)
    requires Fate(s) && Moved(s, s', t) && Free(PcOf(s, t))
    ensures Fate(s') && s'.dead == s.dead
  {
    forall e ensures EphFate(s', e) { assert EphFate(s, e); }
    forall u ensures PcFate(s', PcOf(s', u)) { assert PcFate(s, PcOf(s, u)); }
  }

  /** Only the table, the key fields and the thread's own place have changed. */
  ghost predicate Moved(s: State, s': State, t: nat) {
    SameEphs(s, s') && OthersStay(s, s', t) && Free(PcOf(s', t))
  }

  lemma AtMoved(s: State, s1: State, t: nat, pc: Pc)
    requires SameEphs(s, s1) && OthersStay(s, s1, t) && Free(pc)
    ensures Moved(s, At(s1, t, pc), t)
  {
  }

  lemma StoreSame(s: State, t: nat, loc: Loc, v: nat)
    ensures SameEphs(s, Store(s, loc, v)) && OthersStay(s, Store(s, loc, v), t)
  {
  }

  lemma UpdateKeySame(s: State, t: nat, e: nat)
    ensures SameEphs(s, UpdateKey(s, e)) && OthersStay(s, UpdateKey(s, e), t)
  {
    SameEphsRefl(s, t);
    if s.key(e) in s.moved { KeyMovedSame(s, t, e); }
  }

  lemma KeyMovedSame(s: State, t: nat, e: nat)
    ensures var s' := s.(keyMoved := s.keyMoved + {e}); SameEphs(s, s') && OthersStay(s, s', t)
  {
  }

  lemma PointsAreFree(s: State, w: Walk, e: nat)
    ensures Free(EndPc(s, w)) && Free(FoundPc(s, w, e)) && Free(ContinuePc(w, e)) && Free(GotPc(s, w, e))
  {
  }

  lemma WalkIsFree(s: State, t: nat)
    requires var pc := PcOf(s, t); Walking(pc) && !pc.PushResolved? && !(pc.TryResolve? && StOf(s, pc.e) == Pending)
    ensures Moved(s, WalkStep(s, t), t)
  {
    hide Moved, SameEphs, OthersStay, At, Store, UpdateKey, KeyTraced, Value, EndPc, FoundPc, ContinuePc, GotPc;
    SameEphsRefl(s, t);
    match PcOf(s, t)
    case Load(w, loc) => PointsAreFree(s, w, 0); AtMoved(s, s, t, LoadPc(s, w, loc));
    case Skip(w, loc, head, cur) => PointsAreFree(s, w, cur); AtMoved(s, s, t, SkipPc(s, w, loc, head, cur));
    case NextOf(w, loc, head, cur) => AtMoved(s, s, t, Skip(w, loc, head, Value(s, Link(cur))));
    case Swing(w, loc, head, cur) => SwingIsFree(s, t, w, loc, head, cur);
    case Got(w, e) => PointsAreFree(s, w, e); AtMoved(s, s, t, GotPc(s, w, e));
    case VisitKey(w, e) => KeyIsFree(s, t, w, e);
    case TryResolve(w, e) => PointsAreFree(s, w, e); AtMoved(s, s, t, ContinuePc(w, e));
  }

  lemma SameEphsRefl(s: State, t: nat)
    ensures SameEphs(s, s) && OthersStay(s, s, t)
  {
  }

  lemma SwingIsFree(s: State, t: nat, w: Walk, loc: Loc, head: nat, cur: nat)
    ensures Moved(s, SwingStep(s, t, w, loc, head, cur), t)
  {
    hide Moved, SameEphs, OthersStay, At, Store, Value, FoundPc;
    var now := Value(s, loc);
    SameEphsRefl(s, t);
    PointsAreFree(s, w, cur);
    StoreSame(s, t, loc, cur);
    AtMoved(s, Store(s, loc, cur), t, FoundPc(s, w, cur));
    AtMoved(s, s, t, FoundPc(s, w, cur));
    AtMoved(s, s, t, Skip(w, loc, now, now));
  }

  lemma KeyIsFree(s: State, t: nat, w: Walk, e: nat)
    ensures Moved(s, VisitKeyStep(s, t, w, e), t)
  {
    hide Moved, SameEphs, OthersStay, At, UpdateKey, KeyTraced;
    SameEphsRefl(s, t);
    UpdateKeySame(s, t, e);
    AtMoved(s, UpdateKey(s, e), t, TryResolve(w, e));
    AtMoved(s, s, t, Load(w, Link(e)));
  }

  // ---------- Steps on one ephemeron ----------

  /** A step of thread `t` that concerns the ephemeron `e` alone. */
  ghost predicate OnlyOn(s: State, s': State, t: nat, e: nat) {
    && s'.dead == s.dead && OthersStay(s, s', t)
    && (forall d :: d != e ==> StOf(s', d) == StOf(s, d))
    && (forall d :: d != e ==> (d in s'.current <==> d in s.current) && (d in s'.rank <==> d in s.rank) &&
                               (d in s'.passed <==> d in s.passed) && (d in s'.done <==> d in s.done))
    && (forall d :: d != e ==> (d in s'.place <==> d in s.place) && (d in s.place ==> s'.place[d] == s.place[d]))
    && (forall d :: d != e ==> (d in s'.owner <==> d in s.owner) && (d in s.owner ==> s'.owner[d] == s.owner[d]))
    && (forall d :: d != e && d in s.stack ==> d in s'.stack)
    && (e in s.done ==> e in s'.done)
  }

  /** Before and after it, thread `t` is responsible for no other. */
  predicate NoOther(pc: Pc, e: nat) {
    match pc
    case EpochCheck(d) => d == e
    case StoreTraced(d) => d == e
    case VisitOwnKey(d) => d == e
    case SetPending(d) => d == e
    case PushLoad(d) => d == e
    case PushLink(d, _) => d == e
    case PushCas(d, _) => d == e
    case PushResolved(_, d) => d == e
    case TraceBatch(es) => false
    case _ => true
  }

  /** No other thread has a claim on `e`. */
  ghost predicate Sole(s: State, t: nat, e: nat) {
    forall u :: u != t ==> var pc := PcOf(s, u); !Claiming(pc, e) && !((pc.PushLoad? || pc.PushLink? || pc.PushCas?) && pc.e == e)
  }

  lemma OneStep(s: State, s': State, t: nat, e: nat)
    requires Fate(s) && OnlyOn(s, s', t, e) && NoOther(PcOf(s, t), e) && NoOther(PcOf(s', t), e)
    requires EphFate(s', e) && PcFate(s', PcOf(s', t)) && (Sole(s, t, e) || (s'.current == s.current && s'.done == s.done))
    ensures Fate(s')
  {
    forall d ensures EphFate(s', d) { assert EphFate(s, d); }
    forall u ensures PcFate(s', PcOf(s', u)) {
      assert PcFate(s, PcOf(s, u));
      if u != t { OtherPcFate(s, s', t, e, u); }
    }
  }

  lemma OtherPcFate(s: State, s': State, t: nat, e: nat, u: nat)
    requires OnlyOn(s, s', t, e) && PcFate(s, PcOf(s, u)) && u != t
    requires Sole(s, t, e) || (s'.current == s.current && s'.done == s.done)
    ensures PcFate(s', PcOf(s', u))
  {
  }

  lemma SoleOwner(s: State, t: nat, e: nat)
    requires BaseInv(s) && e in s.owner && s.owner[e] == t
    ensures Sole(s, t, e)
  {
    hide EphsInv, ChainsInv;
    forall u | u != t
      ensures var pc := PcOf(s, u); !Claiming(pc, e) && !((pc.PushLoad? || pc.PushLink? || pc.PushCas?) && pc.e == e)
    {
      assert PcInv(s, u, PcOf(s, u));
    }
  }

  // The steps of the thread that claimed `e`

  lemma EpochFate(s: State, t: nat, e: nat)
    requires BaseInv(s) && Fate(s) && PcOf(s, t) == EpochCheck(e)
    ensures Fate(EpochStep(s, t, e)) && EpochStep(s, t, e).dead == s.dead
  {
    hide EphsInv, ChainsInv;
    assert PcInv(s, t, PcOf(s, t)) && PcFate(s, PcOf(s, t)) && EphFate(s, e);
    SoleOwner(s, t, e);
    hide BaseInv, Fate, Sole, PcInv, EpochStep;
    EpochIs(s, t, e);
    OneStep(s, EpochStep(s, t, e), t, e);
  }

  lemma EpochIs(s: State, t: nat, e: nat)
    ensures var s' := EpochStep(s, t, e);
      && s'.pcs == s.pcs[t := if e in s.current || e in s.dead then StoreTraced(e) else VisitOwnKey(e)]
      && s'.dead == s.dead && s'.st == s.st && s'.current == s.current + {e} && s'.done == s.done && s'.passed == s.passed
      && s'.rank == s.rank && s'.place == s.place && s'.stack == s.stack && s'.owner == s.owner
  {
    hide At, OthersStay;
    AtIs(s, t, StoreTraced(e));
    AtIs(s, t, VisitOwnKey(e));
    if e !in s.current {
      var pc := if e in s.dead then StoreTraced(e) else VisitOwnKey(e);
      CurrentIs(At(s, t, pc), s.current + {e}, s.claims + multiset{e}, s.link[e := 0]);
    }
  }

  lemma CurrentIs(s: State, current: set<nat>, claims: multiset<nat>, link: map<nat, nat>)
    ensures var s' := s.(current := current, claims := claims, link := link);
      && s'.pcs == s.pcs && s'.dead == s.dead && s'.current == current && s'.rank == s.rank && s'.passed == s.passed
      && s'.place == s.place && s'.owner == s.owner && s'.stack == s.stack && s'.st == s.st && s'.done == s.done
  {
  }

  lemma AtOnly(s: State, t: nat, pc: Pc, e: nat)
    ensures OnlyOn(s, At(s, t, pc), t, e) && PcOf(At(s, t, pc), t) == pc
  {
  }

  lemma StoreTracedFate(s: State, t: nat, e: nat)
    requires BaseInv(s) && Fate(s) && PcOf(s, t) == StoreTraced(e)
    ensures Fate(At(s, t, Idle).(st := s.st[e := Traced])) && At(s, t, Idle).(st := s.st[e := Traced]).dead == s.dead
  {
    hide EphsInv, ChainsInv;
    assert PcInv(s, t, PcOf(s, t)) && PcFate(s, PcOf(s, t)) && EphFate(s, e);
    hide BaseInv, Fate, Sole;
    OneStep(s, At(s, t, Idle).(st := s.st[e := Traced]), t, e);
  }

  lemma VisitOwnFate(s: State, t: nat, e: nat)
    requires BaseInv(s) && Fate(s) && PcOf(s, t) == VisitOwnKey(e)
    ensures Fate(VisitOwnStep(s, t, e)) && VisitOwnStep(s, t, e).dead == s.dead
  {
    hide EphsInv, ChainsInv;
    assert PcInv(s, t, PcOf(s, t)) && PcFate(s, PcOf(s, t)) && EphFate(s, e);
    SoleOwner(s, t, e);
    hide BaseInv, Fate, Sole, KeyTraced, OnlyOn;
    VisitOwnOnly(s, t, e);
    OneStep(s, VisitOwnStep(s, t, e), t, e);
  }

  lemma VisitOwnOnly(s: State, t: nat, e: nat)
    ensures OnlyOn(s, VisitOwnStep(s, t, e), t, e)
  {
    hide UpdateKey, KeyTraced;
    UpdateKeySame(s, t, e);
    AtOnly(s, t, SetPending(e), e);
  }

  lemma SetPendingFate(s: State, t: nat, e: nat)
    requires BaseInv(s) && Fate(s) && PcOf(s, t) == SetPending(e)
    ensures Fate(At(s, t, PushLoad(e)).(st := s.st[e := Pending])) && At(s, t, PushLoad(e)).(st := s.st[e := Pending]).dead == s.dead
  {
    hide EphsInv, ChainsInv;
    assert PcInv(s, t, PcOf(s, t)) && PcFate(s, PcOf(s, t)) && EphFate(s, e);
    hide BaseInv, Fate, Sole;
    OneStep(s, At(s, t, PushLoad(e)).(st := s.st[e := Pending]), t, e);
  }

  lemma PushFate(s: State, t: nat, e: nat, s1: State, pc: Pc)
    requires Fate(s) && NoOther(PcOf(s, t), e) && !Claiming(PcOf(s, t), e) && !PcOf(s, t).PushResolved?
    requires PcFate(s, PcOf(s, t)) && SameEphs(s, s1) && s1.pcs == s.pcs
    requires NoOther(pc, e) && !pc.TraceBatch? && (PcFate(s, PcOf(s, t)) ==> PcFate(s, pc))
    ensures Fate(At(s1, t, pc)) && At(s1, t, pc).dead == s.dead
  {
    var s' := At(s1, t, pc);
    forall d ensures EphFate(s', d) { assert EphFate(s, d); }
    forall u ensures PcFate(s', PcOf(s', u)) { assert PcFate(s, PcOf(s, u)); }
  }

  lemma PublishFate(s: State, t: nat, e: nat, tail: nat)
    requires BaseInv(s) && Fate(s) && PcOf(s, t) == PushCas(e, tail)
    ensures Fate(PublishStep(s, t, e, tail)) && PublishStep(s, t, e, tail).dead == s.dead
  {
    hide EphsInv, ChainsInv;
    assert PcInv(s, t, PcOf(s, t)) && PcFate(s, PcOf(s, t)) && EphFate(s, e);
    hide BaseInv, Fate, Sole, PublishStep, PcInv, Value;
    PublishIs(s, t, e, tail);
    OneStep(s, PublishStep(s, t, e, tail), t, e);
  }

  lemma PublishIs(s: State, t: nat, e: nat, tail: nat)
    ensures var s' := PublishStep(s, t, e, tail);
      && s'.dead == s.dead && s'.st == s.st && s'.current == s.current && s'.done == s.done && s'.passed == s.passed
      && s'.place == s.place && s'.owner == s.owner && s'.stack == s.stack
      && ((s'.pcs == s.pcs[t := Recheck(e)] && s'.rank == s.rank[e := s.clock + 1]) ||
          (s'.pcs == s.pcs[t := PushLink(e, Value(s, Bucket(BucketOf(s, e))))] && s'.rank == s.rank))
  {
    hide Value, Store, At, OthersStay, BucketOf;
    var loc := Bucket(BucketOf(s, e));
    StoreSame(s, t, loc, e);
    StorePcs(s, loc, e);
    AtIs(Store(s, loc, e), t, Recheck(e));
    AtIs(s, t, PushLink(e, Value(s, loc)));
    RankIs(At(Store(s, loc, e), t, Recheck(e)), s.rank[e := s.clock + 1], s.clock + 1);
  }

  lemma StorePcs(s: State, loc: Loc, v: nat)
    ensures Store(s, loc, v).pcs == s.pcs
  {
  }

  lemma RankIs(s: State, rank: map<nat, nat>, clock: nat)
    ensures var s' := s.(rank := rank, clock := clock);
      && s'.pcs == s.pcs && s'.dead == s.dead && s'.current == s.current && s'.rank == rank && s'.passed == s.passed
      && s'.place == s.place && s'.owner == s.owner && s'.stack == s.stack && s'.st == s.st && s'.done == s.done
  {
  }

  lemma TryResolveFate(s: State, t: nat, w: Walk, e: nat)
    requires BaseInv(s) && Fate(s) && PcOf(s, t) == TryResolve(w, e) && StOf(s, e) == Pending
    ensures Fate(TryResolveStep(s, t, w, e)) && TryResolveStep(s, t, w, e).dead == s.dead
  {
    hide EphsInv, ChainsInv;
    assert PcInv(s, t, PcOf(s, t)) && EphFate(s, e);
    hide BaseInv, Fate, Sole;
    OneStep(s, TryResolveStep(s, t, w, e), t, e);
  }

  lemma PushResolvedFate(s: State, t: nat, w: Walk, e: nat)
    requires BaseInv(s) && Fate(s) && PcOf(s, t) == PushResolved(w, e)
    ensures Fate(PushResolvedStep(s, t, w, e)) && PushResolvedStep(s, t, w, e).dead == s.dead
  {
    hide EphsInv, ChainsInv;
    assert PcInv(s, t, PcOf(s, t)) && EphFate(s, e);
    hide BaseInv, Fate, Sole;
    OneStep(s, PushResolvedStep(s, t, w, e), t, e);
  }

  lemma ClaimFate(s: State, t: nat, e: nat)
    requires BaseInv(s) && Fate(s) && PcOf(s, t).Idle?
    ensures Fate(StartStep(s, t, TraceEphemeron(e))) && StartStep(s, t, TraceEphemeron(e)).dead == s.dead
  {
    hide EphsInv, ChainsInv;
    assert EphFate(s, e);
    hide BaseInv, Fate, Sole;
    if e != 0 && StOf(s, e) == Traced {
      OneStep(s, StartStep(s, t, TraceEphemeron(e)), t, e);
    }
  }

  // The batch

  lemma BatchFate(s: State, t: nat, es: seq<nat>)
    requires BaseInv(s) && Fate(s) && PcOf(s, t) == TraceBatch(es)
    ensures Fate(BatchStep(s, t, es)) && BatchStep(s, t, es).dead == s.dead
  {
    hide EphsInv, ChainsInv, BatchStep;
    var s' := BatchStep(s, t, es);
    assert PcInv(s, t, PcOf(s, t));
    BatchIs(s, t, es);
    hide BaseInv, PcInv;
    forall d ensures EphFate(s', d) {
      assert EphFate(s, d);
      if es != [] { assert d in es ==> d == es[0] || d in es[1..]; }
    }
    forall u ensures PcFate(s', PcOf(s', u)) { assert PcFate(s, PcOf(s, u)); }
  }

  lemma BatchIs(s: State, t: nat, es: seq<nat>)
    ensures var s' := BatchStep(s, t, es);
      && s'.pcs == s.pcs[t := if es == [] then Idle else TraceBatch(es[1..])] && s'.dead == s.dead
      && s'.current == s.current && s'.rank == s.rank && s'.passed == s.passed && s'.place == s.place
      && s'.owner == s.owner && s'.stack == s.stack
      && (es == [] ==> s'.st == s.st && s'.done == s.done)
      && (es != [] ==> s'.st == s.st[es[0] := Traced] && s'.done == s.done + {es[0]})
  {
    hide At;
    var pc := if es == [] then Idle else TraceBatch(es[1..]);
    AtIs(s, t, pc);
    if es != [] { TracedIs(At(s, t, pc), s.st[es[0] := Traced], s.done + {es[0]}, s.visits + multiset{es[0]}); }
  }

  lemma AtIs(s: State, t: nat, pc: Pc)
    ensures var s' := At(s, t, pc); s'.pcs == s.pcs[t := pc] && SameEphs(s, s')
  {
  }

  lemma TracedIs(s: State, st: map<nat, EphState>, done: set<nat>, visits: multiset<nat>)
    ensures var s' := s.(st := st, done := done, visits := visits);
      && s'.pcs == s.pcs && s'.dead == s.dead && s'.current == s.current && s'.rank == s.rank && s'.passed == s.passed
      && s'.place == s.place && s'.owner == s.owner && s'.stack == s.stack && s'.st == st && s'.done == done
  {
  }

  lemma TakeFate(s: State, t: nat)
    requires BaseInv(s) && Fate(s) && PcOf(s, t).Idle?
    ensures Fate(StartStep(s, t, TakeResolved)) && StartStep(s, t, TakeResolved).dead == s.dead
  {
    hide EphsInv, ChainsInv;
    var s' := StartStep(s, t, TakeResolved);
    forall d ensures EphFate(s', d) { assert EphFate(s, d); }
    forall u ensures PcFate(s', PcOf(s', u)) { assert PcFate(s, PcOf(s, u)); }
  }

  // ---------- Every step, and every run ----------

  lemma OwnerFate(s: State, t: nat)
    requires BaseInv(s) && Fate(s) && !PcOf(s, t).Idle? && !Walking(PcOf(s, t))
    ensures Fate(OwnerStep(s, t)) && OwnerStep(s, t).dead == s.dead
  {
    hide BaseInv, Fate, At, Store, Value, EpochStep, VisitOwnStep, PublishStep, RecheckStep, BatchStep;
    match PcOf(s, t)
    case EpochCheck(e) => EpochFate(s, t, e);
    case StoreTraced(e) => StoreTracedFate(s, t, e);
    case VisitOwnKey(e) => VisitOwnFate(s, t, e);
    case SetPending(e) => SetPendingFate(s, t, e);
    case PushLoad(e) =>
      PushPoint(s, t);
      PushFate(s, t, e, s, PushLink(e, Value(s, Bucket(BucketOf(s, e)))));
    case PushLink(e, tail) =>
      PushPoint(s, t);
      LinkSame(s, e, tail);
      PushFate(s, t, e, s.(link := s.link[e := tail]), PushCas(e, tail));
      LinkThenAt(s, t, e, tail);
    case PushCas(e, tail) => PublishFate(s, t, e, tail);
    case Recheck(e) => RecheckFate(s, t, e);
    case TraceBatch(es) => BatchFate(s, t, es);
  }

  lemma PushPoint(s: State, t: nat)
    requires Fate(s)
    ensures PcFate(s, PcOf(s, t)) && SameEphs(s, s)
  {
  }

  lemma LinkSame(s: State, e: nat, v: nat)
    ensures SameEphs(s, s.(link := s.link[e := v])) && s.(link := s.link[e := v]).pcs == s.pcs
  {
  }

  lemma LinkThenAt(s: State, t: nat, e: nat, tail: nat)
    ensures At(s, t, PushCas(e, tail)).(link := s.link[e := tail]) == At(s.(link := s.link[e := tail]), t, PushCas(e, tail))
  {
  }

  lemma RecheckFate(s: State, t: nat, e: nat)
    requires Fate(s) && PcOf(s, t) == Recheck(e)
    ensures Fate(RecheckStep(s, t, e)) && RecheckStep(s, t, e).dead == s.dead
  {
    hide Fate, Moved, SameEphs, OthersStay, At, UpdateKey, KeyTraced;
    SameEphsRefl(s, t);
    UpdateKeySame(s, t, e);
    AtMoved(s, UpdateKey(s, e), t, TryResolve(Own, e));
    AtMoved(s, s, t, Idle);
    FreeStep(s, RecheckStep(s, t, e), t);
  }

  lemma WalkFate(s: State, t: nat)
    requires BaseInv(s) && Fate(s) && Walking(PcOf(s, t))
    ensures Fate(WalkStep(s, t)) && WalkStep(s, t).dead == s.dead
  {
    hide BaseInv, Fate, Moved, WalkStep, TryResolveStep, PushResolvedStep;
    var pc := PcOf(s, t);
    WalkStepsAre(s, t);
    if pc.PushResolved? {
      PushResolvedFate(s, t, pc.w, pc.e);
    } else if pc.TryResolve? && StOf(s, pc.e) == Pending {
      TryResolveFate(s, t, pc.w, pc.e);
    } else {
      WalkIsFree(s, t);
      FreeStep(s, WalkStep(s, t), t);
    }
  }

  lemma WalkStepsAre(s: State, t: nat)
    ensures var pc := PcOf(s, t);
      && (pc.TryResolve? ==> WalkStep(s, t) == TryResolveStep(s, t, pc.w, pc.e))
      && (pc.PushResolved? ==> WalkStep(s, t) == PushResolvedStep(s, t, pc.w, pc.e))
  {
    hide TryResolveStep, PushResolvedStep, SwingStep, VisitKeyStep, At;
  }

  lemma MarkFate(s: State, t: nat, k: nat, moves: bool)
    requires Fate(s) && PcOf(s, t).Idle?
    ensures Fate(StartStep(s, t, Mark(k, moves))) && StartStep(s, t, Mark(k, moves)).dead == s.dead
  {
    hide Fate;
    if k !in s.marked {
      FreeStep(s, StartStep(s, t, Mark(k, moves)), t);
    }
  }

  lemma PhaseFate(s: State, s': State)
    requires Fate(s) && SameEphs(s, s') && forall t :: PcOf(s', t) == PcOf(s, t) || (Free(PcOf(s, t)) && Free(PcOf(s', t)))
    ensures Fate(s') && s'.dead == s.dead
  {
    forall e ensures EphFate(s', e) { assert EphFate(s, e); }
    forall u ensures PcFate(s', PcOf(s', u)) { assert PcFate(s, PcOf(s, u)); }
  }

  lemma StepFate(s: State, t: nat, c: Choice)
    requires BaseInv(s) && Fate(s)
    ensures Fate(Step(s, t, c)) && Step(s, t, c).dead == s.dead
  {
    hide BaseInv, Fate, WalkStep, OwnerStep, StartStep, SameEphs;
    if PcOf(s, t).Idle? {
      var s1 := At(s, 0, Load(Scan(0), Bucket(0))).(phase := Scanning);
      PhasesSame(s);
      PhaseFate(s, s.(phase := Eager));
      if PcOf(s, 0).Idle? { PhaseFate(s, s1); }
      match c
      case Mark(k, moves) => MarkFate(s, t, k, moves);
      case TraceEphemeron(e) => ClaimFate(s, t, e);
      case TakeResolved => TakeFate(s, t);
      case _ => NoStart(s, t, c);
    } else if Walking(PcOf(s, t)) {
      WalkFate(s, t);
    } else {
      OwnerFate(s, t);
    }
  }

  lemma NoStart(s: State, t: nat, c: Choice)
    requires c.Go? || c.StartScan?
    ensures StartStep(s, t, c) == s
  {
  }

  lemma PhasesSame(s: State)
    ensures SameEphs(s, s.(phase := Eager))
    ensures SameEphs(s, At(s, 0, Load(Scan(0), Bucket(0))).(phase := Scanning))
  {
  }

  lemma {:induction false} RunFate(run: seq<State>)
    requires P.IsRun(run)
    ensures Fate(run[|run| - 1]) && run[|run| - 1].dead == run[0].dead
  {
    hide Fate, Init, Step, BaseInv, CheckInv;
    if |run| == 1 {
      InitFate(run[0]);
    } else {
      var front := run[..|run| - 1];
      assert P.IsRun(front) by {
        forall i | 0 <= i < |front| - 1 ensures P.Next(front[i], front[i + 1]) { assert P.Next(run[i], run[i + 1]); }
      }
      RunFate(front);
      P.RunInv(front);
      assert P.Next(run[|run| - 2], run[|run| - 1]);
      var t, c :| run[|run| - 1] == Step(run[|run| - 2], t, c);
      StepFate(run[|run| - 2], t, c);
    }
  }

  // ---------- The key fields ----------

  /** The key of `e` is marked, and if it was moved the key field of `e` has followed. */
  ghost predicate Fixed(s: State, e: nat) {
    s.key(e) in s.marked && (s.key(e) in s.moved ==> e in s.keyMoved)
  }

  ghost predicate KeyOk(s: State, e: nat) {
    (e in s.keyMoved ==> s.key(e) in s.moved) && (e in s.passed || e in s.done ==> Fixed(s, e))
  }

  ghost predicate PcKeys(s: State, pc: Pc) {
    pc.TryResolve? ==> Fixed(s, pc.e)
  }

  ghost predicate Keys(s: State) {
    (forall e :: KeyOk(s, e)) && (forall t :: PcKeys(s, PcOf(s, t))) && s.moved <= s.marked
  }

  ghost predicate SameKeys(s: State, s': State) {
    s'.key == s.key && s'.marked == s.marked && s'.moved == s.moved && s'.keyMoved == s.keyMoved
  }

  /** A step of thread `t` that marks nothing. */
  ghost predicate KeysStep(s: State, s': State, t: nat) {
    && s'.key == s.key && s'.marked == s.marked && s'.moved == s.moved && s.keyMoved <= s'.keyMoved
    && (forall e :: e in s'.keyMoved ==> e in s.keyMoved || s.key(e) in s.moved)
    && (forall e :: e in s'.passed || e in s'.done ==> e in s.passed || e in s.done || Fixed(s', e))
    && OthersStay(s, s', t) && PcKeys(s', PcOf(s', t))
  }

  lemma KeysKept(s: State, s': State, t: nat)
    requires Keys(s) && KeysStep(s, s', t)
    ensures Keys(s')
  {
    forall e ensures KeyOk(s', e) { assert KeyOk(s, e); }
    forall u ensures PcKeys(s', PcOf(s', u)) { assert PcKeys(s, PcOf(s, u)); }
  }

  lemma AtKeys(s: State, s1: State, t: nat, pc: Pc)
    requires SameKeys(s, s1) && s1.passed == s.passed && s1.done == s.done && OthersStay(s, s1, t) && !pc.TryResolve?
    ensures KeysStep(s, At(s1, t, pc), t)
  {
    hide Fixed;
  }

  lemma StoreKeys(s: State, t: nat, loc: Loc, v: nat)
    ensures var s' := Store(s, loc, v); SameKeys(s, s') && s'.passed == s.passed && s'.done == s.done && OthersStay(s, s', t)
  {
  }

  lemma PointsResolveNothing(s: State, w: Walk, e: nat)
    ensures !EndPc(s, w).TryResolve? && !FoundPc(s, w, e).TryResolve? && !ContinuePc(w, e).TryResolve? && !GotPc(s, w, e).TryResolve?
  {
  }

  /** What gc_visit_ephemeron_key leaves behind when it finds the key traced. */
  lemma UpdateFixes(s: State, e: nat)
    requires Keys(s) && KeyTraced(s, e)
    ensures var s' := UpdateKey(s, e); Fixed(s', e) && s'.pcs == s.pcs && s'.passed == s.passed && s'.done == s.done
    ensures var s' := UpdateKey(s, e); s'.key == s.key && s'.marked == s.marked && s'.moved == s.moved
    ensures UpdateKey(s, e).keyMoved == s.keyMoved + if s.key(e) in s.moved then {e} else {}
  {
    assert KeyOk(s, e);
  }

  lemma FixedKeys(s: State, t: nat, w: Walk, e: nat)
    requires Keys(s) && KeyTraced(s, e)
    ensures KeysStep(s, At(UpdateKey(s, e), t, TryResolve(w, e)), t)
  {
    hide UpdateKey, KeyTraced, Keys;
    UpdateFixes(s, e);
  }

  lemma WalkKeys(s: State, t: nat)
    requires Keys(s) && Walking(PcOf(s, t))
    ensures KeysStep(s, WalkStep(s, t), t)
  {
    hide KeysStep, SameKeys, OthersStay, At, Store, UpdateKey, KeyTraced, Value, EndPc, FoundPc, ContinuePc, GotPc, Keys,
      TryResolveStep, PushResolvedStep;
    SameKeysRefl(s, t);
    match PcOf(s, t)
    case Load(w, loc) => PointsResolveNothing(s, w, 0); AtKeys(s, s, t, LoadPc(s, w, loc));
    case Skip(w, loc, head, cur) => PointsResolveNothing(s, w, cur); AtKeys(s, s, t, SkipPc(s, w, loc, head, cur));
    case NextOf(w, loc, head, cur) => AtKeys(s, s, t, Skip(w, loc, head, Value(s, Link(cur))));
    case Swing(w, loc, head, cur) => SwingKeys(s, t, w, loc, head, cur);
    case Got(w, e) => PointsResolveNothing(s, w, e); AtKeys(s, s, t, GotPc(s, w, e));
    case VisitKey(w, e) =>
      if KeyTraced(s, e) { FixedKeys(s, t, w, e); } else { AtKeys(s, s, t, Load(w, Link(e))); }
    case TryResolve(w, e) => TryResolveKeys(s, t, w, e);
    case PushResolved(w, e) => PushResolvedKeys(s, t, w, e);
  }

  lemma SameKeysRefl(s: State, t: nat)
    ensures SameKeys(s, s) && OthersStay(s, s, t)
  {
  }

  lemma SwingKeys(s: State, t: nat, w: Walk, loc: Loc, head: nat, cur: nat)
    ensures KeysStep(s, SwingStep(s, t, w, loc, head, cur), t)
  {
    hide KeysStep, SameKeys, OthersStay, At, Store, Value, FoundPc;
    var now := Value(s, loc);
    SameKeysRefl(s, t);
    PointsResolveNothing(s, w, cur);
    StoreKeys(s, t, loc, cur);
    AtKeys(s, Store(s, loc, cur), t, FoundPc(s, w, cur));
    AtKeys(s, s, t, FoundPc(s, w, cur));
    AtKeys(s, s, t, Skip(w, loc, now, now));
  }

  lemma TryResolveKeys(s: State, t: nat, w: Walk, e: nat)
    requires Keys(s) && PcOf(s, t) == TryResolve(w, e)
    ensures KeysStep(s, TryResolveStep(s, t, w, e), t)
  {
    hide ContinuePc;
    assert PcKeys(s, PcOf(s, t));
    PointsResolveNothing(s, w, e);
  }

  lemma PushResolvedKeys(s: State, t: nat, w: Walk, e: nat)
    ensures KeysStep(s, PushResolvedStep(s, t, w, e), t)
  {
    hide ContinuePc;
    PointsResolveNothing(s, w, e);
  }

  lemma OwnerKeys(s: State, t: nat)
    requires BaseInv(s) && Keys(s) && !PcOf(s, t).Idle? && !Walking(PcOf(s, t))
    ensures KeysStep(s, OwnerStep(s, t), t)
  {
    hide KeysStep, BaseInv, Keys, At, Store, Value, UpdateKey, KeyTraced, EpochStep, VisitOwnStep, PublishStep, RecheckStep, BatchStep,
      SameKeys, OthersStay;
    SameKeysRefl(s, t);
    match PcOf(s, t)
    case EpochCheck(e) => EpochKeys(s, t, e);
    case StoreTraced(e) => StateKeys(s, t, e, Idle, Traced);
    case VisitOwnKey(e) => VisitOwnKeys(s, t, e);
    case SetPending(e) => StateKeys(s, t, e, PushLoad(e), Pending);
    case PushLoad(e) => AtKeys(s, s, t, PushLink(e, Value(s, Bucket(BucketOf(s, e)))));
    case PushLink(e, tail) => LinkKeys(s, t, e, tail);
    case PushCas(e, tail) => PublishKeys(s, t, e, tail);
    case Recheck(e) => RecheckKeys(s, t, e);
    case TraceBatch(es) => BatchKeys(s, t, es);
  }

  lemma EpochKeys(s: State, t: nat, e: nat)
    ensures KeysStep(s, EpochStep(s, t, e), t)
  {
    hide KeysStep, SameKeys, OthersStay, At;
    SameKeysRefl(s, t);
    AtKeys(s, s, t, StoreTraced(e));
    AtKeys(s, s, t, VisitOwnKey(e));
    if e !in s.current {
      var pc := if e in s.dead then StoreTraced(e) else VisitOwnKey(e);
      CurrentKeys(s, At(s, t, pc), t, s.current + {e}, s.claims + multiset{e}, s.link[e := 0]);
    }
  }

  lemma CurrentKeys(s: State, s1: State, t: nat, current: set<nat>, claims: multiset<nat>, link: map<nat, nat>)
    requires KeysStep(s, s1, t)
    ensures KeysStep(s, s1.(current := current, claims := claims, link := link), t)
  {
  }

  lemma StateKeys(s: State, t: nat, e: nat, pc: Pc, st: EphState)
    requires !pc.TryResolve?
    ensures KeysStep(s, At(s, t, pc).(st := s.st[e := st]), t)
  {
    hide Fixed;
  }

  lemma VisitOwnKeys(s: State, t: nat, e: nat)
    requires Keys(s)
    ensures KeysStep(s, VisitOwnStep(s, t, e), t)
  {
    hide UpdateKey, KeyTraced, Keys;
    if KeyTraced(s, e) { UpdateFixes(s, e); }
  }

  lemma LinkKeys(s: State, t: nat, e: nat, tail: nat)
    ensures KeysStep(s, At(s, t, PushCas(e, tail)).(link := s.link[e := tail]), t)
  {
    hide Fixed;
  }

  lemma PublishKeys(s: State, t: nat, e: nat, tail: nat)
    ensures KeysStep(s, PublishStep(s, t, e, tail), t)
  {
    hide KeysStep, SameKeys, OthersStay, At, Store, Value, BucketOf;
    var loc := Bucket(BucketOf(s, e));
    SameKeysRefl(s, t);
    StoreKeys(s, t, loc, e);
    AtKeys(s, Store(s, loc, e), t, Recheck(e));
    AtKeys(s, s, t, PushLink(e, Value(s, loc)));
    RankKeys(s, At(Store(s, loc, e), t, Recheck(e)), t, s.rank[e := s.clock + 1], s.clock + 1);
  }

  lemma RankKeys(s: State, s1: State, t: nat, rank: map<nat, nat>, clock: nat)
    requires KeysStep(s, s1, t)
    ensures KeysStep(s, s1.(rank := rank, clock := clock), t)
  {
  }

  lemma RecheckKeys(s: State, t: nat, e: nat)
    requires Keys(s)
    ensures KeysStep(s, RecheckStep(s, t, e), t)
  {
    hide KeysStep, SameKeys, OthersStay, At, UpdateKey, KeyTraced, Keys;
    SameKeysRefl(s, t);
    if KeyTraced(s, e) { FixedKeys(s, t, Own, e); } else { AtKeys(s, s, t, Idle); }
  }

  lemma BatchKeys(s: State, t: nat, es: seq<nat>)
    requires BaseInv(s) && Keys(s) && PcOf(s, t) == TraceBatch(es)
    ensures KeysStep(s, BatchStep(s, t, es), t)
  {
    hide EphsInv, ChainsInv, BatchStep, KeysStep, Fixed;
    assert PcInv(s, t, PcOf(s, t));
    SameKeysRefl(s, t);
    if es == [] {
      AtKeys(s, s, t, Idle);
    } else {
      assert es[0] in es && KeyOk(s, es[0]);
      AtKeys(s, s, t, TraceBatch(es[1..]));
      DoneKeys(s, At(s, t, TraceBatch(es[1..])), t, es[0]);
    }
    BatchIsTraced(s, t, es);
  }

  lemma BatchIsTraced(s: State, t: nat, es: seq<nat>)
    ensures BatchStep(s, t, es) ==
      if es == [] then At(s, t, Idle) else WithDone(s, At(s, t, TraceBatch(es[1..])), es[0])
  {
    hide At;
  }

  function WithDone(s: State, s1: State, e: nat): State {
    s1.(st := s.st[e := Traced], done := s.done + {e}, visits := s.visits + multiset{e})
  }

  lemma DoneKeys(s: State, s1: State, t: nat, e: nat)
    requires KeysStep(s, s1, t) && Fixed(s, e) && s1.done == s.done && s1.keyMoved == s.keyMoved
    ensures KeysStep(s, WithDone(s, s1, e), t)
  {
  }

  lemma StepKeys(s: State, t: nat, c: Choice)
    requires BaseInv(s) && Keys(s)
    ensures Keys(Step(s, t, c))
  {
    hide BaseInv, Keys, WalkStep, OwnerStep, StartStep, KeysStep;
    if PcOf(s, t).Idle? {
      PhasesKeep(s);
      StartKeys(s, t, c);
    } else if Walking(PcOf(s, t)) {
      WalkKeys(s, t);
      KeysKept(s, WalkStep(s, t), t);
    } else {
      OwnerKeys(s, t);
      KeysKept(s, OwnerStep(s, t), t);
    }
  }

  lemma PhasesKeep(s: State)
    requires Keys(s)
    ensures Keys(s.(phase := Eager)) && Keys(At(s, 0, Load(Scan(0), Bucket(0))).(phase := Scanning))
  {
    var s1, s2 := s.(phase := Eager), At(s, 0, Load(Scan(0), Bucket(0))).(phase := Scanning);
    forall e ensures KeyOk(s1, e) && KeyOk(s2, e) { assert KeyOk(s, e); }
    forall u ensures PcKeys(s1, PcOf(s1, u)) && PcKeys(s2, PcOf(s2, u)) { assert PcKeys(s, PcOf(s, u)); }
  }

  lemma StartKeys(s: State, t: nat, c: Choice)
    requires Keys(s) && PcOf(s, t).Idle?
    ensures Keys(StartStep(s, t, c))
  {
    hide Fixed;
    var s' := StartStep(s, t, c);
    forall e ensures KeyOk(s', e) { assert KeyOk(s, e); StartFixes(s, t, c, e); }
    forall u ensures PcKeys(s', PcOf(s', u)) {
      assert PcKeys(s, PcOf(s, u));
      if PcOf(s, u).TryResolve? { StartFixes(s, t, c, PcOf(s, u).e); }
    }
  }

  /** An object is marked once, and moves, if it does, as it is marked. */
  lemma StartFixes(s: State, t: nat, c: Choice, e: nat)
    requires s.moved <= s.marked
    ensures var s' := StartStep(s, t, c); (Fixed(s, e) ==> Fixed(s', e)) && s'.key == s.key && s.moved <= s'.moved
  {
  }

  lemma {:induction false} RunKeys(run: seq<State>)
    requires P.IsRun(run)
    ensures Keys(run[|run| - 1])
  {
    hide Keys, Init, Step, BaseInv, CheckInv;
    if |run| == 1 {
      InitKeys(run[0]);
    } else {
      var front := run[..|run| - 1];
      assert P.IsRun(front) by {
        forall i | 0 <= i < |front| - 1 ensures P.Next(front[i], front[i + 1]) { assert P.Next(run[i], run[i + 1]); }
      }
      RunKeys(front);
      P.RunInv(front);
      assert P.Next(run[|run| - 2], run[|run| - 1]);
      var t, c :| run[|run| - 1] == Step(run[|run| - 2], t, c);
      StepKeys(run[|run| - 2], t, c);
    }
  }

  lemma InitKeys(s: State)
    requires Init(s)
    ensures Keys(s)
  {
  }

  // ---------- Main results ----------

  /** The key field of an ephemeron whose value has been visited, or will be because it is resolved, holds the
      key's new address if and only if the key was moved. */
  lemma KeyFieldFollows(run: seq<State>, s: State, e: nat)
    requires P.IsRun(run) && s == run[|run| - 1] && (s.visits[e] > 0 || StOf(s, e).Resolved?)
    ensures s.key(e) in s.marked && (e in s.keyMoved <==> s.key(e) in s.moved)
  {
    hide Init, CheckInv, ChainsInv, ThreadsInv;
    RunKeys(run);
    P.RunInv(run);
    assert KeyOk(s, e) && EphInv(s, e);
  }

  /** An ephemeron that was dead before the cycle is never pending, published or resolved, and its value is
      never visited. */
  lemma DeadStaysDead(run: seq<State>, s: State, e: nat)
    requires P.IsRun(run) && s == run[|run| - 1] && e in run[0].dead
    ensures s.visits[e] == 0 && s.entries[e] == 0 && e !in s.rank && !StOf(s, e).Pending? && !StOf(s, e).Resolved?
  {
    hide Init, CheckInv, ChainsInv, ThreadsInv;
    RunFate(run);
    P.RunInv(run);
    assert EphFate(s, e) && EphInv(s, e);
  }

  /** When a cycle has come to rest, the value of an ephemeron that was traced has been visited, once, if and
      only if the ephemeron was not dead and its key is marked. */
  lemma VisitedIff(run: seq<State>, s: State, e: nat)
    requires P.IsRun(run) && s == run[|run| - 1] && s.phase.Eager? && AllIdle(s) && s.stack == []
    requires e in s.current
    ensures s.visits[e] == if e !in run[0].dead && s.key(e) in s.marked then 1 else 0
    ensures s.visits[e] == 1 ==> StOf(s, e).Traced?
  {
    hide Init, CheckInv, ChainsInv, ThreadsInv;
    RunFate(run);
    P.RunInv(run);
    P.OnlyMarkedKeysResolve(run, s, e);
    assert EphFate(s, e) && EphInv(s, e) && HeldWhilePublishing(s, e);
    if s.key(e) in s.marked { P.NoneLeftBehind(run, s, e); }
  }
}
