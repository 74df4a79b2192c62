/**
  The Chase-Lev work-stealing deque of src/shared-worklist.h.

  One owner pushes and pops at the bottom; any number of thieves steal from the
  top.  Every atomic load, store and compare-and-swap of the C code is one step
  here, and steps of different threads interleave arbitrarily under sequential
  consistency.  Indices are unbounded integers.

  `Abs` reads a concrete state as an abstract sequence of references, and
  `StepRefines` shows that each concrete step is an abstract push at the back, an
  abstract pop at the back, an abstract steal at the front, or no change at all.
  Everything else follows from that.
*/
module WorkStealingDeque {

  type Ref = int
  datatype Option<T> = None | Some(value: T)

  const MaxBuffers: nat := 19  // log sizes 10 to 28

  /** Where the owner is inside shared_worklist_push or shared_worklist_try_pop. */
  datatype OwnerPc =
    | Idle
    | PushReadTop(x: Ref, b: int)
    | PushReadActive(x: Ref, b: int, t: int)
    | PushCopy(x: Ref, b: int, t: int, a: nat, i: int, to: seq<Ref>)
    | PushPut(x: Ref, b: int, a: nat)
    | PushStore(x: Ref, b: int)
    | PopReadActive(b: int)
    | PopStore(b: int, a: nat)
    | PopReadTop(b: int, a: nat)
    | PopGet(b: int, a: nat, t: int)
    | PopCas(b: int, t: int, x: Ref)
    | PopRestore(b: int, ret: Option<Ref>)
    | Crashed

  /** Where a thief is inside shared_worklist_steal. */
  datatype ThiefPc =
    | ThiefIdle
    | ReadBottom(t: int)
    | ReadActive(t: int)
    | ReadSlot(t: int, a: nat)
    | Cas(t: int, x: Ref)

  /** The shared words, the threads' local state, and a history: what has been pushed,
      what has been returned, and the item last pushed at each logical index. */
  datatype State = State(
    bottom: int,
    top: int,
    active: nat,
    bufs: seq<seq<Ref>>,
    owner: OwnerPc,
    thieves: map<nat, ThiefPc>,
    hist: seq<Ref>,
    pushed: multiset<Ref>,
    returned: multiset<Ref>)

  datatype Action =
    | StartPush(x: Ref)
    | StartPop
    | Owner
    | Thief(id: nat)

  function Pow2(n: nat): nat
    ensures Pow2(n) > 0
  {
    if n == 0 then 1 else 2 * Pow2(n - 1)
  }

  /** Slots of buffer `a`; a power of two, so `i & (size - 1)` is `i % size`. */
  function Size(a: nat): nat
    ensures Size(a) > 0
  {
    1024 * Pow2(a)
  }

  lemma SizeDoubles(a: nat)
    ensures Size(a + 1) == 2 * Size(a)
  {
  }

  function Get(buf: seq<Ref>, p: int): Ref
    requires |buf| > 0
  {
    buf[p % |buf|]
  }

  function Put(buf: seq<Ref>, p: int, x: Ref): seq<Ref>
    requires |buf| > 0
  {
    buf[p % |buf| := x]
  }

  function Init(): State {
    State(0, 0, 0, [seq(Size(0), _ => 0)], Idle, map[], [], multiset{}, multiset{})
  }

  // ---------- Steps ----------

  function OwnerStep(s: State): State
    requires Shape(s)
  {
    match s.owner
    case Idle => s
    case Crashed => s
    case PushReadTop(x, b) => s.(owner := PushReadActive(x, b, s.top))
    case PushReadActive(x, b, t) =>
      if b - t > Size(s.active) - 1 then
        if s.active + 1 == MaxBuffers then s.(owner := Crashed)
        else s.(owner := PushCopy(x, b, t, s.active, t, seq(Size(s.active + 1), _ => 0)))
      else s.(owner := PushPut(x, b, s.active))
    case PushCopy(x, b, t, a, i, to) =>
      if i < b then
        s.(owner := PushCopy(x, b, t, a, i + 1, Put(to, i, Get(s.bufs[a], i))))
      else
        s.(owner := PushPut(x, b, a + 1), active := a + 1, bufs := s.bufs[..a + 1] + [to])
    case PushPut(x, b, a) => s.(owner := PushStore(x, b), bufs := s.bufs[a := Put(s.bufs[a], b, x)])
    case PushStore(x, b) =>
      s.(owner := Idle, bottom := b + 1, hist := s.hist + [x], pushed := s.pushed + multiset{x})
    case PopReadActive(b) => s.(owner := PopStore(b, s.active))
    case PopStore(b, a) => s.(owner := PopReadTop(b, a), bottom := b - 1)
    case PopReadTop(b, a) =>
      if b - s.top > 1 then s.(owner := PopGet(b, a, s.top), hist := s.hist[..|s.hist| - 1])
      else if b - s.top == 1 then s.(owner := PopGet(b, a, s.top))
      else s.(owner := PopRestore(b, None))
    case PopGet(b, a, t) =>
      var x := Get(s.bufs[a], b - 1);
      if b - t == 1 then s.(owner := PopCas(b, t, x))
      else s.(owner := Idle, returned := s.returned + multiset{x})
    case PopCas(b, t, x) =>
      if s.top == t then s.(owner := PopRestore(b, Some(x)), top := t + 1)
      else s.(owner := PopRestore(b, None))
    case PopRestore(b, ret) =>
      s.(owner := Idle, bottom := b,
         returned := if ret.Some? then s.returned + multiset{ret.value} else s.returned)
  }

  function PcOf(s: State, id: nat): ThiefPc {
    if id in s.thieves then s.thieves[id] else ThiefIdle
  }

  function SetPc(s: State, id: nat, pc: ThiefPc): State {
    s.(thieves := s.thieves[id := pc])
  }

  function ThiefStep(s: State, id: nat): State
    requires Shape(s)
  {
    match PcOf(s, id)
    case ThiefIdle => SetPc(s, id, ReadBottom(s.top))
    case ReadBottom(t) => SetPc(s, id, if s.bottom - t <= 0 then ThiefIdle else ReadActive(t))
    case ReadActive(t) => SetPc(s, id, ReadSlot(t, s.active))
    case ReadSlot(t, a) => SetPc(s, id, Cas(t, if a < |s.bufs| then Get(s.bufs[a], t) else 0))
    case Cas(t, x) =>
      if s.top == t then SetPc(s, id, ThiefIdle).(top := t + 1, returned := s.returned + multiset{x})
      else SetPc(s, id, ReadBottom(s.top))  // lost the race: reload top and go round again
  }

  /** One step of one thread.  Starting an operation reads `bottom`. */
  function Step(s: State, act: Action): State
    requires Shape(s)
  {
    match act
    case StartPush(x) => if s.owner.Idle? then s.(owner := PushReadTop(x, s.bottom)) else s
    case StartPop => if s.owner.Idle? then s.(owner := PopReadActive(s.bottom)) else s
    case Owner => OwnerStep(s)
    case Thief(id) => ThiefStep(s, id)
  }

  // ---------- Invariant ----------

  /** What the step functions need in order to be defined. */
  ghost predicate Shape(s: State) {
    && |s.bufs| == s.active + 1 <= MaxBuffers
    && (forall a :: 0 <= a < |s.bufs| ==> |s.bufs[a]| == Size(a))
    && (match s.owner
        case PushCopy(_, b, t, a, i, to) =>
          a == s.active && a + 1 < MaxBuffers && |to| == Size(a + 1) && t <= i <= b
        case PushPut(_, _, a) => a == s.active
        case PopReadTop(b, _) => |s.hist| == b
        case PopGet(_, a, _) => a == s.active
        case _ => true)
    && (s.owner.PopReadTop? ==> 0 <= s.top)
  }

  /** Logical end of the stealable items: `bottom`, or one more while a pop is undecided. */
  ghost function Limit(s: State): int {
    |s.hist|
  }

  ghost predicate BufferHolds(s: State)
    requires Shape(s) && 0 <= s.top <= Limit(s)
  {
    forall p :: s.top <= p < Limit(s) ==> Get(s.bufs[s.active], p) == s.hist[p]
  }

  ghost predicate OwnerInv(s: State)
    requires Shape(s) && 0 <= s.top <= Limit(s)
  {
    var lim := Limit(s);
    match s.owner
    case Idle => s.bottom == lim
    case Crashed => s.bottom == lim
    case PushReadTop(_, b) => s.bottom == b == lim
    case PushReadActive(_, b, t) => s.bottom == b == lim && 0 <= t <= s.top && b - t <= Size(s.active)
    case PushCopy(_, b, t, a, i, to) =>
      && s.bottom == b == lim && 0 <= t <= s.top && b - t <= Size(a)
      && (forall p :: s.top <= p < i ==> Get(to, p) == s.hist[p])
    case PushPut(_, b, a) => s.bottom == b == lim && b - s.top <= Size(a) - 1
    case PushStore(x, b) =>
      s.bottom == b == lim && b - s.top <= Size(s.active) - 1 && Get(s.bufs[s.active], b) == x
    case PopReadActive(b) => s.bottom == b == lim
    case PopStore(b, a) => s.bottom == b == lim && a == s.active
    case PopReadTop(b, a) => s.bottom == b - 1 && b == lim && a == s.active
    case PopGet(b, a, t) =>
      && s.bottom == b - 1 && t <= s.top && a == s.active && 0 <= t
      && (b - t > 1 ==> lim == b - 1)
      && (b - t <= 1 ==> lim == b && t == b - 1)
    case PopCas(b, t, x) =>
      s.bottom == b - 1 && lim == b && t == b - 1 && 0 <= t <= s.top && (s.top == t ==> x == s.hist[t])
    case PopRestore(b, _) => s.bottom == b - 1 && lim == b == s.top
  }

  /** A thief past its read of `bottom` is either doomed to fail its compare-and-swap
      or is looking at the item on top, which cannot change under it. */
  ghost predicate ThiefInv(s: State, pc: ThiefPc)
    requires Shape(s) && 0 <= s.top <= Limit(s)
  {
    match pc
    case ThiefIdle => true
    case ReadBottom(t) => 0 <= t <= s.top
    case ReadActive(t) => 0 <= t <= s.top && (t == s.top ==> t < Limit(s))
    case ReadSlot(t, a) =>
      && 0 <= t <= s.top && a <= s.active
      && (t == s.top ==> t < Limit(s) && Get(s.bufs[a], t) == s.hist[t])
    case Cas(t, x) => 0 <= t <= s.top && (t == s.top ==> t < Limit(s) && x == s.hist[t])
  }

  ghost predicate ThievesInv(s: State)
    requires Shape(s) && 0 <= s.top <= Limit(s)
  {
    forall id :: id in s.thieves ==> ThiefInv(s, s.thieves[id])
  }

  /** The item the owner has already taken but not yet returned. */
  ghost function Claimed(s: State): multiset<Ref>
    requires Shape(s)
  {
    match s.owner
    case PopGet(b, a, t) => if b - t > 1 then multiset{Get(s.bufs[a], b - 1)} else multiset{}
    case PopRestore(_, Some(x)) => multiset{x}
    case _ => multiset{}
  }

  /** The abstract deque: front (steal end) first. */
  ghost function Abs(s: State): seq<Ref>
    requires 0 <= s.top <= Limit(s)
  {
    s.hist[s.top..]
  }

  ghost predicate Inv(s: State) {
    && Shape(s)
    && 0 <= s.top <= Limit(s)
    && Limit(s) - s.top <= Size(s.active)
    && BufferHolds(s)
    && OwnerInv(s)
    && ThievesInv(s)
    && s.pushed == s.returned + multiset(Abs(s)) + Claimed(s)
  }

  // ---------- Refinement ----------

  datatype Event = Tau | Pushed(x: Ref) | Popped(x: Ref) | Stolen(x: Ref)

  /** The sequential deque that the concurrent one implements. */
  ghost predicate AbstractStep(q: seq<Ref>, q': seq<Ref>, e: Event) {
    match e
    case Tau => q' == q
    case Pushed(x) => q' == q + [x]
    case Popped(x) => q == q' + [x]
    case Stolen(x) => q == [x] + q'
  }

  /** The linearization point: which abstract operation a concrete step performs. */
  ghost function EventOf(s: State, act: Action): Event
    requires Shape(s)
  {
    match act
    case StartPush(_) => Tau
    case StartPop => Tau
    case Owner => (
      match s.owner
      case PushStore(x, _) => Pushed(x)
      case PopReadTop(b, a) =>
        if b - s.top > 1 then Popped(s.hist[b - 1]) else Tau
      case PopCas(_, t, x) => if s.top == t then Popped(x) else Tau
      case _ => Tau)
    case Thief(id) => (
      match PcOf(s, id)
      case Cas(t, x) => if s.top == t then Stolen(x) else Tau
      case _ => Tau)
  }

  lemma ModDistinct(n: nat, p: int, q: int)
    requires n > 0
    requires p < q < p + n
    ensures p % n != q % n
  {
    if p % n == q % n {
      assert q - p == n * (q / n - p / n);
      MultipleOutOfRange(n, q / n - p / n);
    }
  }

  lemma MultipleOutOfRange(n: nat, d: int)
    requires n > 0
    ensures n * d <= 0 || n * d >= n
  {
    if d <= 0 {
      assert n * d <= 0;
    } else {
      assert n * d == n + n * (d - 1);
      assert n * (d - 1) >= 0;
    }
  }

  /** Writing slot `b` leaves every index within one buffer length below it readable. */
  lemma PutElsewhere(buf: seq<Ref>, b: int, p: int, x: Ref)
    requires |buf| > 0
    requires b - |buf| < p < b
    ensures Get(Put(buf, b, x), p) == Get(buf, p)
  {
    ModDistinct(|buf|, p, b);
  }

  lemma InitInv()
    ensures Inv(Init())
  {
    assert multiset(Abs(Init())) == multiset{};
  }

  lemma StartInv(s: State, act: Action)
    requires Inv(s) && (act.StartPush? || act.StartPop?)
    ensures Inv(Step(s, act)) && AbstractStep(Abs(s), Abs(Step(s, act)), EventOf(s, act))
  {
    var s' := Step(s, act);
    assert Shape(s') && BufferHolds(s') && OwnerInv(s') && Claimed(s') == Claimed(s);
    ThievesStable(s, s');
  }

  /** A step that keeps the top item readable keeps every thief's view of it; a step that
      advances `top` dooms every thief still looking at the old one. */
  lemma ThievesStable(s: State, s': State)
    requires Inv(s) && Shape(s') && s.top <= s'.top <= Limit(s')
    requires s'.thieves == s.thieves && s.active <= s'.active
    requires s'.top == s.top < Limit(s) ==> s.top < Limit(s') && s'.hist[s.top] == s.hist[s.top]
    requires s'.top == s.top < Limit(s) ==>
      forall a :: 0 <= a <= s.active ==> Get(s'.bufs[a], s.top) == Get(s.bufs[a], s.top)
    ensures ThievesInv(s')
  {
    forall id | id in s'.thieves
      ensures ThiefInv(s', s'.thieves[id])
    {
      assert ThiefInv(s, s.thieves[id]);
    }
  }

  lemma ThiefLocalStep(s: State, id: nat)
    requires Inv(s)
    requires !PcOf(s, id).Cas? || s.top != PcOf(s, id).t
    ensures Step(s, Thief(id)) == s.(thieves := Step(s, Thief(id)).thieves)
    ensures Step(s, Thief(id)).thieves == s.thieves[id := PcOf(Step(s, Thief(id)), id)]
    ensures ThiefInv(s, PcOf(Step(s, Thief(id)), id))
  {
    assert ThiefInv(s, PcOf(s, id));
  }

  lemma OnlyThievesMoved(s: State, thieves: map<nat, ThiefPc>)
    requires Inv(s)
    requires forall k :: k in thieves ==> ThiefInv(s, thieves[k])
    ensures Inv(s.(thieves := thieves)) && Abs(s.(thieves := thieves)) == Abs(s)
  {
    var s' := s.(thieves := thieves);
    assert Shape(s') && BufferHolds(s') && OwnerInv(s') && Claimed(s') == Claimed(s);
    forall k | k in thieves
      ensures ThiefInv(s', thieves[k])
    {
      assert ThiefInv(s, thieves[k]);
    }
  }

  lemma ThiefReadInv(s: State, id: nat)
    requires Inv(s)
    requires !PcOf(s, id).Cas? || s.top != PcOf(s, id).t
    ensures Inv(Step(s, Thief(id))) && Abs(Step(s, Thief(id))) == Abs(s)
  {
    ThiefLocalStep(s, id);
    OnlyThievesMoved(s, Step(s, Thief(id)).thieves);
  }

  lemma StealKeepsOwner(s: State, s': State)
    requires Shape(s) && 0 <= s.top < Limit(s) && OwnerInv(s)
    requires s' == s.(top := s.top + 1, returned := s'.returned)
    ensures Shape(s') && OwnerInv(s') && Claimed(s') == Claimed(s)
  {
  }

  /** The item on top leaves the deque and is returned. */
  lemma StealTopInv(s: State, s': State)
    requires Inv(s) && s.top < Limit(s)
    requires s' == s.(top := s.top + 1, returned := s.returned + multiset{s.hist[s.top]})
    ensures Inv(s') && Abs(s) == [s.hist[s.top]] + Abs(s')
  {
    hide OwnerInv, Claimed;
    StealKeepsOwner(s, s');
    assert Abs(s) == [s.hist[s.top]] + Abs(s');
    assert multiset(Abs(s)) == multiset{s.hist[s.top]} + multiset(Abs(s'));
    ThievesStable(s, s');
  }

  lemma ThiefStealInv(s: State, id: nat)
    requires Inv(s)
    requires PcOf(s, id).Cas? && s.top == PcOf(s, id).t
    ensures Inv(Step(s, Thief(id)))
    ensures Abs(s) == [PcOf(s, id).x] + Abs(Step(s, Thief(id)))
  {
    hide OwnerInv, BufferHolds, Abs, Claimed, Shape, OwnerStep;
    var s' := Step(s, Thief(id));
    assert ThiefInv(s, PcOf(s, id));
    var mid := s.(top := s.top + 1, returned := s.returned + multiset{PcOf(s, id).x});
    StealTopInv(s, mid);
    OnlyThievesMoved(mid, s'.thieves);
  }

  lemma ThiefStepInv(s: State, id: nat)
    requires Inv(s)
    ensures Inv(Step(s, Thief(id))) && AbstractStep(Abs(s), Abs(Step(s, Thief(id))), EventOf(s, Thief(id)))
  {
    if PcOf(s, id).Cas? && s.top == PcOf(s, id).t {
      ThiefStealInv(s, id);
    } else {
      ThiefReadInv(s, id);
    }
  }

  lemma PushCopySlotInv(s: State)
    requires Inv(s) && s.owner.PushCopy? && s.owner.i < s.owner.b
    ensures Inv(Step(s, Owner)) && Abs(Step(s, Owner)) == Abs(s)
  {
    var s' := Step(s, Owner);
    var PushCopy(x, b, t, a, i, to) := s.owner;
    SizeDoubles(a);
    forall p | s.top <= p < i + 1
      ensures Get(s'.owner.to, p) == s.hist[p]
    {
      if p < i { PutElsewhere(to, i, p, Get(s.bufs[a], i)); }
    }
    assert Shape(s') && BufferHolds(s') && OwnerInv(s') && Claimed(s') == Claimed(s);
    ThievesStable(s, s');
  }

  lemma PushPublishInv(s: State)
    requires Inv(s) && s.owner.PushCopy? && s.owner.i == s.owner.b
    ensures Inv(Step(s, Owner)) && Abs(Step(s, Owner)) == Abs(s)
  {
    var s' := Step(s, Owner);
    SizeDoubles(s.owner.a);
    assert s'.bufs[s'.active] == s.owner.to;
    assert forall k :: 0 <= k <= s.active ==> s'.bufs[k] == s.bufs[k];
    assert Shape(s') && BufferHolds(s') && OwnerInv(s') && Claimed(s') == Claimed(s);
    ThievesStable(s, s');
  }

  lemma PushCopyInv(s: State)
    requires Inv(s) && s.owner.PushCopy?
    ensures Inv(Step(s, Owner)) && Abs(Step(s, Owner)) == Abs(s)
  {
    if s.owner.i < s.owner.b { PushCopySlotInv(s); } else { PushPublishInv(s); }
  }

  lemma PushPutInv(s: State)
    requires Inv(s) && s.owner.PushPut?
    ensures Inv(Step(s, Owner)) && Abs(Step(s, Owner)) == Abs(s)
  {
    var s' := Step(s, Owner);
    var PushPut(x, b, a) := s.owner;
    forall p | s.top <= p < b
      ensures Get(s'.bufs[a], p) == Get(s.bufs[a], p)
    {
      PutElsewhere(s.bufs[a], b, p, x);
    }
    ThievesStable(s, s');
  }

  lemma PushStoreInv(s: State)
    requires Inv(s) && s.owner.PushStore?
    ensures Inv(Step(s, Owner)) && Abs(Step(s, Owner)) == Abs(s) + [s.owner.x]
  {
    var s' := Step(s, Owner);
    assert Abs(s') == Abs(s) + [s.owner.x];
    ThievesStable(s, s');
  }

  lemma PopLastInv(s: State)
    requires Inv(s) && s.owner.PopReadTop? && s.owner.b - s.top > 1
    ensures Inv(Step(s, Owner))
    ensures Abs(s) == Abs(Step(s, Owner)) + [s.hist[s.owner.b - 1]]
  {
    var s' := Step(s, Owner);
    var b := s.owner.b;
    assert Abs(s) == Abs(s') + [s.hist[b - 1]];
    assert multiset(Abs(s)) == multiset(Abs(s')) + multiset{s.hist[b - 1]};
    assert Get(s.bufs[s.active], b - 1) == s.hist[b - 1];
    assert Shape(s') && BufferHolds(s') && OwnerInv(s');
    ThievesStable(s, s');
  }

  lemma PopRaceInv(s: State)
    requires Inv(s) && s.owner.PopReadTop? && s.owner.b - s.top <= 1
    ensures Inv(Step(s, Owner)) && Abs(Step(s, Owner)) == Abs(s)
  {
    var s' := Step(s, Owner);
    assert Shape(s') && BufferHolds(s') && OwnerInv(s') && Claimed(s') == Claimed(s);
    ThievesStable(s, s');
  }

  /** The owner comes by the item it has read: at once, or, if it was the last one, to race for it. */
  lemma PopGetOwner(s: State)
    requires Inv(s) && s.owner.PopGet?
    ensures var s' := Step(s, Owner);
      && s' == s.(owner := s'.owner, returned := s'.returned) && Shape(s') && OwnerInv(s')
      && s.returned + Claimed(s) == s'.returned + Claimed(s')
  {
    hide ThievesInv;
  }

  lemma Regroup(r: multiset<Ref>, q: multiset<Ref>, c: multiset<Ref>, r': multiset<Ref>, c': multiset<Ref>)
    requires r + c == r' + c'
    ensures r + q + c == r' + q + c'
  {
    assert r + q + c == (r + c) + q && r' + q + c' == (r' + c') + q;
  }

  lemma PopGetInv(s: State)
    requires Inv(s) && s.owner.PopGet?
    ensures Inv(Step(s, Owner)) && Abs(Step(s, Owner)) == Abs(s)
  {
    hide OwnerInv, Claimed, Step, Shape;
    var s' := Step(s, Owner);
    PopGetOwner(s);
    assert Abs(s') == Abs(s) && BufferHolds(s');
    Regroup(s.returned, multiset(Abs(s)), Claimed(s), s'.returned, Claimed(s'));
    ThievesStable(s, s');
  }

  lemma PopStoreInv(s: State)
    requires Inv(s) && s.owner.PopStore?
    ensures Inv(Step(s, Owner)) && Abs(Step(s, Owner)) == Abs(s)
  {
    var s' := Step(s, Owner);
    assert Shape(s') && BufferHolds(s') && OwnerInv(s') && Claimed(s') == Claimed(s);
    ThievesStable(s, s');
  }

  lemma PopRestoreInv(s: State)
    requires Inv(s) && s.owner.PopRestore?
    ensures Inv(Step(s, Owner)) && Abs(Step(s, Owner)) == Abs(s)
  {
    var s' := Step(s, Owner);
    assert Shape(s') && BufferHolds(s') && OwnerInv(s');
    assert s'.returned + Claimed(s') == s.returned + Claimed(s);
    Regroup(s.returned, multiset(Abs(s)), Claimed(s), s'.returned, Claimed(s'));
    ThievesStable(s, s');
  }

  lemma PopCasInv(s: State)
    requires Inv(s) && s.owner.PopCas?
    ensures Inv(Step(s, Owner)) && AbstractStep(Abs(s), Abs(Step(s, Owner)), EventOf(s, Owner))
  {
    var s' := Step(s, Owner);
    if s.top == s.owner.t {
      assert Abs(s) == Abs(s') + [s.owner.x];
      assert multiset(Abs(s)) == multiset(Abs(s')) + multiset{s.owner.x};
    }
    ThievesStable(s, s');
  }

  lemma OwnerReadInv(s: State)
    requires Inv(s) && (s.owner.PushReadTop? || s.owner.PopReadActive? || s.owner.Idle? || s.owner.Crashed?)
    ensures Inv(Step(s, Owner)) && Abs(Step(s, Owner)) == Abs(s)
  {
    var s' := Step(s, Owner);
    assert Shape(s') && BufferHolds(s') && OwnerInv(s') && Claimed(s') == Claimed(s);
    ThievesStable(s, s');
  }

  lemma PushReadActiveInv(s: State)
    requires Inv(s) && s.owner.PushReadActive?
    ensures Inv(Step(s, Owner)) && Abs(Step(s, Owner)) == Abs(s)
  {
    var s' := Step(s, Owner);
    assert Shape(s') && BufferHolds(s') && OwnerInv(s') && Claimed(s') == Claimed(s);
    ThievesStable(s, s');
  }

  lemma OwnerStepInv(s: State)
    requires Inv(s)
    ensures Inv(Step(s, Owner)) && AbstractStep(Abs(s), Abs(Step(s, Owner)), EventOf(s, Owner))
  {
    hide Inv, Shape, Abs, Step;
    match s.owner
    case PushCopy(_, _, _, _, _, _) => PushCopyInv(s);
    case PushPut(_, _, _) => PushPutInv(s);
    case PushStore(_, _) => PushStoreInv(s);
    case PopReadTop(b, _) => if b - s.top > 1 { PopLastInv(s); } else { PopRaceInv(s); }
    case PopGet(_, _, _) => PopGetInv(s);
    case PopStore(_, _) => PopStoreInv(s);
    case PopRestore(_, _) => PopRestoreInv(s);
    case PopCas(_, _, _) => PopCasInv(s);
    case PushReadActive(_, _, _) => PushReadActiveInv(s);
    case _ => OwnerReadInv(s);
  }

  /** Every step of every thread keeps the invariant and refines one abstract operation. */
  lemma StepRefines(s: State, act: Action)
    requires Inv(s)
    ensures Inv(Step(s, act))
    ensures AbstractStep(Abs(s), Abs(Step(s, act)), EventOf(s, act))
  {
    match act
    case Owner => OwnerStepInv(s);
    case Thief(id) => ThiefStepInv(s, id);
    case _ => StartInv(s, act);
  }

  // ---------- Whole runs ----------

  /** Some thread takes one step. */
  ghost predicate Next(s: State, s': State) {
    Shape(s) && exists act :: s' == Step(s, act)
  }

  /** A schedule of pushes, pops and steals, as the sequence of states it goes through. */
  ghost predicate IsRun(run: seq<State>) {
    && |run| > 0
    && run[0] == Init()
    && forall i :: 0 < i < |run| ==> Next(run[i - 1], run[i])
  }

  lemma {:induction false} RunInv(run: seq<State>)
    requires IsRun(run)
    ensures Inv(run[|run| - 1])
  {
    hide Inv, Init, Shape, Step;
    var n := |run|;
    if n == 1 {
      InitInv();
    } else {
      RunInv(run[..n - 1]);
      assert Next(run[n - 2], run[n - 1]);
      var act :| run[n - 1] == Step(run[n - 2], act);
      StepRefines(run[n - 2], act);
    }
  }

  /** The references that the buffers hold between `top` and `bottom`. */
  ghost function Stored(s: State): seq<Ref>
    requires Shape(s) && s.top <= s.bottom
  {
    seq(s.bottom - s.top, i requires 0 <= i < s.bottom - s.top => Get(s.bufs[s.active], s.top + i))
  }

  /** In every schedule: what came out went in, each push coming out at most once; and
      when the owner is between operations nothing is lost, pushed = returned + stored. */
  lemma NothingLostOrDuplicated(run: seq<State>, s: State)
    requires IsRun(run) && s == run[|run| - 1]
    ensures s.returned <= s.pushed
    ensures s.owner.Idle? ==>
      Shape(s) && s.top <= s.bottom && s.pushed == s.returned + multiset(Stored(s))
  {
    RunInv(run);
    if s.owner.Idle? {
      IdleStored(s);
    }
  }

  lemma IdleStored(s: State)
    requires Inv(s) && s.owner.Idle?
    ensures s.top <= s.bottom && Stored(s) == Abs(s) && Claimed(s) == multiset{}
  {
  }

  /** shared_worklist_try_pop gives null only when it leaves the deque empty. */
  lemma NullPopMeansEmpty(run: seq<State>, s: State)
    requires IsRun(run) && s == run[|run| - 1] && s.owner.PopRestore? && s.owner.ret.None?
    ensures 0 <= s.top <= Limit(s) && Abs(s) == []
    ensures Shape(s) && Step(s, Owner).bottom == Step(s, Owner).top
  {
    RunInv(run);
  }

  /** A thief that gives up saw an empty deque, or just the one item the owner was popping. */
  lemma NullStealMeansContended(run: seq<State>, s: State, id: nat)
    requires IsRun(run) && s == run[|run| - 1] && PcOf(s, id).ReadBottom? && s.bottom - PcOf(s, id).t <= 0
    ensures 0 <= s.top <= Limit(s)
    ensures |Abs(s)| <= if s.owner.PopReadTop? || s.owner.PopGet? || s.owner.PopCas? then 1 else 0
  {
    RunInv(run);
    assert ThiefInv(s, PcOf(s, id));
  }

  // ---------- Each operation takes effect once, and ends ----------

  /** A schedule with the action taken at each state. */
  ghost predicate Schedule(run: seq<State>, acts: seq<Action>) {
    && |run| == |acts| + 1 && run[0] == Init()
    && forall k :: 0 <= k < |acts| ==> Shape(run[k]) && run[k + 1] == Step(run[k], acts[k])
  }

  /** The abstract operations that the steps of `who` from state `i` to state `j` perform. */
  ghost function Events(run: seq<State>, acts: seq<Action>, i: nat, j: nat, who: Action): seq<Event>
    requires Schedule(run, acts) && i <= j <= |acts|
    decreases j
  {
    if i == j then []
    else Events(run, acts, i, j - 1, who) + EventsAt(run[j - 1], acts[j - 1], who)
  }

  ghost function EventsAt(s: State, act: Action, who: Action): seq<Event>
    requires Shape(s)
  {
    if act == who && EventOf(s, act) != Tau then [EventOf(s, act)] else []
  }

  lemma {:induction false} ScheduleInv(run: seq<State>, acts: seq<Action>, k: nat)
    requires Schedule(run, acts) && k < |run|
    ensures Inv(run[k])
  {
    hide Inv, Init, Shape, Step;
    if k == 0 {
      InitInv();
    } else {
      ScheduleInv(run, acts, k - 1);
      assert run[k - 1 + 1] == Step(run[k - 1], acts[k - 1]);
      StepRefines(run[k - 1], acts[k - 1]);
    }
  }

  lemma ScheduleAt(run: seq<State>, acts: seq<Action>, k: nat)
    requires Schedule(run, acts) && k < |acts|
    ensures |run| == |acts| + 1
    ensures Inv(run[k]) && Shape(run[k]) && Inv(run[k + 1]) && Shape(run[k + 1]) && run[k + 1] == Step(run[k], acts[k])
  {
    hide Inv, Init, Shape, Step;
    ScheduleInv(run, acts, k);
    ScheduleInv(run, acts, k + 1);
    InvShape(run[k]);
    InvShape(run[k + 1]);
  }

  lemma StartIsTau(s: State, act: Action, who: Action)
    requires Shape(s) && (act.StartPush? || act.StartPop?)
    ensures EventsAt(s, act, who) == []
  {
  }

  ghost predicate Pushing(o: OwnerPc, x: Ref) {
    (o.PushReadTop? || o.PushReadActive? || o.PushCopy? || o.PushPut? || o.PushStore?) && o.x == x
  }

  ghost predicate Popping(o: OwnerPc) {
    o.PopReadActive? || o.PopStore? || o.PopReadTop? || o.PopGet? || o.PopCas? || o.PopRestore?
  }

  /** What the pop under way has already taken from the abstract deque. */
  ghost function Taken(s: State): Option<Ref>
    requires Shape(s)
  {
    match s.owner
    case PopGet(b, a, t) => if b - t > 1 then Some(Get(s.bufs[a], b - 1)) else None
    case PopRestore(_, ret) => ret
    case _ => None
  }

  ghost function AsSet(r: Option<Ref>): multiset<Ref> {
    if r.Some? then multiset{r.value} else multiset{}
  }

  ghost function AsPop(r: Option<Ref>): seq<Event> {
    if r.Some? then [Popped(r.value)] else []
  }

  ghost function AsSteal(r: Option<Ref>): seq<Event> {
    if r.Some? then [Stolen(r.value)] else []
  }

  /** The steps of thieves, and starts while an operation is under way, do nothing to the owner. */
  lemma OthersSpareOwner(s: State, act: Action)
    requires Inv(s) && !s.owner.Idle? && !act.Owner?
    ensures var s' := Step(s, act); Shape(s') && s'.owner == s.owner && s.top <= s'.top && Taken(s') == Taken(s)
  {
    hide Inv, Shape, Step;
    StepRefines(s, act);
    InvShape(s);
    InvShape(Step(s, act));
    OwnerSame(s, act);
  }

  lemma OwnerSame(s: State, act: Action)
    requires Shape(s) && !s.owner.Idle? && !act.Owner?
    ensures var s' := Step(s, act); s'.owner == s.owner && s'.bufs == s.bufs && s.top <= s'.top
  {
    hide Shape, Get;
  }

  lemma PushStep(s: State, x: Ref)
    requires Shape(s) && Pushing(s.owner, x)
    ensures var s' := Step(s, Owner);
      || (Pushing(s'.owner, x) && EventOf(s, Owner) == Tau)
      || (s'.owner.Crashed? && EventOf(s, Owner) == Tau)
      || (s'.owner.Idle? && EventOf(s, Owner) == Pushed(x))
  {
    hide Shape, Get, Put, Size;
  }

  lemma PopStep(s: State)
    requires Inv(s) && Popping(s.owner) && Shape(Step(s, Owner))
    ensures var s', e := Step(s, Owner), EventOf(s, Owner);
      || (Popping(s'.owner) && e == Tau && Taken(s') == Taken(s))
      || (Popping(s'.owner) && Taken(s).None? && Taken(s').Some? && e == Popped(Taken(s').value))
      || (s'.owner.Idle? && e == Tau && s'.returned == s.returned + AsSet(Taken(s)))
  {
    hide ThievesInv, BufferHolds, Shape, Get, Put, Step, Size, EventOf, Taken;
    InvShape(s);
    if s.owner.PopReadTop? { ReadTopTakes(s); } else { OneLeft(s); PopEnds(s); }
  }

  lemma ReadTopTakes(s: State)
    requires Inv(s) && s.owner.PopReadTop? && Shape(Step(s, Owner))
    ensures var s', e := Step(s, Owner), EventOf(s, Owner);
      && Popping(s'.owner) && Taken(s).None?
      && if Taken(s').Some? then e == Popped(Taken(s').value) else e == Tau
  {
    hide ThievesInv, Get, Put, Size;
    if s.owner.b - s.top > 1 {
      assert Get(s.bufs[s.active], s.owner.b - 1) == s.hist[s.owner.b - 1];
    }
  }

  lemma OneLeft(s: State)
    requires Inv(s)
    ensures s.owner.PopGet? ==> s.owner.b - s.owner.t >= 1
  {
  }

  lemma PopEnds(s: State)
    requires Shape(s) && Popping(s.owner) && !s.owner.PopReadTop? && Shape(Step(s, Owner))
    requires s.owner.PopGet? ==> s.owner.b - s.owner.t >= 1
    ensures var s', e := Step(s, Owner), EventOf(s, Owner);
      || (Popping(s'.owner) && e == Tau && Taken(s') == Taken(s))
      || (Popping(s'.owner) && Taken(s).None? && Taken(s').Some? && e == Popped(Taken(s').value))
      || (s'.owner.Idle? && e == Tau && s'.returned == s.returned + AsSet(Taken(s)))
  {
    hide Shape, Get, Put, Size;
    assert s.returned + multiset{} == s.returned;
  }

  /** The owner starts an operation in state `i` and up to state `j` has not ended it before. */
  ghost predicate Operation(run: seq<State>, acts: seq<Action>, i: nat, j: nat) {
    && Schedule(run, acts) && i < j <= |acts| && run[i].owner.Idle?
    && (forall k :: i < k < j ==> !run[k].owner.Idle?)
  }

  /** A push takes effect exactly once, with its own item, before it ends; one that crashes does not. */
  lemma {:induction false} PushTakesEffectOnce(run: seq<State>, acts: seq<Action>, i: nat, j: nat, x: Ref)
    requires Operation(run, acts, i, j) && acts[i] == StartPush(x)
    ensures Events(run, acts, i, j, Owner) == if run[j].owner.Idle? then [Pushed(x)] else []
    ensures run[j].owner.Idle? || run[j].owner.Crashed? || Pushing(run[j].owner, x)
    decreases j
  {
    hide Inv, Init, Shape, Step, EventOf, EventsAt, Pushing, Schedule;
    ScheduleAt(run, acts, j - 1);
    if j == i + 1 {
      StartIsTau(run[i], acts[i], Owner);
      PushBegins(run[i], x);
      assert Events(run, acts, i, i, Owner) == [];
    } else {
      PushTakesEffectOnce(run, acts, i, j - 1, x);
      PushGoesOn(run[j - 1], acts[j - 1], x);
    }
  }

  lemma PushBegins(s: State, x: Ref)
    requires Inv(s) && s.owner.Idle?
    ensures Pushing(Step(s, StartPush(x)).owner, x)
  {
  }

  lemma PushGoesOn(s: State, act: Action, x: Ref)
    requires Inv(s) && (Pushing(s.owner, x) || s.owner.Crashed?)
    ensures var o' := Step(s, act).owner;
      && (o'.Idle? || o'.Crashed? || Pushing(o', x))
      && EventsAt(s, act, Owner) == if o'.Idle? then [Pushed(x)] else []
  {
    hide Inv, Step, EventOf, Shape, Taken;
    InvShape(s);
    assert !s.owner.Idle?;
    if !act.Owner? {
      OthersSpareOwner(s, act);
    } else if s.owner.Crashed? {
      CrashedStays(s);
    } else {
      PushStep(s, x);
    }
  }

  lemma CrashedStays(s: State)
    requires Shape(s) && s.owner.Crashed?
    ensures Step(s, Owner) == s && EventOf(s, Owner) == Tau
  {
  }

  /** A pop takes one item, the one it returns, or none, and then it returns null. */
  lemma {:induction false} PopTakesEffectOnce(run: seq<State>, acts: seq<Action>, i: nat, j: nat) returns (r: Option<Ref>)
    requires Operation(run, acts, i, j) && acts[i] == StartPop
    ensures Events(run, acts, i, j, Owner) == AsPop(r)
    ensures run[j].owner.Idle? ==> run[j].returned == run[j - 1].returned + AsSet(r)
    ensures !run[j].owner.Idle? ==> Popping(run[j].owner) && Shape(run[j]) && Taken(run[j]) == r
    decreases j
  {
    hide Inv, Init, Shape, Step, EventOf, EventsAt, Taken, Popping, Schedule;
    ScheduleAt(run, acts, j - 1);
    if j == i + 1 {
      StartIsTau(run[i], acts[i], Owner);
      PopBegins(run[i]);
      assert Events(run, acts, i, i, Owner) == [];
      r := None;
    } else {
      var r0 := PopTakesEffectOnce(run, acts, i, j - 1);
      r := PopGoesOn(run[j - 1], acts[j - 1], r0);
    }
  }

  lemma InvShape(s: State)
    requires Inv(s)
    ensures Shape(s)
  {
  }

  lemma PopBegins(s: State)
    requires Inv(s) && s.owner.Idle? && Shape(Step(s, StartPop))
    ensures var s' := Step(s, StartPop); Popping(s'.owner) && Taken(s').None?
  {
  }

  lemma PopGoesOn(s: State, act: Action, r0: Option<Ref>) returns (r: Option<Ref>)
    requires Inv(s) && Popping(s.owner) && Shape(Step(s, act)) && Taken(s) == r0
    ensures var s' := Step(s, act);
      && AsPop(r) == AsPop(r0) + EventsAt(s, act, Owner)
      && (s'.owner.Idle? ==> s'.returned == s.returned + AsSet(r))
      && (!s'.owner.Idle? ==> Popping(s'.owner) && Taken(s') == r)
  {
    hide Inv, Step, EventOf, Taken, Shape;
    InvShape(s);
    if act.Owner? { PopStep(s); } else { OthersSpareOwner(s, act); }
    r := if Step(s, act).owner.Idle? then r0 else Taken(Step(s, act));
  }

  /** Thief `id` starts a steal in state `i` and up to state `j` has not ended it before. */
  ghost predicate Stealing(run: seq<State>, acts: seq<Action>, i: nat, j: nat, id: nat) {
    && Schedule(run, acts) && i < j <= |acts| && PcOf(run[i], id).ThiefIdle? && acts[i] == Thief(id)
    && (forall k :: i < k < j ==> !PcOf(run[k], id).ThiefIdle?)
  }

  /** A steal takes one item, the one it returns, or none, and then it returns null. */
  lemma {:induction false} StealTakesEffectOnce(run: seq<State>, acts: seq<Action>, i: nat, j: nat, id: nat)
    returns (r: Option<Ref>)
    requires Stealing(run, acts, i, j, id)
    ensures Events(run, acts, i, j, Thief(id)) == AsSteal(r)
    ensures !PcOf(run[j], id).ThiefIdle? ==> r.None?
    ensures r.Some? ==> run[j].returned == run[j - 1].returned + AsSet(r)
    decreases j
  {
    hide Inv, Init, Shape, Step, EventOf, EventsAt;
    ScheduleAt(run, acts, j - 1);
    if j == i + 1 {
      assert Events(run, acts, i, i, Thief(id)) == [];
    } else {
      var r0 := StealTakesEffectOnce(run, acts, i, j - 1, id);
    }
    r := StealGoesOn(run[j - 1], acts[j - 1], id);
  }

  lemma StealGoesOn(s: State, act: Action, id: nat) returns (r: Option<Ref>)
    requires Shape(s)
    ensures var s' := Step(s, act);
      && AsSteal(r) == EventsAt(s, act, Thief(id))
      && (r.Some? ==> PcOf(s', id).ThiefIdle? && s'.returned == s.returned + AsSet(r))
  {
    r := match EventOf(s, act) case Stolen(x) => (if act == Thief(id) then Some(x) else None) case _ => None;
  }

  /** How many more steps the owner's operation takes at most. */
  ghost function OwnerRest(s: State): int {
    match s.owner
    case Idle => 0
    case Crashed => 0
    case PushReadTop(_, b) => 5 + b - s.top
    case PushReadActive(_, b, t) => 4 + b - t
    case PushCopy(_, b, _, _, i, _) => 3 + b - i
    case PushPut(_, _, _) => 2
    case PushStore(_, _) => 1
    case PopReadActive(_) => 6
    case PopStore(_, _) => 5
    case PopReadTop(_, _) => 4
    case PopGet(_, _, _) => 3
    case PopCas(_, _, _) => 2
    case PopRestore(_, _) => 1
  }

  /** Pushes and pops are wait-free: whatever the thieves do, the owner's own steps bring an operation to its
      end, a push after at most as many as the deque has items and five, a pop after six. */
  lemma OwnerIsWaitFree(s: State, act: Action)
    requires Inv(s) && !s.owner.Idle? && !s.owner.Crashed?
    ensures 0 < OwnerRest(s) <= 6 + Size(s.active)
    ensures OwnerRest(Step(s, act)) <= OwnerRest(s)
    ensures act.Owner? ==> OwnerRest(Step(s, act)) < OwnerRest(s)
  {
    hide Inv, Shape, Step;
    InvShape(s);
    RestBounded(s);
    if act.Owner? { OwnRest(s); } else { OthersSpareOwner(s, act); }
  }

  lemma RestBounded(s: State)
    requires Inv(s) && !s.owner.Idle? && !s.owner.Crashed?
    ensures 0 < OwnerRest(s) <= 6 + Size(s.active)
  {
    hide BufferHolds, ThievesInv, Get, Put, Size;
  }

  lemma OwnRest(s: State)
    requires Inv(s) && !s.owner.Idle? && !s.owner.Crashed?
    ensures OwnerRest(Step(s, Owner)) < OwnerRest(s)
  {
    hide Shape, BufferHolds, ThievesInv, Get, Put, Size;
    InvShape(s);
  }

  ghost function StealRest(pc: ThiefPc): nat {
    match pc
    case ThiefIdle => 0
    case ReadBottom(_) => 4
    case ReadActive(_) => 3
    case ReadSlot(_, _) => 2
    case Cas(_, _) => 1
  }

  /** Steals are lock-free: a steal comes nearer to its end with each of its steps, or another thread has
      taken an item since it read `top`. */
  lemma StealIsLockFree(s: State, id: nat)
    requires Inv(s) && !PcOf(s, id).ThiefIdle?
    ensures var pc, pc' := PcOf(s, id), PcOf(Step(s, Thief(id)), id);
      || StealRest(pc') < StealRest(pc)
      || (pc.t < s.top && pc'.ReadBottom? && pc'.t == s.top)
  {
    assert id in s.thieves && ThiefInv(s, s.thieves[id]);
  }

  // ---------- When a push grows the buffer, or cannot ----------

  /** At some point of the run the deque held `n` items. */
  ghost predicate Held(run: seq<State>, n: int) {
    exists i :: 0 <= i < |run| && Limit(run[i]) - run[i].top == n
  }

  /** What a push finds to be the number of items is what the deque held when it read `top`; it grows the
      buffer only if that fills it, and gives up only if moreover there is no larger one. */
  lemma PushPoints(s: State, act: Action)
    requires Inv(s)
    ensures var o, o' := s.owner, Step(s, act).owner;
      && (o'.PushReadActive? ==> o' == o || o'.b - o'.t == Limit(s) - s.top)
      && (o'.PushCopy? ==> o.PushCopy? || (o.PushReadActive? && o.b - o.t == Size(s.active)))
      && (o'.Crashed? ==> o.Crashed? || (o.PushReadActive? && o.b - o.t == Size(s.active) && s.active == MaxBuffers - 1))
  {
    hide BufferHolds, ThievesInv, Claimed, Get, Put;
  }

  /** The owner gives up only if the deque has held 2^28 items, as many as the largest buffer takes. */
  lemma {:induction false} CrashMeansFull(run: seq<State>)
    requires IsRun(run)
    ensures var o := run[|run| - 1].owner;
      (o.PushReadActive? ==> Held(run, o.b - o.t)) && (o.Crashed? ==> Held(run, 0x1000_0000))
  {
    hide Inv, Shape, Step, Size;
    var n := |run|;
    if n > 1 {
      var front := run[..n - 1];
      CrashMeansFull(front);
      RunInv(front);
      assert Next(run[n - 2], run[n - 1]);
      var act :| run[n - 1] == Step(run[n - 2], act);
      PushPoints(run[n - 2], act);
      LargestSize();
      var o, o' := run[n - 2].owner, run[n - 1].owner;
      assert front[n - 2] == run[n - 2];
      if o.PushReadActive? { HeldLater(front, run, o.b - o.t); }
      HeldLater(front, run, 0x1000_0000);
    }
  }

  lemma HeldLater(front: seq<State>, run: seq<State>, n: int)
    requires front <= run
    ensures Held(front, n) ==> Held(run, n)
  {
    if Held(front, n) {
      var i :| 0 <= i < |front| && Limit(front[i]) - front[i].top == n;
      assert run[i] == front[i];
    }
  }

  lemma LargestSize()
    ensures Size(MaxBuffers - 1) == 0x1000_0000
  {
    assert Pow2(6) == 64;
    assert Pow2(12) == 4096;
    assert Pow2(18) == 0x4_0000;
  }
}
