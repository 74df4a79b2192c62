/**
  The mark-byte claim of src/nofl-space.h: nofl_space_evacuate_or_mark_object and
  nofl_space_forward_or_mark_if_traced.

  Any number of threads shade any number of objects.  Each atomic load, store, swap and
  compare-and-swap on an object's first metadata byte is one step; so are allocation, the
  copy of the object, the store of the forwarding pointer, the copy of the extent bytes,
  the store of the copy's first byte and the edge update.

  A metadata byte is a number below 256: its low three bits are the mark, bit 4 says
  "pinned", bit 5 "last granule", bits 6 and 7 are the logged bits of the two fields.
*/
module MarkByteForwarding {

  type Addr = nat
  type Words = seq<nat>
  type Bytes = seq<nat>

  const Young: nat := 1
  const Busy: nat := 5
  const Forwarded: nat := 6

  datatype Call = Call(edge: nat, ref: Addr, ifTraced: bool)

  datatype Pc =
    | Idle
    | Swap(c: Call, byte: nat)              // nofl_space_set_mark
    | Claim(c: Call, byte: nat)             // nofl_space_evacuate
    | Allocate(c: Call, byte: nat)
    | MarkInPlace(c: Call, byte: nat)
    | Copy(c: Call, byte: nat, to: Addr)
    | PutPointer(c: Call, byte: nat, to: Addr)
    | PutForwarded(c: Call, byte: nat, to: Addr)
    | CopyExtent(c: Call, byte: nat, to: Addr)
    | PutHead(c: Call, byte: nat, to: Addr)
    | Wait(c: Call, base: nat, byte: nat)   // spinning; `base` is the byte first read
    | LoadPointer(c: Call)
    | UpdateEdge(c: Call, to: Addr, res: nat, claimed: bool)

  datatype State = State(
    current: nat, survivor: nat,             // current_mark, survivor_mark
    generational: bool,
    evacuable: set<Addr>,                    // objects in blocks flagged for evacuation
    orig: map<Addr, Words>, meta0: map<Addr, Bytes>,  // before the cycle
    mem: map<Addr, Words>, meta: map<Addr, Bytes>,
    edges0: map<nat, Addr>, edges: map<nat, Addr>,
    pcs: map<nat, Pc>,
    // history
    holder: map<Addr, nat>, source: map<Addr, Addr>,
    ones: multiset<Addr>,                    // objects for which a shading call returned 1
    log: set<(Call, nat)>)

  datatype Choice =
    | Go
    | Start(edge: nat, ifTraced: bool)
    | Fresh(to: Addr, words: Words, bytes: Bytes)
    | OutOfMemory

  function PcOf(s: State, t: nat): Pc {
    if t in s.pcs then s.pcs[t] else Idle
  }

  function At(s: State, t: nat, pc: Pc): State {
    s.(pcs := s.pcs[t := pc])
  }

  function Finish(s: State, t: nat, c: Call, res: nat): State {
    At(s, t, Idle).(log := s.log + {(c, res)})
  }

  // ---------- Metadata bytes ----------

  function WithMark(byte: nat, mark: nat): nat {
    byte - byte % 8 + mark
  }

  predicate Pinned(byte: nat) {
    byte / 16 % 2 == 1
  }

  predicate IsEnd(byte: nat) {
    byte / 32 % 2 == 1
  }

  function Unlogged(byte: nat): nat {
    byte % 64
  }

  /** nofl_space_live_object_granules: up to and including the first byte with the end bit. */
  function LiveGranules(bytes: Bytes): (n: nat)
    ensures n <= |bytes|
  {
    if bytes == [] then 0 else if IsEnd(bytes[0]) then 1 else 1 + LiveGranules(bytes[1..])
  }

  /** The metadata of an object: every byte but the last has the end bit clear. */
  ghost predicate Extent(bytes: Bytes) {
    bytes != [] && IsEnd(bytes[|bytes| - 1]) && forall i :: 0 <= i < |bytes| - 1 ==> !IsEnd(bytes[i])
  }

  lemma {:induction false} ExtentGranules(bytes: Bytes)
    requires Extent(bytes)
    ensures LiveGranules(bytes) == |bytes|
  {
    if |bytes| > 1 {
      assert forall i :: 0 <= i < |bytes[1..]| ==> bytes[1..][i] == bytes[i + 1];
      ExtentGranules(bytes[1..]);
    }
  }

  lemma WithMarkSame(byte: nat, mark: nat)
    requires mark < 8
    ensures WithMark(byte, mark) % 8 == mark
    ensures IsEnd(WithMark(byte, mark)) == IsEnd(byte) && Pinned(WithMark(byte, mark)) == Pinned(byte)
    ensures forall m: nat {:trigger WithMark(WithMark(byte, mark), m)} :: WithMark(WithMark(byte, mark), m) == WithMark(byte, m)
    ensures WithMark(byte, byte % 8) == byte
  {
    assert WithMark(byte, mark) == 8 * (byte / 8) + mark;
    assert WithMark(byte, mark) / 8 == byte / 8;
    DivDiv(byte, 2);
    DivDiv(byte, 4);
    DivDiv(WithMark(byte, mark), 2);
    DivDiv(WithMark(byte, mark), 4);
  }

  lemma DivDiv(n: nat, k: nat)
    requires k == 2 || k == 4
    ensures n / (8 * k) == n / 8 / k
  {
  }

  lemma UnloggedEnd(byte: nat)
    ensures IsEnd(Unlogged(byte)) == IsEnd(byte) && Unlogged(byte) % 8 == byte % 8
  {
    EndBit(byte, byte / 64, byte % 64);
    LowBits(byte, byte / 64, byte % 64);
  }

  lemma EndBit(byte: nat, q: nat, r: nat)
    requires byte == 64 * q + r && r < 64
    ensures byte / 32 % 2 == r / 32 % 2
  {
    var k, l := r / 32, r % 32;
    assert byte == 32 * (2 * q + k) + l;
    assert byte / 32 == 2 * q + k;
  }

  lemma LowBits(byte: nat, q: nat, r: nat)
    requires byte == 64 * q + r && r < 64
    ensures byte % 8 == r % 8
  {
    var k, l := r / 8, r % 8;
    assert byte == 8 * (8 * q + k) + l;
  }

  /** A byte with the given mark, trace kind, pinned, end and logged bits. */
  function ByteOf(mark: nat, kind: nat, pinned: bool, end: bool, logged: nat): nat {
    mark + 8 * kind + (if pinned then 16 else 0) + (if end then 32 else 0) + 64 * logged
  }

  /** Where the fields of a metadata byte lie, and that setting one leaves the others. */
  lemma ByteFields(mark: nat, kind: nat, pinned: bool, end: bool, logged: nat, m: nat)
    requires mark < 8 && kind < 2 && logged < 4 && m < 8
    ensures var byte := ByteOf(mark, kind, pinned, end, logged);
      && byte < 256 && byte % 8 == mark && Pinned(byte) == pinned && IsEnd(byte) == end
      && WithMark(byte, m) == ByteOf(m, kind, pinned, end, logged)
      && Unlogged(byte) == ByteOf(mark, kind, pinned, end, 0)
  {
  }

  function UnloggedAll(bytes: Bytes): (r: Bytes)
    ensures |r| == |bytes|
  {
    seq(|bytes|, i requires 0 <= i < |bytes| => Unlogged(bytes[i]))
  }

  // ---------- Steps ----------

  function Head(s: State, r: Addr): nat {
    if r in s.meta && s.meta[r] != [] then s.meta[r][0] else 0
  }

  function SetHead(s: State, r: Addr, byte: nat): State {
    if r in s.meta && s.meta[r] != [] then s.(meta := s.meta[r := [byte] + s.meta[r][1..]]) else s
  }

  function Pointer(s: State, r: Addr): Addr {
    if r in s.mem && s.mem[r] != [] then s.mem[r][0] else 0
  }

  predicate ShouldEvacuate(s: State, byte: nat, r: Addr) {
    !Pinned(byte) && r in s.evacuable
  }

  predicate YoungOrSurvivor(s: State, byte: nat) {
    byte % 8 == Young || byte % 8 == s.survivor
  }

  function StartStep(s: State, t: nat, c: Call): State {
    var byte := Head(s, c.ref);
    if c.ifTraced then IfTracedStep(s, t, c, byte)
    else if byte % 8 == s.current then Finish(s, t, c, 0)
    else At(s, t, if ShouldEvacuate(s, byte, c.ref) then Claim(c, byte) else Swap(c, byte))
  }

  /** What nofl_space_forward_or_mark_if_traced does with the byte it has just loaded. */
  function IfTracedStep(s: State, t: nat, c: Call, base: nat): State {
    var byte := Head(s, c.ref);
    if byte == WithMark(base, Busy) then At(s, t, Wait(c, base, byte))
    else if byte == WithMark(base, Forwarded) then At(s, t, LoadPointer(c))
    else Finish(s, t, c, if byte % 8 == s.current then 1 else 0)
  }

  function SwapStep(s: State, t: nat, c: Call, byte: nat): State {
    var res := if WithMark(byte, s.current) != Head(s, c.ref) then 1 else 0;
    Finish(SetHead(s, c.ref, WithMark(byte, s.current)), t, c, res)
      .(ones := if res == 1 then s.ones + multiset{c.ref} else s.ones)
  }

  function Claimed(s: State, t: nat, c: Call, byte: nat): State {
    At(SetHead(s, c.ref, WithMark(byte, Busy)), t, Allocate(c, byte)).(holder := s.holder[c.ref := t])
  }

  /** The claim, by compare-and-swap; a loser goes on with the byte it saw. */
  function ClaimStep(s: State, t: nat, c: Call, byte: nat): State {
    if !YoungOrSurvivor(s, byte) then At(s, t, Wait(c, byte, byte))
    else if Head(s, c.ref) == byte then Claimed(s, t, c, byte)
    else At(s, t, Wait(c, byte, Head(s, c.ref)))
  }

  function Allocated(s: State, t: nat, c: Call, byte: nat, to: Addr, words: Words, bytes: Bytes): State {
    At(s, t, Copy(c, byte, to))
      .(mem := s.mem[to := words], meta := s.meta[to := bytes], source := s.source[to := c.ref])
  }

  /** nofl_evacuation_allocate: memory for as many granules as the extent bytes say. */
  function AllocateStep(s: State, t: nat, c: Call, byte: nat, ch: Choice): State {
    match ch
    case OutOfMemory => At(s, t, MarkInPlace(c, byte))
    case Fresh(to, words, bytes) =>
      if to !in s.mem && to !in s.meta && c.ref in s.mem && c.ref in s.meta &&
         |words| == |s.mem[c.ref]| && |bytes| == LiveGranules(s.meta[c.ref]) then
        Allocated(s, t, c, byte, to, words, bytes)
      else s
    case _ => s
  }

  function MarkInPlaceStep(s: State, t: nat, c: Call, byte: nat): State {
    Finish(SetHead(s, c.ref, WithMark(byte, s.current)), t, c, 1).(ones := s.ones + multiset{c.ref})
  }

  function CopyStep(s: State, t: nat, c: Call, byte: nat, to: Addr): State {
    At(s, t, PutPointer(c, byte, to)).(mem := if c.ref in s.mem then s.mem[to := s.mem[c.ref]] else s.mem)
  }

  function PutPointerStep(s: State, t: nat, c: Call, byte: nat, to: Addr): State {
    At(s, t, PutForwarded(c, byte, to))
      .(mem := if c.ref in s.mem && s.mem[c.ref] != [] then s.mem[c.ref := [to] + s.mem[c.ref][1..]] else s.mem)
  }

  function CopyExtentStep(s: State, t: nat, c: Call, byte: nat, to: Addr): State {
    At(s, t, PutHead(c, byte, to))
      .(meta := if c.ref in s.meta && s.meta[c.ref] != [] && to in s.meta && s.meta[to] != [] then
                  s.meta[to := [s.meta[to][0]] + s.meta[c.ref][1..]]
                else s.meta)
  }

  /** The copy's first byte, after its logged bits and those of its fields have been cleared. */
  function CopiedMeta(current: nat, generational: bool, byte: nat, bytes: Bytes): Bytes
    requires bytes != []
  {
    var head := WithMark(byte, current);
    if generational then [Unlogged(head)] + UnloggedAll(bytes[1..]) else [head] + bytes[1..]
  }

  function PutHeadStep(s: State, t: nat, c: Call, byte: nat, to: Addr): State {
    At(s, t, UpdateEdge(c, to, 1, true))
      .(meta := if to in s.meta && s.meta[to] != [] then s.meta[to := CopiedMeta(s.current, s.generational, byte, s.meta[to])] else s.meta)
  }

  function WaitStep(s: State, t: nat, c: Call, base: nat, byte: nat): State {
    if c.ifTraced then IfTracedStep(s, t, c, base)
    else if byte == WithMark(base, Busy) then At(s, t, Wait(c, base, Head(s, c.ref)))
    else if byte == WithMark(base, Forwarded) then At(s, t, LoadPointer(c))
    else Finish(s, t, c, 0)
  }

  function UpdateEdgeStep(s: State, t: nat, c: Call, to: Addr, res: nat, claimed: bool): State {
    Finish(s, t, c, res)
      .(edges := s.edges[c.edge := to], ones := if claimed then s.ones + multiset{c.ref} else s.ones)
  }

  function Step(s: State, t: nat, ch: Choice): State {
    match PcOf(s, t)
    case Idle =>
      if ch.Start? && ch.edge in s.edges && s.edges[ch.edge] in s.orig then
        StartStep(s, t, Call(ch.edge, s.edges[ch.edge], ch.ifTraced))
      else s
    case Swap(c, byte) => SwapStep(s, t, c, byte)
    case Claim(c, byte) => ClaimStep(s, t, c, byte)
    case Allocate(c, byte) => AllocateStep(s, t, c, byte, ch)
    case MarkInPlace(c, byte) => MarkInPlaceStep(s, t, c, byte)
    case Copy(c, byte, to) => CopyStep(s, t, c, byte, to)
    case PutPointer(c, byte, to) => PutPointerStep(s, t, c, byte, to)
    case PutForwarded(c, byte, to) => At(SetHead(s, c.ref, WithMark(byte, Forwarded)), t, CopyExtent(c, byte, to))
    case CopyExtent(c, byte, to) => CopyExtentStep(s, t, c, byte, to)
    case PutHead(c, byte, to) => PutHeadStep(s, t, c, byte, to)
    case Wait(c, base, byte) => WaitStep(s, t, c, base, byte)
    case LoadPointer(c) => At(s, t, UpdateEdge(c, Pointer(s, c.ref), if c.ifTraced then 1 else 0, false))
    case UpdateEdge(c, to, res, claimed) => UpdateEdgeStep(s, t, c, to, res, claimed)
  }

  predicate IsMark(mark: nat) {
    2 <= mark <= 4
  }

  /** Every object is young or survived the last cycle, and has well-formed extent bytes. */
  ghost predicate Init(s: State) {
    && IsMark(s.current) && IsMark(s.survivor)
    && s.mem == s.orig && s.meta == s.meta0 && s.edges == s.edges0 && s.pcs == map[]
    && s.source == map[] && s.ones == multiset{} && s.log == {}
    && (forall a :: a in s.orig <==> a in s.meta0)
    && (forall a :: a in s.orig ==> s.orig[a] != [] && Extent(s.meta0[a]) && YoungOrSurvivor(s, s.meta0[a][0]))
  }

  // ---------- Invariant ----------

  function Mem(s: State, a: Addr): Words {
    if a in s.mem then s.mem[a] else []
  }

  function Meta(s: State, a: Addr): Bytes {
    if a in s.meta then s.meta[a] else []
  }

  function Orig(s: State, a: Addr): Words {
    if a in s.orig then s.orig[a] else []
  }

  function Meta0(s: State, a: Addr): Bytes {
    if a in s.meta0 then s.meta0[a] else []
  }

  function Head0(s: State, r: Addr): nat {
    if Meta0(s, r) != [] then Meta0(s, r)[0] else 0
  }

  function MarkOf(s: State, r: Addr): nat {
    Head(s, r) % 8
  }

  /** Shaded grey this cycle: marked in place, or forwarded to a copy. */
  predicate Shaded(s: State, r: Addr) {
    MarkOf(s, r) == s.current || MarkOf(s, r) == Forwarded
  }

  /** The claimer of `r`, before it publishes the outcome. */
  predicate Busying(pc: Pc, r: Addr) {
    match pc
    case Allocate(c, _) => c.ref == r
    case MarkInPlace(c, _) => c.ref == r
    case Copy(c, _, _) => c.ref == r
    case PutPointer(c, _, _) => c.ref == r
    case PutForwarded(c, _, _) => c.ref == r
    case _ => false
  }

  /** The claimer of `r`, between publishing the new address and returning 1. */
  predicate Reporting(pc: Pc, r: Addr) {
    match pc
    case CopyExtent(c, _, _) => c.ref == r
    case PutHead(c, _, _) => c.ref == r
    case UpdateEdge(c, _, _, claimed) => claimed && c.ref == r
    case _ => false
  }

  /** The claimer has yet to give the copy its metadata. */
  predicate MetaPending(pc: Pc) {
    pc.CopyExtent? || pc.PutHead?
  }

  ghost predicate HolderIs(s: State, r: Addr, t: nat) {
    r in s.holder && s.holder[r] == t
  }

  /** What the metadata of the copy of `r` will be. */
  ghost function FinalMeta(current: nat, generational: bool, bytes: Bytes): Bytes {
    if bytes != [] then CopiedMeta(current, generational, bytes[0], bytes) else []
  }

  ghost predicate CopyOf(s: State, a: Addr, r: Addr) {
    && a in s.mem && a !in s.orig && a in s.source && s.source[a] == r && r in s.orig
    && Mem(s, a) == Orig(s, r) && a in s.meta
  }

  /** The metadata byte goes unclaimed, busy, then marked or forwarded; or straight to marked. */
  ghost predicate ByteInv(s: State, r: Addr) {
    && Head(s, r) == WithMark(Head0(s, r), MarkOf(s, r))
    && (MarkOf(s, r) == Head0(s, r) % 8 || MarkOf(s, r) == s.current ||
        ((MarkOf(s, r) == Busy || MarkOf(s, r) == Forwarded) && ShouldEvacuate(s, Head0(s, r), r) && Head0(s, r) % 8 != s.current))
  }

  ghost predicate ObjInv(s: State, r: Addr) {
    r in s.orig ==>
      && r in s.meta0 && Orig(s, r) != [] && Extent(Meta0(s, r)) && YoungOrSurvivor(s, Head0(s, r))
      && IsMark(s.current) && IsMark(s.survivor)
      && r in s.mem && |Mem(s, r)| == |Orig(s, r)| && Mem(s, r) != [] && Mem(s, r)[1..] == Orig(s, r)[1..]
      && r in s.meta && |Meta(s, r)| == |Meta0(s, r)| && Meta(s, r) != [] && Meta(s, r)[1..] == Meta0(s, r)[1..]
      && ByteInv(s, r)
      && (MarkOf(s, r) == Busy ==> r in s.holder && Busying(PcOf(s, s.holder[r]), r))
      && (MarkOf(s, r) != Busy && MarkOf(s, r) != Forwarded ==> Mem(s, r) == Orig(s, r))
      && (MarkOf(s, r) == Forwarded ==>
            && r in s.holder && CopyOf(s, Pointer(s, r), r)
            && (!(MetaPending(PcOf(s, s.holder[r])) && Reporting(PcOf(s, s.holder[r]), r)) ==>
                  Meta(s, Pointer(s, r)) == FinalMeta(s.current, s.generational, Meta0(s, r))))
      && s.ones[r] == (if Shaded(s, r) && Head0(s, r) % 8 != s.current &&
                          !(MarkOf(s, r) == Forwarded && r in s.holder && Reporting(PcOf(s, s.holder[r]), r))
                       then 1 else 0)
  }

  ghost predicate CallOk(s: State, c: Call) {
    c.ref in s.orig && c.edge in s.edges0 && s.edges0[c.edge] == c.ref
  }

  ghost predicate TargetOk(s: State, c: Call, to: Addr) {
    && to in s.mem && to in s.meta && to !in s.orig && to in s.source && s.source[to] == c.ref
    && c.ref in s.meta0 && |Meta(s, to)| == |Meta0(s, c.ref)|
  }

  /** Calls that went on past the first test: the object was not yet marked when it looked. */
  ghost predicate Unshaded0(s: State, c: Call) {
    CallOk(s, c) && !c.ifTraced && Head0(s, c.ref) % 8 != s.current
  }

  ghost predicate ClaimedOk(s: State, t: nat, c: Call, byte: nat, mark: nat) {
    && Unshaded0(s, c) && byte == Head0(s, c.ref) && ShouldEvacuate(s, byte, c.ref)
    && MarkOf(s, c.ref) == mark && HolderIs(s, c.ref, t)
  }

  /** Somebody has claimed `r`: never again will its byte be what it was. */
  ghost predicate Taken(s: State, r: Addr) {
    MarkOf(s, r) == Busy || MarkOf(s, r) == Forwarded || MarkOf(s, r) == s.current
  }

  ghost predicate Seen(s: State, c: Call, byte: nat) {
    || (byte == WithMark(Head0(s, c.ref), Busy) && Taken(s, c.ref))
    || (byte == WithMark(Head0(s, c.ref), Forwarded) && MarkOf(s, c.ref) == Forwarded)
    || (byte == WithMark(Head0(s, c.ref), s.current) && MarkOf(s, c.ref) == s.current)
  }

  ghost predicate PcInv(s: State, t: nat, pc: Pc) {
    match pc
    case Idle => true
    case Swap(c, byte) => Unshaded0(s, c) && byte == Head0(s, c.ref) && !ShouldEvacuate(s, byte, c.ref)
    case Claim(c, byte) =>
      && Unshaded0(s, c) && ShouldEvacuate(s, Head0(s, c.ref), c.ref)
      && (byte == Head0(s, c.ref) || (byte == WithMark(Head0(s, c.ref), Busy) && Taken(s, c.ref)) ||
          (byte == WithMark(Head0(s, c.ref), Forwarded) && MarkOf(s, c.ref) == Forwarded))
    case Allocate(c, byte) => ClaimedOk(s, t, c, byte, Busy) && Mem(s, c.ref) == Orig(s, c.ref)
    case MarkInPlace(c, byte) => ClaimedOk(s, t, c, byte, Busy) && Mem(s, c.ref) == Orig(s, c.ref)
    case Copy(c, byte, to) =>
      ClaimedOk(s, t, c, byte, Busy) && Mem(s, c.ref) == Orig(s, c.ref) && TargetOk(s, c, to)
    case PutPointer(c, byte, to) => ClaimedOk(s, t, c, byte, Busy) && TargetOk(s, c, to) && Mem(s, to) == Orig(s, c.ref)
    case PutForwarded(c, byte, to) =>
      ClaimedOk(s, t, c, byte, Busy) && TargetOk(s, c, to) && Mem(s, to) == Orig(s, c.ref) && Pointer(s, c.ref) == to
    case CopyExtent(c, byte, to) =>
      ClaimedOk(s, t, c, byte, Forwarded) && TargetOk(s, c, to) && Pointer(s, c.ref) == to
    case PutHead(c, byte, to) =>
      && ClaimedOk(s, t, c, byte, Forwarded) && TargetOk(s, c, to) && Pointer(s, c.ref) == to
      && Meta(s, to) != [] && Meta0(s, c.ref) != [] && Meta(s, to)[1..] == Meta0(s, c.ref)[1..]
    case Wait(c, base, byte) =>
      && CallOk(s, c) && (forall m: nat :: WithMark(base, m) == WithMark(Head0(s, c.ref), m))
      && (!c.ifTraced ==> Unshaded0(s, c) && Seen(s, c, byte))
    case LoadPointer(c) => CallOk(s, c) && MarkOf(s, c.ref) == Forwarded
    case UpdateEdge(c, to, res, claimed) =>
      && CallOk(s, c) && MarkOf(s, c.ref) == Forwarded && Pointer(s, c.ref) == to
      && (claimed ==> HolderIs(s, c.ref, t) && !c.ifTraced)
      && (res == 1 <==> claimed || c.ifTraced) && res <= 1
  }

  ghost predicate EdgeInv(s: State, e: nat) {
    && (e in s.edges <==> e in s.edges0)
    && (e in s.edges && s.edges[e] != s.edges0[e] ==>
          s.edges0[e] in s.orig && MarkOf(s, s.edges0[e]) == Forwarded && s.edges[e] == Pointer(s, s.edges0[e]))
  }

  /** Once a call has returned its object is shaded and its edge leads to where the object now is. */
  ghost predicate LogInv(s: State, c: Call, res: nat) {
    (c, res) in s.log ==>
      && CallOk(s, c) && c.edge in s.edges && res <= 1
      && (!c.ifTraced || res == 1 ==>
            Shaded(s, c.ref) && (MarkOf(s, c.ref) == Forwarded ==> s.edges[c.edge] == Pointer(s, c.ref)))
  }

  ghost predicate MemInv(s: State) {
    forall a ::
      && (a in s.mem <==> a in s.orig || a in s.source) && !(a in s.orig && a in s.source)
      && (a in s.mem <==> a in s.meta)
  }

  ghost predicate Inv(s: State) {
    && (forall r :: ObjInv(s, r))
    && (forall t :: PcInv(s, t, PcOf(s, t)))
    && (forall e :: EdgeInv(s, e))
    && (forall c, res: nat :: LogInv(s, c, res))
    && MemInv(s)
  }

  lemma InitInv(s: State)
    requires Init(s)
    ensures Inv(s)
  {
    forall r ensures ObjInv(s, r) {
      if r in s.orig { WithMarkSame(Head0(s, r), Head0(s, r) % 8); }
    }
  }

  // ---------- What a step on object `r` leaves alone ----------

  ghost predicate FrameMem(s: State, s': State, r: Addr) {
    && (forall a :: a in s.mem ==> a in s'.mem)
    && (forall a :: a in s.meta ==> a in s'.meta)
    && (forall a :: a in s.mem && a != r && !(a in s.source && s.source[a] == r) ==>
          Mem(s', a) == Mem(s, a) && Meta(s', a) == Meta(s, a))
    && (forall a :: a in s.source ==> a in s'.source && s'.source[a] == s.source[a])
  }

  ghost predicate SameConsts(s: State, s': State) {
    && s'.current == s.current && s'.survivor == s.survivor && s'.generational == s.generational
    && s'.evacuable == s.evacuable && s'.orig == s.orig && s'.meta0 == s.meta0 && s'.edges0 == s.edges0
  }

  ghost predicate Frame(s: State, s': State, t: nat, r: Addr) {
    && SameConsts(s, s')
    && (forall u :: u != t ==> PcOf(s', u) == PcOf(s, u))
    && FrameMem(s, s', r)
    && (forall x :: x in s.holder && x != r ==> HolderIs(s', x, s.holder[x]))
    && (forall x :: x in s'.holder && x != r ==> x in s.holder)
    && (forall x :: x != r ==> s'.ones[x] == s.ones[x])
  }

  ghost predicate SameAt(s: State, s': State, a: Addr) {
    Mem(s', a) == Mem(s, a) && Meta(s', a) == Meta(s, a)
  }

  /** Only its holder touches a busy object or its copy; a forwarded object keeps its byte and
      its pointer for good, a marked one its byte. */
  ghost predicate ByteEvolves(s: State, s': State, t: nat, r: Addr) {
    && (MarkOf(s, r) == Busy || MarkOf(s, r) == Forwarded ==>
          (r in s.holder ==> HolderIs(s', r, s.holder[r])) &&
          (!HolderIs(s, r, t) ==> forall a :: a in s.mem ==> SameAt(s, s', a)))
    && (MarkOf(s, r) == Forwarded ==> Head(s', r) == Head(s, r) && Pointer(s', r) == Pointer(s, r))
    && (MarkOf(s, r) == s.current ==> Head(s', r) == Head(s, r))
    && (Taken(s, r) ==> Taken(s', r))
  }

  ghost predicate OnOrIdle(pc: Pc, r: Addr) {
    pc.Idle? || pc.c.ref == r
  }

  lemma OtherObject(s: State, s': State, t: nat, r: Addr, x: Addr)
    requires ObjInv(s, x) && Frame(s, s', t, r) && x != r && r in s.orig && MemInv(s)
    requires OnOrIdle(PcOf(s, t), r) && OnOrIdle(PcOf(s', t), r)
    ensures ObjInv(s', x)
  {
    hide WithMark, Extent, Pinned, UnloggedAll, Unlogged, FinalMeta;
  }

  lemma ByteKept(s: State, s': State, t: nat, r: Addr, x: Addr)
    requires Frame(s, s', t, r) && ByteEvolves(s, s', t, r) && MemInv(s) && r in s.orig && x in s.orig
    ensures Taken(s, x) ==> Taken(s', x)
    ensures MarkOf(s, x) == Forwarded || MarkOf(s, x) == s.current ==> Head(s', x) == Head(s, x)
    ensures MarkOf(s, x) == Forwarded ==> Pointer(s', x) == Pointer(s, x) && (x in s.holder ==> HolderIs(s', x, s.holder[x]))
  {
  }

  lemma ClaimedKept(s: State, s': State, t: nat, r: Addr, u: nat, c: Call, byte: nat, mark: nat)
    requires Frame(s, s', t, r) && ByteEvolves(s, s', t, r) && MemInv(s) && r in s.orig && u != t
    requires ClaimedOk(s, u, c, byte, mark) && (mark == Busy || mark == Forwarded)
    ensures ClaimedOk(s', u, c, byte, mark) && SameAt(s, s', c.ref)
  {
    hide WithMark, Pinned;
  }

  lemma TargetKept(s: State, s': State, t: nat, r: Addr, u: nat, c: Call, byte: nat, mark: nat, to: Addr)
    requires Frame(s, s', t, r) && ByteEvolves(s, s', t, r) && MemInv(s) && r in s.orig && u != t
    requires ClaimedOk(s, u, c, byte, mark) && (mark == Busy || mark == Forwarded) && TargetOk(s, c, to)
    ensures TargetOk(s', c, to) && SameAt(s, s', to)
  {
    hide WithMark, Pinned;
  }

  lemma OtherThread(s: State, s': State, t: nat, r: Addr, u: nat)
    requires PcInv(s, u, PcOf(s, u)) && Frame(s, s', t, r) && ByteEvolves(s, s', t, r) && MemInv(s) && u != t
    requires r in s.orig
    ensures PcInv(s', u, PcOf(s', u))
  {
    hide MemInv, ByteEvolves, FrameMem, WithMark, Pinned, ClaimedOk, TargetOk;
    match PcOf(s, u)
    case Idle =>
    case Swap(c, byte) =>
    case Claim(c, byte) => ByteKept(s, s', t, r, c.ref);
    case Wait(c, _, _) => ByteKept(s, s', t, r, c.ref);
    case LoadPointer(c) => ByteKept(s, s', t, r, c.ref);
    case UpdateEdge(c, _, _, _) => ByteKept(s, s', t, r, c.ref);
    case Allocate(c, byte) => ClaimedKept(s, s', t, r, u, c, byte, Busy);
    case MarkInPlace(c, byte) => ClaimedKept(s, s', t, r, u, c, byte, Busy);
    case Copy(c, byte, to) =>
      ClaimedKept(s, s', t, r, u, c, byte, Busy); TargetKept(s, s', t, r, u, c, byte, Busy, to);
    case PutPointer(c, byte, to) =>
      ClaimedKept(s, s', t, r, u, c, byte, Busy); TargetKept(s, s', t, r, u, c, byte, Busy, to);
    case PutForwarded(c, byte, to) =>
      ClaimedKept(s, s', t, r, u, c, byte, Busy); TargetKept(s, s', t, r, u, c, byte, Busy, to);
    case CopyExtent(c, byte, to) =>
      ClaimedKept(s, s', t, r, u, c, byte, Forwarded); TargetKept(s, s', t, r, u, c, byte, Forwarded, to);
    case PutHead(c, byte, to) =>
      ClaimedKept(s, s', t, r, u, c, byte, Forwarded); TargetKept(s, s', t, r, u, c, byte, Forwarded, to);
  }

  ghost predicate EdgeMoves(s: State, s': State, r: Addr, e: nat) {
    && (e in s.edges <==> e in s'.edges)
    && (e in s.edges && s'.edges[e] != s.edges[e] ==>
          e in s.edges0 && s.edges0[e] == r && MarkOf(s', r) == Forwarded && s'.edges[e] == Pointer(s', r))
  }

  /** Memory still consists of from-space and copies; edges and results change only as they may. */
  ghost predicate RestOk(s: State, s': State, r: Addr) {
    && MemInv(s')
    && (forall e :: EdgeMoves(s, s', r, e))
    && (forall c, res: nat :: (c, res) in s'.log ==> (c, res) in s.log || LogInv(s', c, res))
  }

  /** What a step says about its own object, its own thread, its edge and its result. */
  ghost predicate OwnPart(s: State, s': State, t: nat, r: Addr) {
    && r in s.orig && Frame(s, s', t, r) && ByteEvolves(s, s', t, r)
    && OnOrIdle(PcOf(s, t), r) && OnOrIdle(PcOf(s', t), r)
    && ObjInv(s', r) && PcInv(s', t, PcOf(s', t)) && RestOk(s, s', r)
  }

  lemma EdgeKept(s: State, s': State, t: nat, r: Addr, e: nat)
    requires EdgeInv(s, e) && EdgeMoves(s, s', r, e)
    requires Frame(s, s', t, r) && ByteEvolves(s, s', t, r) && MemInv(s) && r in s.orig
    ensures EdgeInv(s', e)
  {
    hide ByteEvolves, FrameMem, MemInv;
    if e in s.edges && s'.edges[e] == s.edges[e] != s.edges0[e] {
      ByteKept(s, s', t, r, s.edges0[e]);
    }
  }

  lemma LogKept(s: State, s': State, t: nat, r: Addr, c: Call, res: nat)
    requires LogInv(s, c, res) && (c, res) in s.log && EdgeMoves(s, s', r, c.edge)
    requires Frame(s, s', t, r) && ByteEvolves(s, s', t, r) && MemInv(s) && r in s.orig
    requires IsMark(s.current)
    ensures LogInv(s', c, res)
  {
    hide ByteEvolves, FrameMem, MemInv;
    ByteKept(s, s', t, r, c.ref);
  }

  lemma NotLogged(s: State, c: Call, res: nat)
    requires (c, res) !in s.log
    ensures LogInv(s, c, res)
  {
  }

  lemma ObjMark(s: State, r: Addr)
    requires ObjInv(s, r) && r in s.orig
    ensures IsMark(s.current)
  {
  }

  lemma StepKeeps(s: State, s': State, t: nat, r: Addr)
    requires Inv(s) && OwnPart(s, s', t, r)
    ensures Inv(s')
  {
    hide ObjInv, PcInv, EdgeInv, EdgeMoves, LogInv, MemInv, Frame, ByteEvolves;
    assert ObjInv(s, r);
    ObjMark(s, r);
    forall x ensures ObjInv(s', x) {
      assert ObjInv(s, x);
      if x != r { OtherObject(s, s', t, r, x); }
    }
    forall u ensures PcInv(s', u, PcOf(s', u)) {
      assert PcInv(s, u, PcOf(s, u));
      if u != t { OtherThread(s, s', t, r, u); }
    }
    forall e ensures EdgeInv(s', e) {
      assert EdgeInv(s, e) && EdgeMoves(s, s', r, e);
      EdgeKept(s, s', t, r, e);
    }
    forall c, res: nat ensures LogInv(s', c, res) {
      if (c, res) in s'.log && (c, res) in s.log {
        assert LogInv(s, c, res) && EdgeMoves(s, s', r, c.edge);
        LogKept(s, s', t, r, c, res);
      } else if (c, res) !in s'.log {
        NotLogged(s', c, res);
      }
    }
  }

  // ---------- The steps ----------

  /** The parts of the invariant that one step of `t` on object `r` may rely on. */
  ghost predicate Before(s: State, t: nat, r: Addr) {
    && r in s.orig && ObjInv(s, r) && PcInv(s, t, PcOf(s, t)) && MemInv(s)
    && (forall e :: EdgeInv(s, e)) && OnOrIdle(PcOf(s, t), r)
  }

  lemma Parts(s: State, t: nat, r: Addr)
    requires Before(s, t, r)
    ensures ObjInv(s, r) && PcInv(s, t, PcOf(s, t)) && r in s.orig
  {
  }

  /** A change of program point only, by a thread that has claimed nothing. */
  lemma MoveOwn(s: State, t: nat, c: Call, pc: Pc)
    requires Before(s, t, c.ref) && !Busying(PcOf(s, t), c.ref) && !Reporting(PcOf(s, t), c.ref)
    requires PcInv(s, t, pc) && OnOrIdle(pc, c.ref) && !Reporting(pc, c.ref)
    ensures OwnPart(s, At(s, t, pc), t, c.ref)
  {
    hide Frame, ByteEvolves, ObjInv, PcInv, RestOk;
    MoveFrame(s, t, c, pc);
    MoveObj(s, t, c, pc);
    MoveRest(s, t, c, pc);
  }

  lemma MoveFrame(s: State, t: nat, c: Call, pc: Pc)
    requires Before(s, t, c.ref) && !Busying(PcOf(s, t), c.ref) && !Reporting(PcOf(s, t), c.ref)
    requires PcInv(s, t, pc) && OnOrIdle(pc, c.ref) && !Reporting(pc, c.ref)
    ensures var s' := At(s, t, pc);
      Frame(s, s', t, c.ref) && ByteEvolves(s, s', t, c.ref) && c.ref in s.orig && OnOrIdle(PcOf(s', t), c.ref)
  {
    hide Extent, Pinned, UnloggedAll, Unlogged, FinalMeta, WithMark;
  }

  lemma MoveObj(s: State, t: nat, c: Call, pc: Pc)
    requires Before(s, t, c.ref) && !Busying(PcOf(s, t), c.ref) && !Reporting(PcOf(s, t), c.ref)
    requires PcInv(s, t, pc) && OnOrIdle(pc, c.ref) && !Reporting(pc, c.ref)
    ensures var s' := At(s, t, pc); ObjInv(s', c.ref) && PcInv(s', t, PcOf(s', t))
  {
    hide Extent, Pinned, UnloggedAll, Unlogged, FinalMeta, WithMark;
  }

  lemma MoveRest(s: State, t: nat, c: Call, pc: Pc)
    requires Before(s, t, c.ref) && !Busying(PcOf(s, t), c.ref) && !Reporting(PcOf(s, t), c.ref)
    requires PcInv(s, t, pc) && OnOrIdle(pc, c.ref) && !Reporting(pc, c.ref)
    ensures RestOk(s, At(s, t, pc), c.ref)
  {
    hide Extent, Pinned, UnloggedAll, Unlogged, FinalMeta, WithMark;
  }

  lemma FinishOwn(s: State, t: nat, c: Call, res: nat)
    requires Before(s, t, c.ref) && !Busying(PcOf(s, t), c.ref) && !Reporting(PcOf(s, t), c.ref)
    requires CallOk(s, c) && res <= 1
    requires !c.ifTraced || res == 1 ==> MarkOf(s, c.ref) == s.current
    ensures OwnPart(s, Finish(s, t, c, res), t, c.ref)
  {
    hide Frame, ByteEvolves, ObjInv, PcInv, RestOk;
    FinishFrame(s, t, c, res);
    FinishObj(s, t, c, res);
    FinishRest(s, t, c, res);
  }

  lemma FinishFrame(s: State, t: nat, c: Call, res: nat)
    requires Before(s, t, c.ref) && !Busying(PcOf(s, t), c.ref) && !Reporting(PcOf(s, t), c.ref)
    requires CallOk(s, c) && res <= 1
    requires !c.ifTraced || res == 1 ==> MarkOf(s, c.ref) == s.current
    ensures var s' := Finish(s, t, c, res);
      Frame(s, s', t, c.ref) && ByteEvolves(s, s', t, c.ref) && c.ref in s.orig && OnOrIdle(PcOf(s', t), c.ref)
  {
    hide Extent, Pinned, UnloggedAll, Unlogged, FinalMeta, WithMark;
  }

  lemma FinishObj(s: State, t: nat, c: Call, res: nat)
    requires Before(s, t, c.ref) && !Busying(PcOf(s, t), c.ref) && !Reporting(PcOf(s, t), c.ref)
    requires CallOk(s, c) && res <= 1
    requires !c.ifTraced || res == 1 ==> MarkOf(s, c.ref) == s.current
    ensures var s' := Finish(s, t, c, res); ObjInv(s', c.ref) && PcInv(s', t, PcOf(s', t))
  {
    hide Extent, Pinned, UnloggedAll, Unlogged, FinalMeta, WithMark;
  }

  lemma FinishRest(s: State, t: nat, c: Call, res: nat)
    requires Before(s, t, c.ref) && !Busying(PcOf(s, t), c.ref) && !Reporting(PcOf(s, t), c.ref)
    requires CallOk(s, c) && res <= 1
    requires !c.ifTraced || res == 1 ==> MarkOf(s, c.ref) == s.current
    ensures RestOk(s, Finish(s, t, c, res), c.ref)
  {
    hide Extent, Pinned, UnloggedAll, Unlogged, FinalMeta, WithMark;
    assert EdgeInv(s, c.edge);
  }

  lemma IfTracedOwn(s: State, t: nat, c: Call, base: nat)
    requires Before(s, t, c.ref) && CallOk(s, c) && c.ifTraced
    requires PcOf(s, t).Idle? || PcOf(s, t).Wait?
    requires forall m: nat :: WithMark(base, m) == WithMark(Head0(s, c.ref), m)
    ensures OwnPart(s, IfTracedStep(s, t, c, base), t, c.ref)
  {
    hide OwnPart, Before, At, Finish;
    Parts(s, t, c.ref);
    var byte := Head(s, c.ref);
    WithMarkSame(Head0(s, c.ref), Forwarded);
    if byte == WithMark(base, Busy) {
      MoveOwn(s, t, c, Wait(c, base, byte));
    } else if byte == WithMark(base, Forwarded) {
      MoveOwn(s, t, c, LoadPointer(c));
    } else {
      FinishOwn(s, t, c, if byte % 8 == s.current then 1 else 0);
    }
  }

  lemma StartOwn(s: State, t: nat, c: Call)
    requires Before(s, t, c.ref) && CallOk(s, c) && PcOf(s, t).Idle?
    ensures OwnPart(s, StartStep(s, t, c), t, c.ref)
  {
    hide OwnPart, Before, At, Finish, IfTracedStep;
    Parts(s, t, c.ref);
    var byte := Head(s, c.ref);
    WithMarkSame(Head0(s, c.ref), byte % 8);
    if c.ifTraced {
      IfTracedOwn(s, t, c, byte);
    } else if byte % 8 == s.current {
      FinishOwn(s, t, c, 0);
    } else {
      FirstLook(s, c);
      MoveOwn(s, t, c, if ShouldEvacuate(s, byte, c.ref) then Claim(c, byte) else Swap(c, byte));
    }
  }

  /** An unshaded byte seen by a shading call. */
  lemma FirstLook(s: State, c: Call)
    requires ObjInv(s, c.ref) && CallOk(s, c) && !c.ifTraced && MarkOf(s, c.ref) != s.current
    ensures Unshaded0(s, c) && ShouldEvacuate(s, Head(s, c.ref), c.ref) == ShouldEvacuate(s, Head0(s, c.ref), c.ref)
    ensures Head(s, c.ref) in {Head0(s, c.ref), WithMark(Head0(s, c.ref), Busy), WithMark(Head0(s, c.ref), Forwarded)}
    ensures MarkOf(s, c.ref) == Busy || MarkOf(s, c.ref) == Forwarded || Head(s, c.ref) == Head0(s, c.ref)
    ensures !ShouldEvacuate(s, Head0(s, c.ref), c.ref) ==> Head(s, c.ref) == Head0(s, c.ref)
    ensures Head(s, c.ref) == WithMark(Head0(s, c.ref), Forwarded) ==> MarkOf(s, c.ref) == Forwarded || Head(s, c.ref) == Head0(s, c.ref)
  {
    WithMarkSame(Head0(s, c.ref), MarkOf(s, c.ref));
    WithMarkSame(Head0(s, c.ref), Forwarded);
  }

  lemma ClaimOwn(s: State, t: nat, c: Call, byte: nat)
    requires Before(s, t, c.ref) && PcOf(s, t) == Claim(c, byte)
    ensures OwnPart(s, ClaimStep(s, t, c, byte), t, c.ref)
  {
    hide OwnPart, Before, At;
    Parts(s, t, c.ref);
    ClaimBytes(s, t, c, byte);
    if !YoungOrSurvivor(s, byte) {
      MoveOwn(s, t, c, Wait(c, byte, byte));
    } else if Head(s, c.ref) == byte {
      ClaimedOwn(s, t, c, byte);
    } else {
      MoveOwn(s, t, c, Wait(c, byte, Head(s, c.ref)));
    }
  }

  /** The loser of the claim sees the claimer at work, or what it has done. */
  lemma ClaimBytes(s: State, t: nat, c: Call, byte: nat)
    requires ObjInv(s, c.ref) && PcInv(s, t, Claim(c, byte))
    ensures forall m: nat :: WithMark(byte, m) == WithMark(Head0(s, c.ref), m)
    ensures YoungOrSurvivor(s, byte) ==> byte == Head0(s, c.ref)
    ensures !YoungOrSurvivor(s, byte) ==> Seen(s, c, byte)
    ensures Head(s, c.ref) != byte && byte == Head0(s, c.ref) ==> Seen(s, c, Head(s, c.ref))
  {
    WithMarkSame(Head0(s, c.ref), Busy);
    WithMarkSame(Head0(s, c.ref), Forwarded);
    WithMarkSame(Head0(s, c.ref), MarkOf(s, c.ref));
  }

  lemma ClaimedOwn(s: State, t: nat, c: Call, byte: nat)
    requires Before(s, t, c.ref) && PcOf(s, t) == Claim(c, byte)
    requires byte == Head(s, c.ref) == Head0(s, c.ref)
    ensures OwnPart(s, Claimed(s, t, c, byte), t, c.ref)
  {
    hide Frame, ByteEvolves, ObjInv, PcInv, RestOk;
    ClaimedFrame(s, t, c, byte);
    ClaimedObj(s, t, c, byte);
    ClaimedRest(s, t, c, byte);
  }

  lemma ClaimedFrame(s: State, t: nat, c: Call, byte: nat)
    requires Before(s, t, c.ref) && PcOf(s, t) == Claim(c, byte)
    requires byte == Head(s, c.ref) == Head0(s, c.ref)
    ensures var s' := Claimed(s, t, c, byte);
      Frame(s, s', t, c.ref) && ByteEvolves(s, s', t, c.ref) && c.ref in s.orig && OnOrIdle(PcOf(s', t), c.ref)
  {
    hide Extent, Pinned, UnloggedAll, Unlogged, FinalMeta;
    WithMarkSame(byte, Busy);
  }

  lemma ClaimedObj(s: State, t: nat, c: Call, byte: nat)
    requires Before(s, t, c.ref) && PcOf(s, t) == Claim(c, byte)
    requires byte == Head(s, c.ref) == Head0(s, c.ref)
    ensures var s' := Claimed(s, t, c, byte); ObjInv(s', c.ref) && PcInv(s', t, PcOf(s', t))
  {
    hide Extent, Pinned, UnloggedAll, Unlogged, FinalMeta;
    WithMarkSame(byte, Busy);
  }

  lemma ClaimedRest(s: State, t: nat, c: Call, byte: nat)
    requires Before(s, t, c.ref) && PcOf(s, t) == Claim(c, byte)
    requires byte == Head(s, c.ref) == Head0(s, c.ref)
    ensures RestOk(s, Claimed(s, t, c, byte), c.ref)
  {
    hide Extent, Pinned, UnloggedAll, Unlogged, FinalMeta;
  }

  lemma SwapOwn(s: State, t: nat, c: Call, byte: nat)
    requires Before(s, t, c.ref) && PcOf(s, t) == Swap(c, byte)
    ensures OwnPart(s, SwapStep(s, t, c, byte), t, c.ref)
  {
    hide Frame, ByteEvolves, ObjInv, PcInv, RestOk;
    SwapFrame(s, t, c, byte);
    SwapObj(s, t, c, byte);
    SwapRest(s, t, c, byte);
  }

  lemma SwapFrame(s: State, t: nat, c: Call, byte: nat)
    requires Before(s, t, c.ref) && PcOf(s, t) == Swap(c, byte)
    ensures var s' := SwapStep(s, t, c, byte);
      Frame(s, s', t, c.ref) && ByteEvolves(s, s', t, c.ref) && c.ref in s.orig && OnOrIdle(PcOf(s', t), c.ref)
  {
    hide Extent, Pinned, UnloggedAll, Unlogged, FinalMeta, WithMark;
    hide ByteEvolves;
    SwapByte(s, t, c, byte);
  }

  lemma SwapByte(s: State, t: nat, c: Call, byte: nat)
    requires Before(s, t, c.ref) && PcOf(s, t) == Swap(c, byte)
    ensures ByteEvolves(s, SwapStep(s, t, c, byte), t, c.ref)
  {
    hide Extent, Pinned, UnloggedAll, Unlogged, FinalMeta, WithMark;
    WithMarkSame(byte, s.current);
    WithMarkSame(byte, byte % 8);
  }

  lemma SwapObj(s: State, t: nat, c: Call, byte: nat)
    requires Before(s, t, c.ref) && PcOf(s, t) == Swap(c, byte)
    ensures var s' := SwapStep(s, t, c, byte); ObjInv(s', c.ref) && PcInv(s', t, PcOf(s', t))
  {
    hide Extent, Pinned, UnloggedAll, Unlogged, FinalMeta;
    WithMarkSame(byte, s.current);
    WithMarkSame(byte, byte % 8);
  }

  lemma SwapRest(s: State, t: nat, c: Call, byte: nat)
    requires Before(s, t, c.ref) && PcOf(s, t) == Swap(c, byte)
    ensures RestOk(s, SwapStep(s, t, c, byte), c.ref)
  {
    hide Extent, Pinned, UnloggedAll, Unlogged, FinalMeta;
    WithMarkSame(byte, s.current);
    WithMarkSame(byte, byte % 8);
    assert EdgeInv(s, c.edge);
  }

  lemma AllocateOwn(s: State, t: nat, c: Call, byte: nat, ch: Choice)
    requires Before(s, t, c.ref) && PcOf(s, t) == Allocate(c, byte)
    ensures OwnPart(s, AllocateStep(s, t, c, byte, ch), t, c.ref)
  {
    hide OwnPart, At;
    Parts(s, t, c.ref);
    match ch
    case OutOfMemory => BusyMoveOwn(s, t, c, MarkInPlace(c, byte));
    case Fresh(to, words, bytes) =>
      if AllocateStep(s, t, c, byte, ch) == s { SameOwn(s, t, c.ref); }
      else { AllocatedOwn(s, t, c, byte, to, words, bytes); }
    case _ => SameOwn(s, t, c.ref);
  }

  lemma SameOwn(s: State, t: nat, r: Addr)
    requires Before(s, t, r)
    ensures OwnPart(s, s, t, r)
  {
    hide WithMark, Extent, Pinned, UnloggedAll, Unlogged, FinalMeta;
  }

  lemma BusyMoveOwn(s: State, t: nat, c: Call, pc: Pc)
    requires Before(s, t, c.ref) && Busying(PcOf(s, t), c.ref)
    requires PcInv(s, t, pc) && OnOrIdle(pc, c.ref) && Busying(pc, c.ref)
    ensures OwnPart(s, At(s, t, pc), t, c.ref)
  {
    hide WithMark, Extent, Pinned, UnloggedAll, Unlogged, FinalMeta;
  }

  ghost predicate AllocatedPre(s: State, t: nat, c: Call, byte: nat, to: Addr, words: Words, bytes: Bytes) {
    && Before(s, t, c.ref) && PcOf(s, t) == Allocate(c, byte) && to !in s.mem && to !in s.meta
    && c.ref in s.mem && c.ref in s.meta
    && |words| == |Mem(s, c.ref)| && |bytes| == LiveGranules(Meta(s, c.ref))
  }

  lemma AllocatedOwn(s: State, t: nat, c: Call, byte: nat, to: Addr, words: Words, bytes: Bytes)
    requires AllocatedPre(s, t, c, byte, to, words, bytes)
    ensures OwnPart(s, Allocated(s, t, c, byte, to, words, bytes), t, c.ref)
  {
    hide Frame, ByteEvolves, ObjInv, PcInv, RestOk;
    AllocatedFrame(s, t, c, byte, to, words, bytes);
    AllocatedObj(s, t, c, byte, to, words, bytes);
    AllocatedRest(s, t, c, byte, to, words, bytes);
  }

  lemma AllocatedFrame(s: State, t: nat, c: Call, byte: nat, to: Addr, words: Words, bytes: Bytes)
    requires AllocatedPre(s, t, c, byte, to, words, bytes)
    ensures var s' := Allocated(s, t, c, byte, to, words, bytes);
      Frame(s, s', t, c.ref) && ByteEvolves(s, s', t, c.ref) && c.ref in s.orig && OnOrIdle(PcOf(s', t), c.ref)
  {
    hide Extent, Pinned, UnloggedAll, Unlogged, FinalMeta, WithMark, LiveGranules, FrameMem, ByteEvolves;
    AllocatedMem(s, t, c, byte, to, words, bytes);
  }

  lemma AllocatedMem(s: State, t: nat, c: Call, byte: nat, to: Addr, words: Words, bytes: Bytes)
    requires AllocatedPre(s, t, c, byte, to, words, bytes)
    ensures var s' := Allocated(s, t, c, byte, to, words, bytes); FrameMem(s, s', c.ref) && ByteEvolves(s, s', t, c.ref)
  {
    hide Extent, Pinned, UnloggedAll, Unlogged, FinalMeta, WithMark, LiveGranules;
  }

  lemma AllocatedObj(s: State, t: nat, c: Call, byte: nat, to: Addr, words: Words, bytes: Bytes)
    requires AllocatedPre(s, t, c, byte, to, words, bytes)
    ensures var s' := Allocated(s, t, c, byte, to, words, bytes); ObjInv(s', c.ref) && PcInv(s', t, PcOf(s', t))
  {
    hide Extent, Pinned, UnloggedAll, Unlogged, FinalMeta, WithMark, LiveGranules;
    BusyGranules(s, c.ref);
  }

  lemma AllocatedRest(s: State, t: nat, c: Call, byte: nat, to: Addr, words: Words, bytes: Bytes)
    requires AllocatedPre(s, t, c, byte, to, words, bytes)
    ensures RestOk(s, Allocated(s, t, c, byte, to, words, bytes), c.ref)
  {
    hide Extent, Pinned, UnloggedAll, Unlogged, FinalMeta, WithMark, LiveGranules;
  }

  /** Neither the busy mark nor any other changes what the extent bytes say. */
  lemma BusyGranules(s: State, r: Addr)
    requires ObjInv(s, r) && r in s.orig
    ensures LiveGranules(Meta(s, r)) == |Meta0(s, r)|
  {
    hide FinalMeta, UnloggedAll, LiveGranules;
    WithMarkSame(Head0(s, r), MarkOf(s, r));
    var m, m0 := Meta(s, r), Meta0(s, r);
    forall i | 0 <= i < |m| ensures IsEnd(m[i]) == IsEnd(m0[i]) {
      if i > 0 { assert m[i] == m[1..][i - 1] && m0[i] == m0[1..][i - 1]; }
    }
    ExtentGranules(m);
  }

  lemma MarkInPlaceOwn(s: State, t: nat, c: Call, byte: nat)
    requires Before(s, t, c.ref) && PcOf(s, t) == MarkInPlace(c, byte)
    ensures OwnPart(s, MarkInPlaceStep(s, t, c, byte), t, c.ref)
  {
    hide Frame, ByteEvolves, ObjInv, PcInv, RestOk;
    MarkInPlaceFrame(s, t, c, byte);
    MarkInPlaceObj(s, t, c, byte);
    MarkInPlaceRest(s, t, c, byte);
  }

  lemma MarkInPlaceFrame(s: State, t: nat, c: Call, byte: nat)
    requires Before(s, t, c.ref) && PcOf(s, t) == MarkInPlace(c, byte)
    ensures var s' := MarkInPlaceStep(s, t, c, byte);
      Frame(s, s', t, c.ref) && ByteEvolves(s, s', t, c.ref) && c.ref in s.orig && OnOrIdle(PcOf(s', t), c.ref)
  {
    hide Extent, Pinned, UnloggedAll, Unlogged, FinalMeta;
    WithMarkSame(byte, s.current);
  }

  lemma MarkInPlaceObj(s: State, t: nat, c: Call, byte: nat)
    requires Before(s, t, c.ref) && PcOf(s, t) == MarkInPlace(c, byte)
    ensures var s' := MarkInPlaceStep(s, t, c, byte); ObjInv(s', c.ref) && PcInv(s', t, PcOf(s', t))
  {
    hide Extent, Pinned, UnloggedAll, Unlogged, FinalMeta;
    WithMarkSame(byte, s.current);
  }

  lemma MarkInPlaceRest(s: State, t: nat, c: Call, byte: nat)
    requires Before(s, t, c.ref) && PcOf(s, t) == MarkInPlace(c, byte)
    ensures RestOk(s, MarkInPlaceStep(s, t, c, byte), c.ref)
  {
    hide Extent, Pinned, UnloggedAll, Unlogged, FinalMeta;
    WithMarkSame(byte, s.current);
    assert EdgeInv(s, c.edge);
  }

  lemma CopyOwn(s: State, t: nat, c: Call, byte: nat, to: Addr)
    requires Before(s, t, c.ref) && PcOf(s, t) == Copy(c, byte, to)
    ensures OwnPart(s, CopyStep(s, t, c, byte, to), t, c.ref)
  {
    hide Frame, ByteEvolves, ObjInv, PcInv, RestOk;
    CopyFrame(s, t, c, byte, to);
    CopyObj(s, t, c, byte, to);
    CopyRest(s, t, c, byte, to);
  }

  lemma CopyFrame(s: State, t: nat, c: Call, byte: nat, to: Addr)
    requires Before(s, t, c.ref) && PcOf(s, t) == Copy(c, byte, to)
    ensures var s' := CopyStep(s, t, c, byte, to);
      Frame(s, s', t, c.ref) && ByteEvolves(s, s', t, c.ref) && c.ref in s.orig && OnOrIdle(PcOf(s', t), c.ref)
  {
    hide Extent, Pinned, UnloggedAll, Unlogged, FinalMeta, WithMark;
  }

  lemma CopyObj(s: State, t: nat, c: Call, byte: nat, to: Addr)
    requires Before(s, t, c.ref) && PcOf(s, t) == Copy(c, byte, to)
    ensures var s' := CopyStep(s, t, c, byte, to); ObjInv(s', c.ref) && PcInv(s', t, PcOf(s', t))
  {
    hide Extent, Pinned, UnloggedAll, Unlogged, FinalMeta, WithMark;
  }

  lemma CopyRest(s: State, t: nat, c: Call, byte: nat, to: Addr)
    requires Before(s, t, c.ref) && PcOf(s, t) == Copy(c, byte, to)
    ensures RestOk(s, CopyStep(s, t, c, byte, to), c.ref)
  {
    hide Extent, Pinned, UnloggedAll, Unlogged, FinalMeta, WithMark;
  }

  lemma PutPointerOwn(s: State, t: nat, c: Call, byte: nat, to: Addr)
    requires Before(s, t, c.ref) && PcOf(s, t) == PutPointer(c, byte, to)
    ensures OwnPart(s, PutPointerStep(s, t, c, byte, to), t, c.ref)
  {
    hide Frame, ByteEvolves, ObjInv, PcInv, RestOk;
    PutPointerFrame(s, t, c, byte, to);
    PutPointerObj(s, t, c, byte, to);
    PutPointerRest(s, t, c, byte, to);
  }

  lemma PutPointerFrame(s: State, t: nat, c: Call, byte: nat, to: Addr)
    requires Before(s, t, c.ref) && PcOf(s, t) == PutPointer(c, byte, to)
    ensures var s' := PutPointerStep(s, t, c, byte, to);
      Frame(s, s', t, c.ref) && ByteEvolves(s, s', t, c.ref) && c.ref in s.orig && OnOrIdle(PcOf(s', t), c.ref)
  {
    hide Extent, Pinned, UnloggedAll, Unlogged, FinalMeta, WithMark;
  }

  lemma PutPointerObj(s: State, t: nat, c: Call, byte: nat, to: Addr)
    requires Before(s, t, c.ref) && PcOf(s, t) == PutPointer(c, byte, to)
    ensures var s' := PutPointerStep(s, t, c, byte, to); ObjInv(s', c.ref) && PcInv(s', t, PcOf(s', t))
  {
    hide Extent, Pinned, UnloggedAll, Unlogged, FinalMeta, WithMark;
  }

  lemma PutPointerRest(s: State, t: nat, c: Call, byte: nat, to: Addr)
    requires Before(s, t, c.ref) && PcOf(s, t) == PutPointer(c, byte, to)
    ensures RestOk(s, PutPointerStep(s, t, c, byte, to), c.ref)
  {
    hide Extent, Pinned, UnloggedAll, Unlogged, FinalMeta, WithMark;
  }

  lemma PutForwardedOwn(s: State, t: nat, c: Call, byte: nat, to: Addr)
    requires Before(s, t, c.ref) && PcOf(s, t) == PutForwarded(c, byte, to)
    ensures OwnPart(s, At(SetHead(s, c.ref, WithMark(byte, Forwarded)), t, CopyExtent(c, byte, to)), t, c.ref)
  {
    hide Frame, ByteEvolves, ObjInv, PcInv, RestOk;
    PutForwardedFrame(s, t, c, byte, to);
    PutForwardedObj(s, t, c, byte, to);
    PutForwardedRest(s, t, c, byte, to);
  }

  lemma PutForwardedFrame(s: State, t: nat, c: Call, byte: nat, to: Addr)
    requires Before(s, t, c.ref) && PcOf(s, t) == PutForwarded(c, byte, to)
    ensures var s' := At(SetHead(s, c.ref, WithMark(byte, Forwarded)), t, CopyExtent(c, byte, to));
      Frame(s, s', t, c.ref) && ByteEvolves(s, s', t, c.ref) && c.ref in s.orig && OnOrIdle(PcOf(s', t), c.ref)
  {
    hide Extent, Pinned, UnloggedAll, Unlogged, FinalMeta;
    WithMarkSame(byte, Forwarded);
  }

  lemma PutForwardedObj(s: State, t: nat, c: Call, byte: nat, to: Addr)
    requires Before(s, t, c.ref) && PcOf(s, t) == PutForwarded(c, byte, to)
    ensures var s' := At(SetHead(s, c.ref, WithMark(byte, Forwarded)), t, CopyExtent(c, byte, to)); ObjInv(s', c.ref) && PcInv(s', t, PcOf(s', t))
  {
    hide Extent, Pinned, UnloggedAll, Unlogged, FinalMeta;
    WithMarkSame(byte, Forwarded);
  }

  lemma PutForwardedRest(s: State, t: nat, c: Call, byte: nat, to: Addr)
    requires Before(s, t, c.ref) && PcOf(s, t) == PutForwarded(c, byte, to)
    ensures RestOk(s, At(SetHead(s, c.ref, WithMark(byte, Forwarded)), t, CopyExtent(c, byte, to)), c.ref)
  {
    hide Extent, Pinned, UnloggedAll, Unlogged, FinalMeta;
    WithMarkSame(byte, Forwarded);
  }

  lemma CopyExtentOwn(s: State, t: nat, c: Call, byte: nat, to: Addr)
    requires Before(s, t, c.ref) && PcOf(s, t) == CopyExtent(c, byte, to)
    ensures OwnPart(s, CopyExtentStep(s, t, c, byte, to), t, c.ref)
  {
    hide Frame, ByteEvolves, ObjInv, PcInv, RestOk;
    CopyExtentFrame(s, t, c, byte, to);
    CopyExtentObj(s, t, c, byte, to);
    CopyExtentRest(s, t, c, byte, to);
  }

  lemma CopyExtentFrame(s: State, t: nat, c: Call, byte: nat, to: Addr)
    requires Before(s, t, c.ref) && PcOf(s, t) == CopyExtent(c, byte, to)
    ensures var s' := CopyExtentStep(s, t, c, byte, to);
      Frame(s, s', t, c.ref) && ByteEvolves(s, s', t, c.ref) && c.ref in s.orig && OnOrIdle(PcOf(s', t), c.ref)
  {
    hide Extent, Pinned, UnloggedAll, Unlogged, FinalMeta, WithMark;
  }

  lemma CopyExtentObj(s: State, t: nat, c: Call, byte: nat, to: Addr)
    requires Before(s, t, c.ref) && PcOf(s, t) == CopyExtent(c, byte, to)
    ensures var s' := CopyExtentStep(s, t, c, byte, to); ObjInv(s', c.ref) && PcInv(s', t, PcOf(s', t))
  {
    hide Extent, Pinned, UnloggedAll, Unlogged, FinalMeta, WithMark;
  }

  lemma CopyExtentRest(s: State, t: nat, c: Call, byte: nat, to: Addr)
    requires Before(s, t, c.ref) && PcOf(s, t) == CopyExtent(c, byte, to)
    ensures RestOk(s, CopyExtentStep(s, t, c, byte, to), c.ref)
  {
    hide Extent, Pinned, UnloggedAll, Unlogged, FinalMeta, WithMark;
  }

  lemma PutHeadOwn(s: State, t: nat, c: Call, byte: nat, to: Addr)
    requires Before(s, t, c.ref) && PcOf(s, t) == PutHead(c, byte, to)
    ensures OwnPart(s, PutHeadStep(s, t, c, byte, to), t, c.ref)
  {
    hide Frame, ByteEvolves, ObjInv, PcInv, RestOk;
    PutHeadFrame(s, t, c, byte, to);
    PutHeadObj(s, t, c, byte, to);
    PutHeadRest(s, t, c, byte, to);
  }

  lemma PutHeadFrame(s: State, t: nat, c: Call, byte: nat, to: Addr)
    requires Before(s, t, c.ref) && PcOf(s, t) == PutHead(c, byte, to)
    ensures var s' := PutHeadStep(s, t, c, byte, to);
      Frame(s, s', t, c.ref) && ByteEvolves(s, s', t, c.ref) && c.ref in s.orig && OnOrIdle(PcOf(s', t), c.ref)
  {
    hide Extent, Pinned, UnloggedAll, Unlogged, WithMark;
  }

  lemma PutHeadObj(s: State, t: nat, c: Call, byte: nat, to: Addr)
    requires Before(s, t, c.ref) && PcOf(s, t) == PutHead(c, byte, to)
    ensures var s' := PutHeadStep(s, t, c, byte, to); ObjInv(s', c.ref) && PcInv(s', t, PcOf(s', t))
  {
    hide Extent, Pinned, UnloggedAll, Unlogged, WithMark;
  }

  lemma PutHeadRest(s: State, t: nat, c: Call, byte: nat, to: Addr)
    requires Before(s, t, c.ref) && PcOf(s, t) == PutHead(c, byte, to)
    ensures RestOk(s, PutHeadStep(s, t, c, byte, to), c.ref)
  {
    hide Extent, Pinned, UnloggedAll, Unlogged, WithMark;
  }

  lemma WaitOwn(s: State, t: nat, c: Call, base: nat, byte: nat)
    requires Before(s, t, c.ref) && PcOf(s, t) == Wait(c, base, byte)
    ensures OwnPart(s, WaitStep(s, t, c, base, byte), t, c.ref)
  {
    hide OwnPart, Before, At, Finish, IfTracedStep;
    Parts(s, t, c.ref);
    if c.ifTraced {
      IfTracedOwn(s, t, c, base);
    } else {
      WaitBytes(s, t, c, base, byte);
      if byte == WithMark(base, Busy) {
        MoveOwn(s, t, c, Wait(c, base, Head(s, c.ref)));
      } else if byte == WithMark(base, Forwarded) {
        MoveOwn(s, t, c, LoadPointer(c));
      } else {
        FinishOwn(s, t, c, 0);
      }
    }
  }

  lemma WaitBytes(s: State, t: nat, c: Call, base: nat, byte: nat)
    requires ObjInv(s, c.ref) && PcInv(s, t, Wait(c, base, byte)) && !c.ifTraced
    ensures Seen(s, c, Head(s, c.ref))
    ensures byte == WithMark(base, Forwarded) ==> MarkOf(s, c.ref) == Forwarded
    ensures byte != WithMark(base, Busy) && byte != WithMark(base, Forwarded) ==> MarkOf(s, c.ref) == s.current
  {
    WithMarkSame(Head0(s, c.ref), Busy);
    WithMarkSame(Head0(s, c.ref), Forwarded);
    WithMarkSame(Head0(s, c.ref), s.current);
    WithMarkSame(Head0(s, c.ref), MarkOf(s, c.ref));
  }

  lemma UpdateEdgeOwn(s: State, t: nat, c: Call, to: Addr, res: nat, claimed: bool)
    requires Before(s, t, c.ref) && PcOf(s, t) == UpdateEdge(c, to, res, claimed)
    ensures OwnPart(s, UpdateEdgeStep(s, t, c, to, res, claimed), t, c.ref)
  {
    hide Frame, ByteEvolves, ObjInv, PcInv, RestOk;
    UpdateEdgeFrame(s, t, c, to, res, claimed);
    UpdateEdgeObj(s, t, c, to, res, claimed);
    UpdateEdgeRest(s, t, c, to, res, claimed);
  }

  lemma UpdateEdgeFrame(s: State, t: nat, c: Call, to: Addr, res: nat, claimed: bool)
    requires Before(s, t, c.ref) && PcOf(s, t) == UpdateEdge(c, to, res, claimed)
    ensures var s' := UpdateEdgeStep(s, t, c, to, res, claimed);
      Frame(s, s', t, c.ref) && ByteEvolves(s, s', t, c.ref) && c.ref in s.orig && OnOrIdle(PcOf(s', t), c.ref)
  {
    hide Extent, Pinned, UnloggedAll, Unlogged, FinalMeta, WithMark;
  }

  lemma UpdateEdgeObj(s: State, t: nat, c: Call, to: Addr, res: nat, claimed: bool)
    requires Before(s, t, c.ref) && PcOf(s, t) == UpdateEdge(c, to, res, claimed)
    ensures var s' := UpdateEdgeStep(s, t, c, to, res, claimed); ObjInv(s', c.ref) && PcInv(s', t, PcOf(s', t))
  {
    hide Extent, Pinned, UnloggedAll, Unlogged, FinalMeta, WithMark;
  }

  lemma UpdateEdgeRest(s: State, t: nat, c: Call, to: Addr, res: nat, claimed: bool)
    requires Before(s, t, c.ref) && PcOf(s, t) == UpdateEdge(c, to, res, claimed)
    ensures RestOk(s, UpdateEdgeStep(s, t, c, to, res, claimed), c.ref)
  {
    hide Extent, Pinned, UnloggedAll, Unlogged, FinalMeta, WithMark;
    assert EdgeInv(s, c.edge);
  }

  lemma BeforeStep(s: State, t: nat, r: Addr)
    requires Inv(s) && r in s.orig && OnOrIdle(PcOf(s, t), r)
    ensures Before(s, t, r)
  {
    assert ObjInv(s, r) && PcInv(s, t, PcOf(s, t));
  }

  /** An edge that still leads into from-space has not been updated yet. */
  lemma StartOk(s: State, e: nat)
    requires Inv(s) && e in s.edges && s.edges[e] in s.orig
    ensures e in s.edges0 && s.edges0[e] == s.edges[e]
  {
    assert EdgeInv(s, e) && ObjInv(s, s.edges0[e]);
  }

  lemma OwnStep(s: State, t: nat, ch: Choice)
    requires var pc := PcOf(s, t); !pc.Idle? && Before(s, t, pc.c.ref) && PcInv(s, t, pc)
    ensures OwnPart(s, Step(s, t, ch), t, PcOf(s, t).c.ref)
  {
    hide Before, OwnPart, At, SetHead, SwapStep, ClaimStep, AllocateStep, MarkInPlaceStep, CopyStep,
      PutPointerStep, CopyExtentStep, PutHeadStep, WaitStep, UpdateEdgeStep;
    match PcOf(s, t)
    case Swap(c, byte) => SwapOwn(s, t, c, byte);
    case Claim(c, byte) => ClaimOwn(s, t, c, byte);
    case Allocate(c, byte) => AllocateOwn(s, t, c, byte, ch);
    case MarkInPlace(c, byte) => MarkInPlaceOwn(s, t, c, byte);
    case Copy(c, byte, to) => CopyOwn(s, t, c, byte, to);
    case PutPointer(c, byte, to) => PutPointerOwn(s, t, c, byte, to);
    case PutForwarded(c, byte, to) => PutForwardedOwn(s, t, c, byte, to);
    case CopyExtent(c, byte, to) => CopyExtentOwn(s, t, c, byte, to);
    case PutHead(c, byte, to) => PutHeadOwn(s, t, c, byte, to);
    case Wait(c, base, byte) => WaitOwn(s, t, c, base, byte);
    case LoadPointer(c) => MoveOwn(s, t, c, UpdateEdge(c, Pointer(s, c.ref), if c.ifTraced then 1 else 0, false));
    case UpdateEdge(c, to, res, claimed) => UpdateEdgeOwn(s, t, c, to, res, claimed);
  }

  /** Every step either changes nothing or is a step on one object. */
  lemma StepOn(s: State, t: nat, ch: Choice) returns (r: Addr)
    requires Inv(s)
    ensures Step(s, t, ch) == s || OwnPart(s, Step(s, t, ch), t, r)
  {
    hide Before, OwnPart, StartStep, ObjInv;
    var pc := PcOf(s, t);
    assert PcInv(s, t, pc);
    r := 0;
    if pc.Idle? {
      if ch.Start? && ch.edge in s.edges && s.edges[ch.edge] in s.orig {
        r := s.edges[ch.edge];
        StartOk(s, ch.edge);
        BeforeStep(s, t, r);
        StartOwn(s, t, Call(ch.edge, r, ch.ifTraced));
      }
    } else {
      r := pc.c.ref;
      RefOk(s, t);
      BeforeStep(s, t, r);
      OwnStep(s, t, ch);
    }
  }

  lemma RefOk(s: State, t: nat)
    requires PcInv(s, t, PcOf(s, t)) && !PcOf(s, t).Idle?
    ensures PcOf(s, t).c.ref in s.orig
  {
  }

  lemma StepInv(s: State, t: nat, ch: Choice)
    requires Inv(s)
    ensures Inv(Step(s, t, ch))
  {
    hide OwnPart, Step;
    var r := StepOn(s, t, ch);
    if Step(s, t, ch) != s { StepKeeps(s, Step(s, t, ch), t, r); }
  }

  // ---------- Runs ----------

  ghost predicate Next(s: State, s': State) {
    exists t, ch :: s' == Step(s, t, ch)
  }

  ghost predicate IsRun(run: seq<State>) {
    && run != [] && Init(run[0])
    && forall i :: 0 <= i < |run| - 1 ==> Next(run[i], run[i + 1])
  }

  lemma {:induction false} RunInv(run: seq<State>)
    requires IsRun(run)
    ensures Inv(run[|run| - 1])
  {
    hide Inv, Init, Step;
    if |run| == 1 {
      InitInv(run[0]);
    } else {
      var front := run[..|run| - 1];
      assert IsRun(front) by {
        forall i | 0 <= i < |front| - 1 ensures Next(front[i], front[i + 1]) { assert Next(run[i], run[i + 1]); }
      }
      RunInv(front);
      assert Next(run[|run| - 2], run[|run| - 1]);
      var t, ch :| run[|run| - 1] == Step(run[|run| - 2], t, ch);
      StepInv(run[|run| - 2], t, ch);
    }
  }

  // ---------- Main results ----------

  /** Of all the calls that shade one object in one cycle, however they raced and whichever way the
      object went, at most one returns 1; and once the object is shaded exactly one has, or is
      about to.  An object that was marked before the cycle began gets none. */
  lemma ShadedOnce(run: seq<State>, s: State, r: Addr)
    requires IsRun(run) && s == run[|run| - 1] && r in s.orig
    ensures s.ones[r] <= 1
    ensures Head0(s, r) % 8 == s.current ==> s.ones[r] == 0
    ensures Head0(s, r) % 8 != s.current ==>
      (Shaded(s, r) <==> s.ones[r] == 1 || exists t :: Reporting(PcOf(s, t), r))
    ensures forall t, u :: Reporting(PcOf(s, t), r) && Reporting(PcOf(s, u), r) ==> t == u
  {
    hide Init, FinalMeta, Extent, WithMark;
    RunInv(run);
    assert ObjInv(s, r);
    forall t | Reporting(PcOf(s, t), r)
      ensures MarkOf(s, r) == Forwarded && HolderIs(s, r, t)
    {
      assert PcInv(s, t, PcOf(s, t));
    }
  }

  /** A shading call that has returned leaves its object shaded, and its edge leading to where the
      object now is; so does a successful forward-if-traced. */
  lemma ReturnedMeansShaded(run: seq<State>, s: State, c: Call, res: nat)
    requires IsRun(run) && s == run[|run| - 1] && (c, res) in s.log
    requires !c.ifTraced || res == 1
    ensures Shaded(s, c.ref) && c.edge in s.edges
    ensures s.edges[c.edge] == if MarkOf(s, c.ref) == Forwarded then Pointer(s, c.ref) else c.ref
  {
    hide Init, ObjInv;
    RunInv(run);
    assert LogInv(s, c, res) && EdgeInv(s, c.edge) && ObjInv(s, c.ref);
    ObjMark(s, c.ref);
  }

  /** With every call returned, an object is untouched, or marked in place with only its mark
      changed, or forwarded to one copy: the same words, as many granules, the last one marked
      as the end, and in the generational configuration no logged bits. */
  lemma Outcome(run: seq<State>, s: State, r: Addr)
    requires IsRun(run) && s == run[|run| - 1] && r in s.orig && forall t :: PcOf(s, t).Idle?
    ensures MarkOf(s, r) in {Head0(s, r) % 8, s.current, Forwarded} && MarkOf(s, r) != Busy
    ensures MarkOf(s, r) == Forwarded ==> !Pinned(Head0(s, r)) && r in s.evacuable
    ensures MarkOf(s, r) != Forwarded ==>
      Mem(s, r) == Orig(s, r) && Meta0(s, r) != [] && Meta(s, r) == [WithMark(Head0(s, r), MarkOf(s, r))] + Meta0(s, r)[1..]
    ensures Meta0(s, r) != []
    ensures MarkOf(s, r) == Forwarded ==>
      var to := Pointer(s, r);
      var bytes := [WithMark(Head0(s, r), s.current)] + Meta0(s, r)[1..];
      CopyOf(s, to, r) && MarkOf(s, to) == s.current && Extent(Meta(s, to)) && |Meta(s, to)| == |bytes| &&
      forall i :: 0 <= i < |bytes| ==> Meta(s, to)[i] == if s.generational then bytes[i] % 64 else bytes[i]
  {
    hide Init, Extent, WithMark, FinalMeta;
    RunInv(run);
    assert ObjInv(s, r);
    if MarkOf(s, r) == Forwarded {
      CopyMeta(s.current, s.generational, Meta0(s, r));
    } else {
      assert Meta(s, r) == [Head(s, r)] + Meta(s, r)[1..];
    }
  }

  lemma CopyMeta(current: nat, generational: bool, bytes: Bytes)
    requires Extent(bytes) && IsMark(current)
    ensures var m := FinalMeta(current, generational, bytes);
      && |m| == |bytes| && Extent(m) && m[0] % 8 == current
      && var whole := [WithMark(bytes[0], current)] + bytes[1..];
         forall i :: 0 <= i < |m| ==> m[i] == if generational then whole[i] % 64 else whole[i]
  {
    hide WithMark, IsEnd;
    var m := FinalMeta(current, generational, bytes);
    WithMarkSame(bytes[0], current);
    UnloggedEnd(WithMark(bytes[0], current));
    forall i | 0 <= i < |m| ensures IsEnd(m[i]) == IsEnd(bytes[i]) {
      if i > 0 { UnloggedEnd(bytes[i]); }
    }
  }

  /** Each step moves an object's byte only along these ways: claimed while unpinned and in an evacuated
      block, or marked in place at once because it is not both; and from claimed, by the claimer, on to
      forwarded or to marked.  Nothing but the mark ever changes. */
  lemma MarkTransitions(run: seq<State>, s: State, t: nat, ch: Choice, r: Addr)
    requires IsRun(run) && s == run[|run| - 1] && r in s.orig
    ensures var s', pc := Step(s, t, ch), PcOf(s, t);
      var evacuate := !Pinned(Head0(s, r)) && r in s.evacuable;
      var mark, mark' := MarkOf(s, r), MarkOf(s', r);
      && Head(s', r) == WithMark(Head0(s, r), mark')
      && (mark' != mark ==>
            || (mark == Head0(s, r) % 8 && mark' == Busy && pc.Claim? && pc.c.ref == r && evacuate)
            || (mark == Head0(s, r) % 8 && mark' == s.current && pc.Swap? && pc.c.ref == r && !evacuate)
            || (mark == Busy && mark' == s.current && pc.MarkInPlace? && pc.c.ref == r && evacuate)
            || (mark == Busy && mark' == Forwarded && pc.PutForwarded? && pc.c.ref == r && evacuate))
  {
    hide Init, Inv, ObjInv, OwnPart, Step, WithMark, Pinned;
    RunInv(run);
    StepInv(s, t, ch);
    ByteIs(s, r);
    var x := StepOn(s, t, ch);
    if Step(s, t, ch) != s {
      StepConsts(s, Step(s, t, ch), t, x);
      ByteIs(Step(s, t, ch), r);
      if x != r {
        OtherByte(s, Step(s, t, ch), t, x, r);
      } else if PcOf(s, t).Idle? {
        MetaSame(s, t, ch);
        HeadSame(s, Step(s, t, ch), r);
      } else {
        OwnByte(s, t, ch, r);
      }
    }
  }

  lemma ByteIs(s: State, r: Addr)
    requires Inv(s) && r in s.orig
    ensures Head(s, r) == WithMark(Head0(s, r), MarkOf(s, r)) && IsMark(s.current)
    ensures MarkOf(s, r) in {Head0(s, r) % 8, s.current, Busy, Forwarded}
    ensures MarkOf(s, r) == Busy || MarkOf(s, r) == Forwarded ==> !Pinned(Head0(s, r)) && r in s.evacuable
    ensures r in s.mem && r in s.meta && s.meta[r] != []
  {
    assert ObjInv(s, r);
  }

  lemma StepConsts(s: State, s': State, t: nat, x: Addr)
    requires OwnPart(s, s', t, x)
    ensures SameConsts(s, s') && OnOrIdle(PcOf(s, t), x) && x in s.orig
  {
  }

  lemma OtherByte(s: State, s': State, t: nat, x: Addr, r: Addr)
    requires OwnPart(s, s', t, x) && Inv(s) && r != x && r in s.orig && r in s.mem
    ensures Head(s', r) == Head(s, r)
  {
    assert MemInv(s);
    assert Meta(s', r) == Meta(s, r);
  }

  /** Only four kinds of step store into the first byte of the object they are about. */
  lemma OwnByte(s: State, t: nat, ch: Choice, r: Addr)
    requires Inv(s) && r in s.orig && !PcOf(s, t).Idle? && PcOf(s, t).c.ref == r
    ensures var s', pc := Step(s, t, ch), PcOf(s, t);
      var evacuate := !Pinned(Head0(s, r)) && r in s.evacuable;
      Head(s', r) != Head(s, r) ==>
        && !pc.Idle? && pc.c.ref == r
        && if pc.Claim? then evacuate && MarkOf(s, r) == Head0(s, r) % 8 && MarkOf(s', r) == Busy
           else if pc.Swap? then !evacuate && MarkOf(s', r) == s.current && MarkOf(s, r) != Busy && MarkOf(s, r) != Forwarded
           else if pc.MarkInPlace? then evacuate && MarkOf(s, r) == Busy && MarkOf(s', r) == s.current
           else pc.PutForwarded? && evacuate && MarkOf(s, r) == Busy && MarkOf(s', r) == Forwarded
  {
    hide Inv, WithMark, Pinned, StartStep, WaitStep, UpdateEdgeStep, SetHead, At, Finish, ObjInv, Head,
      SwapStep, ClaimStep, AllocateStep, MarkInPlaceStep, CopyStep, PutPointerStep, CopyExtentStep, PutHeadStep;
    ByteIs(s, r);
    var pc := PcOf(s, t);
    PointIs(s, t);
    match pc
    case Swap(c, byte) => SwapHead(s, t, c, byte);
    case Claim(c, byte) => ClaimHead(s, t, c, byte);
    case MarkInPlace(c, byte) => MarkInPlaceHead(s, t, c, byte);
    case PutForwarded(c, byte, to) => PutForwardedHead(s, t, c, byte, to);
    case Allocate(c, byte) => AllocateHead(s, t, c, byte, ch);
    case CopyExtent(c, byte, to) => CopyExtentHead(s, t, c, byte, to);
    case PutHead(c, byte, to) => PutHeadHead(s, t, c, byte, to);
    case _ =>
      MetaSame(s, t, ch);
      HeadSame(s, Step(s, t, ch), r);
  }

  lemma HeadSame(s: State, s': State, r: Addr)
    requires s'.meta == s.meta
    ensures Head(s', r) == Head(s, r)
  {
  }

  /** What is known of a thread's object where it is about to store. */
  lemma PointIs(s: State, t: nat)
    requires Inv(s) && !PcOf(s, t).Idle?
    ensures var pc := PcOf(s, t); var r := pc.c.ref;
      && r in s.orig && (pc.Swap? ==> pc.byte == Head0(s, r) && !ShouldEvacuate(s, pc.byte, r))
      && (pc.Claim? ==> ShouldEvacuate(s, Head0(s, r), r) && (YoungOrSurvivor(s, pc.byte) ==> pc.byte == Head0(s, r)))
      && (pc.MarkInPlace? || pc.PutForwarded? ==> pc.byte == Head0(s, r) && ShouldEvacuate(s, pc.byte, r) && MarkOf(s, r) == Busy)
      && (pc.CopyExtent? || pc.PutHead? ==> pc.to !in s.orig)
  {
    hide Pinned, WithMark;
    var pc := PcOf(s, t);
    assert PcInv(s, t, pc) && ObjInv(s, pc.c.ref);
    WithMarkSame(Head0(s, pc.c.ref), Busy);
    WithMarkSame(Head0(s, pc.c.ref), Forwarded);
  }

  lemma SetHeadIs(s: State, r: Addr, byte: nat)
    requires r in s.meta && s.meta[r] != []
    ensures Head(SetHead(s, r, byte), r) == byte
  {
  }

  lemma SwapHead(s: State, t: nat, c: Call, byte: nat)
    requires c.ref in s.meta && s.meta[c.ref] != [] && s.current < 8
    ensures MarkOf(SwapStep(s, t, c, byte), c.ref) == s.current
  {
    hide WithMark, Head, SetHead;
    SetHeadIs(s, c.ref, WithMark(byte, s.current));
    WithMarkSame(byte, s.current);
    HeadSame(SetHead(s, c.ref, WithMark(byte, s.current)), SwapStep(s, t, c, byte), c.ref);
  }

  lemma MarkInPlaceHead(s: State, t: nat, c: Call, byte: nat)
    requires c.ref in s.meta && s.meta[c.ref] != [] && s.current < 8
    ensures MarkOf(MarkInPlaceStep(s, t, c, byte), c.ref) == s.current
  {
    hide WithMark, Head, SetHead;
    SetHeadIs(s, c.ref, WithMark(byte, s.current));
    WithMarkSame(byte, s.current);
    HeadSame(SetHead(s, c.ref, WithMark(byte, s.current)), MarkInPlaceStep(s, t, c, byte), c.ref);
  }

  lemma PutForwardedHead(s: State, t: nat, c: Call, byte: nat, to: Addr)
    requires c.ref in s.meta && s.meta[c.ref] != []
    ensures MarkOf(At(SetHead(s, c.ref, WithMark(byte, Forwarded)), t, CopyExtent(c, byte, to)), c.ref) == Forwarded
  {
    hide WithMark, Head, SetHead;
    SetHeadIs(s, c.ref, WithMark(byte, Forwarded));
    WithMarkSame(byte, Forwarded);
    HeadSame(SetHead(s, c.ref, WithMark(byte, Forwarded)),
             At(SetHead(s, c.ref, WithMark(byte, Forwarded)), t, CopyExtent(c, byte, to)), c.ref);
  }

  lemma ClaimHead(s: State, t: nat, c: Call, byte: nat)
    requires c.ref in s.meta && s.meta[c.ref] != []
    ensures var s' := ClaimStep(s, t, c, byte);
      Head(s', c.ref) != Head(s, c.ref) ==> YoungOrSurvivor(s, byte) && Head(s, c.ref) == byte && MarkOf(s', c.ref) == Busy
  {
    hide WithMark, Head, SetHead, YoungOrSurvivor;
    if YoungOrSurvivor(s, byte) && Head(s, c.ref) == byte {
      SetHeadIs(s, c.ref, WithMark(byte, Busy));
      WithMarkSame(byte, Busy);
      HeadSame(SetHead(s, c.ref, WithMark(byte, Busy)), Claimed(s, t, c, byte), c.ref);
    } else {
      HeadSame(s, ClaimStep(s, t, c, byte), c.ref);
    }
  }

  lemma AllocateHead(s: State, t: nat, c: Call, byte: nat, ch: Choice)
    requires c.ref in s.meta
    ensures Head(AllocateStep(s, t, c, byte, ch), c.ref) == Head(s, c.ref)
  {
  }

  lemma CopyExtentHead(s: State, t: nat, c: Call, byte: nat, to: Addr)
    requires c.ref != to
    ensures Head(CopyExtentStep(s, t, c, byte, to), c.ref) == Head(s, c.ref)
  {
  }

  lemma PutHeadHead(s: State, t: nat, c: Call, byte: nat, to: Addr)
    requires c.ref != to
    ensures Head(PutHeadStep(s, t, c, byte, to), c.ref) == Head(s, c.ref)
  {
  }

  lemma MetaSame(s: State, t: nat, ch: Choice)
    requires var pc := PcOf(s, t);
      pc.Idle? || pc.Wait? || pc.LoadPointer? || pc.UpdateEdge? || pc.Copy? || pc.PutPointer?
    ensures Step(s, t, ch).meta == s.meta
  {
    hide WithMark, Head, SwapStep, ClaimStep, AllocateStep, MarkInPlaceStep, CopyExtentStep, PutHeadStep, SetHead,
      StartStep, WaitStep, UpdateEdgeStep, CopyStep, PutPointerStep, At;
    match PcOf(s, t)
    case Idle =>
      if ch.Start? && ch.edge in s.edges && s.edges[ch.edge] in s.orig {
        StartMeta(s, t, Call(ch.edge, s.edges[ch.edge], ch.ifTraced));
      }
    case Wait(c, base, byte) => WaitMeta(s, t, c, base, byte);
    case LoadPointer(c) => AtMeta(s, t, UpdateEdge(c, Pointer(s, c.ref), if c.ifTraced then 1 else 0, false));
    case UpdateEdge(c, to, res, claimed) => UpdateEdgeMeta(s, t, c, to, res, claimed);
    case Copy(c, byte, to) => CopyMetaSame(s, t, c, byte, to);
    case PutPointer(c, byte, to) => PutPointerMeta(s, t, c, byte, to);
  }

  lemma AtMeta(s: State, t: nat, pc: Pc)
    ensures At(s, t, pc).meta == s.meta && At(s, t, pc).pcs == s.pcs[t := pc]
  {
  }

  lemma StartMeta(s: State, t: nat, c: Call)
    ensures StartStep(s, t, c).meta == s.meta
  {
    hide IfTracedStep, At, Finish;
    StartSays(s, t, c);
  }

  /** What a step that only looks leaves alone. */
  ghost predicate Looks(s: State, s': State) {
    s'.meta == s.meta && s'.mem == s.mem && s'.edges == s.edges && s'.ones == s.ones
  }

  lemma AtLooks(s: State, t: nat, pc: Pc)
    ensures Looks(s, At(s, t, pc)) && At(s, t, pc).log == s.log
  {
  }

  lemma FinishLooks(s: State, t: nat, c: Call, res: nat)
    ensures Looks(s, Finish(s, t, c, res)) && Finish(s, t, c, res).log == s.log + {(c, res)}
  {
  }

  lemma IfTracedSays(s: State, t: nat, c: Call, base: nat)
    ensures var s', byte := IfTracedStep(s, t, c, base), Head(s, c.ref);
      && Looks(s, s')
      && s'.log == if byte == WithMark(base, Busy) || byte == WithMark(base, Forwarded) then s.log
                   else s.log + {(c, if byte % 8 == s.current then 1 else 0)}
  {
    hide At, Finish, Head, WithMark, Looks;
    var byte := Head(s, c.ref);
    AtLooks(s, t, Wait(c, base, byte));
    AtLooks(s, t, LoadPointer(c));
    FinishLooks(s, t, c, if byte % 8 == s.current then 1 else 0);
  }

  lemma StartSays(s: State, t: nat, c: Call)
    ensures var s', byte := StartStep(s, t, c), Head(s, c.ref);
      && Looks(s, s')
      && s'.log == if c.ifTraced then IfTracedStep(s, t, c, byte).log else if byte % 8 == s.current then s.log + {(c, 0)} else s.log
  {
    hide At, Finish, Head, ShouldEvacuate, IfTracedStep, Looks;
    var byte := Head(s, c.ref);
    IfTracedSays(s, t, c, byte);
    FinishLooks(s, t, c, 0);
    AtLooks(s, t, Claim(c, byte));
    AtLooks(s, t, Swap(c, byte));
  }

  lemma WaitSays(s: State, t: nat, c: Call, base: nat, byte: nat)
    ensures var s' := WaitStep(s, t, c, base, byte);
      && Looks(s, s')
      && (c.ifTraced ==> s' == IfTracedStep(s, t, c, base))
      && (!c.ifTraced ==> s'.log == s.log || s'.log == s.log + {(c, 0)})
  {
    hide At, Finish, Head, WithMark, IfTracedStep, Looks;
    IfTracedSays(s, t, c, base);
    FinishLooks(s, t, c, 0);
    AtLooks(s, t, Wait(c, base, Head(s, c.ref)));
    AtLooks(s, t, LoadPointer(c));
  }

  lemma WaitMeta(s: State, t: nat, c: Call, base: nat, byte: nat)
    ensures WaitStep(s, t, c, base, byte).meta == s.meta
  {
    hide IfTracedStep, At, Finish, WithMark;
    WaitSays(s, t, c, base, byte);
  }

  lemma UpdateEdgeMeta(s: State, t: nat, c: Call, to: Addr, res: nat, claimed: bool)
    ensures UpdateEdgeStep(s, t, c, to, res, claimed).meta == s.meta
  {
  }

  lemma CopyMetaSame(s: State, t: nat, c: Call, byte: nat, to: Addr)
    ensures CopyStep(s, t, c, byte, to).meta == s.meta
  {
  }

  lemma PutPointerMeta(s: State, t: nat, c: Call, byte: nat, to: Addr)
    ensures PutPointerStep(s, t, c, byte, to).meta == s.meta
  {
  }

  /** What a result says about the moment at which the call returns.  The if-traced call answers 0 only for a byte
      that is neither busy, nor forwarded, nor marked in this cycle, and then nothing has changed; and a
      shading call is counted for its object just when it returns 1. */
  lemma ResultsMean(run: seq<State>, s: State, t: nat, ch: Choice, c: Call, res: nat)
    requires IsRun(run) && s == run[|run| - 1]
    requires (c, res) in Step(s, t, ch).log && (c, res) !in s.log
    ensures var s' := Step(s, t, ch);
      && c.ref in s.orig && res <= 1
      && (c.ifTraced && res == 0 ==> MarkOf(s, c.ref) !in {Busy, Forwarded, s.current} && Looks(s, s'))
      && (c.ifTraced && res == 1 ==> Shaded(s, c.ref))
      && s'.ones == s.ones + if !c.ifTraced && res == 1 then multiset{c.ref} else multiset{}
  {
    hide Init, Inv, ObjInv, StartStep, WaitStep, IfTracedStep, SwapStep, ClaimStep, AllocateStep, MarkInPlaceStep, CopyStep,
      PutPointerStep, CopyExtentStep, PutHeadStep, UpdateEdgeStep, At, Finish, SetHead, WithMark, Head, Looks;
    RunInv(run);
    CallIs(s, t);
    match PcOf(s, t)
    case Idle =>
      if ch.Start? && ch.edge in s.edges && s.edges[ch.edge] in s.orig {
        var d := Call(ch.edge, s.edges[ch.edge], ch.ifTraced);
        StartSays(s, t, d);
        IfTracedSays(s, t, d, Head(s, d.ref));
        IfTracedMarks(s, d.ref, Head(s, d.ref));
        LooksOnes(s, StartStep(s, t, d));
      }
    case Wait(d, base, byte) =>
      WaitSays(s, t, d, base, byte);
      IfTracedSays(s, t, d, base);
      IfTracedMarks(s, d.ref, base);
      LooksOnes(s, WaitStep(s, t, d, base, byte));
    case Swap(d, byte) => SwapSays(s, t, d, byte);
    case MarkInPlace(d, byte) => MarkInPlaceSays(s, t, d, byte);
    case UpdateEdge(d, to, r, claimed) => UpdateEdgeSays(s, t, d, to, r, claimed);
    case _ => NothingSaid(s, t, ch);
  }

  lemma LooksOnes(s: State, s': State)
    ensures Looks(s, s') ==> s'.ones == s.ones
  {
  }

  lemma CallIs(s: State, t: nat)
    requires Inv(s)
    ensures var pc := PcOf(s, t);
      && (!pc.Idle? ==> pc.c.ref in s.orig)
      && (pc.Wait? ==> forall m: nat :: WithMark(pc.base, m) == WithMark(Head0(s, pc.c.ref), m))
      && (pc.Swap? || pc.MarkInPlace? ==> !pc.c.ifTraced)
      && (pc.UpdateEdge? ==> MarkOf(s, pc.c.ref) == Forwarded && pc.res <= 1 && (pc.res == 1 <==> pc.claimed || pc.c.ifTraced) &&
                             (pc.claimed ==> !pc.c.ifTraced))
    ensures forall r :: r in s.orig ==> Head(s, r) == WithMark(Head0(s, r), MarkOf(s, r)) && IsMark(s.current)
  {
    hide WithMark, Pinned;
    assert PcInv(s, t, PcOf(s, t));
    forall r | r in s.orig ensures Head(s, r) == WithMark(Head0(s, r), MarkOf(s, r)) && IsMark(s.current) { assert ObjInv(s, r); }
  }

  lemma IfTracedMarks(s: State, r: Addr, base: nat)
    requires Head(s, r) == WithMark(Head0(s, r), MarkOf(s, r))
    requires (forall m: nat :: WithMark(base, m) == WithMark(Head0(s, r), m)) || base == Head(s, r)
    ensures Head(s, r) == WithMark(base, Busy) <==> MarkOf(s, r) == Busy
    ensures Head(s, r) == WithMark(base, Forwarded) <==> MarkOf(s, r) == Forwarded
  {
    hide WithMark, Head;
    WithMarkSame(Head0(s, r), MarkOf(s, r));
    WithMarkSame(base, Busy);
    WithMarkSame(base, Forwarded);
    if base == Head(s, r) { WithMarkSame(base, base % 8); }
  }

  lemma SwapSays(s: State, t: nat, c: Call, byte: nat)
    ensures var s', res := SwapStep(s, t, c, byte), if WithMark(byte, s.current) != Head(s, c.ref) then 1 else 0;
      s'.log == s.log + {(c, res)} && s'.ones == s.ones + if res == 1 then multiset{c.ref} else multiset{}
  {
    hide WithMark, Head;
  }

  lemma MarkInPlaceSays(s: State, t: nat, c: Call, byte: nat)
    ensures var s' := MarkInPlaceStep(s, t, c, byte); s'.log == s.log + {(c, 1)} && s'.ones == s.ones + multiset{c.ref}
  {
    hide WithMark, Head;
  }

  lemma UpdateEdgeSays(s: State, t: nat, c: Call, to: Addr, res: nat, claimed: bool)
    ensures var s' := UpdateEdgeStep(s, t, c, to, res, claimed);
      s'.log == s.log + {(c, res)} && s'.ones == s.ones + if claimed then multiset{c.ref} else multiset{}
  {
  }

  lemma NothingSaid(s: State, t: nat, ch: Choice)
    requires var pc := PcOf(s, t); !pc.Idle? && !pc.Wait? && !pc.Swap? && !pc.MarkInPlace? && !pc.UpdateEdge?
    ensures var s' := Step(s, t, ch);
      s'.log == s.log && s'.ones == s.ones && (PcOf(s', t).MarkInPlace? ==> PcOf(s, t).Allocate? && ch.OutOfMemory?)
  {
    hide WithMark, Head, SetHead, StartStep, WaitStep, IfTracedStep, SwapStep, ClaimStep, AllocateStep, MarkInPlaceStep, CopyStep,
      PutPointerStep, CopyExtentStep, PutHeadStep, UpdateEdgeStep, Finish, At;
    match PcOf(s, t)
    case Claim(c, byte) => ClaimSilent(s, t, c, byte);
    case Allocate(c, byte) => AllocateSilent(s, t, c, byte, ch);
    case Copy(c, byte, to) => CopySilent(s, t, c, byte, to);
    case PutPointer(c, byte, to) => PutPointerSilent(s, t, c, byte, to);
    case PutForwarded(c, byte, to) =>
      SetHeadSilent(s, c.ref, WithMark(byte, Forwarded));
      AtSilent(SetHead(s, c.ref, WithMark(byte, Forwarded)), t, CopyExtent(c, byte, to));
    case CopyExtent(c, byte, to) => CopyExtentSilent(s, t, c, byte, to);
    case PutHead(c, byte, to) => PutHeadSilent(s, t, c, byte, to);
    case LoadPointer(c) => AtSilent(s, t, UpdateEdge(c, Pointer(s, c.ref), if c.ifTraced then 1 else 0, false));
  }

  ghost predicate Silent(s: State, s': State, t: nat) {
    s'.log == s.log && s'.ones == s.ones && !PcOf(s', t).MarkInPlace?
  }

  lemma AtSilent(s: State, t: nat, pc: Pc)
    requires !pc.MarkInPlace?
    ensures Silent(s, At(s, t, pc), t)
  {
  }

  lemma SetHeadSilent(s: State, r: Addr, byte: nat)
    ensures SetHead(s, r, byte).log == s.log && SetHead(s, r, byte).ones == s.ones
  {
  }

  lemma ClaimSilent(s: State, t: nat, c: Call, byte: nat)
    ensures Silent(s, ClaimStep(s, t, c, byte), t)
  {
    hide WithMark, Head, SetHead, YoungOrSurvivor, At, Claimed;
    ClaimedSilent(s, t, c, byte);
    AtSilent(s, t, Wait(c, byte, byte));
    AtSilent(s, t, Wait(c, byte, Head(s, c.ref)));
  }

  lemma ClaimedSilent(s: State, t: nat, c: Call, byte: nat)
    ensures Silent(s, Claimed(s, t, c, byte), t)
  {
    hide WithMark, SetHead;
    SetHeadSilent(s, c.ref, WithMark(byte, Busy));
  }

  lemma AllocateSilent(s: State, t: nat, c: Call, byte: nat, ch: Choice)
    requires PcOf(s, t) == Allocate(c, byte)
    ensures var s' := AllocateStep(s, t, c, byte, ch);
      s'.log == s.log && s'.ones == s.ones && (PcOf(s', t).MarkInPlace? ==> ch.OutOfMemory?)
  {
  }

  lemma CopySilent(s: State, t: nat, c: Call, byte: nat, to: Addr)
    ensures Silent(s, CopyStep(s, t, c, byte, to), t)
  {
  }

  lemma PutPointerSilent(s: State, t: nat, c: Call, byte: nat, to: Addr)
    ensures Silent(s, PutPointerStep(s, t, c, byte, to), t)
  {
  }

  lemma CopyExtentSilent(s: State, t: nat, c: Call, byte: nat, to: Addr)
    ensures Silent(s, CopyExtentStep(s, t, c, byte, to), t)
  {
  }

  lemma PutHeadSilent(s: State, t: nat, c: Call, byte: nat, to: Addr)
    ensures Silent(s, PutHeadStep(s, t, c, byte, to), t)
  {
  }

  /** An object that was claimed is marked in place only for want of memory. */
  lemma OnlyOutOfMemoryMarks(run: seq<State>, s: State, t: nat, ch: Choice)
    requires IsRun(run) && s == run[|run| - 1] && PcOf(Step(s, t, ch), t).MarkInPlace? && !PcOf(s, t).MarkInPlace?
    ensures PcOf(s, t).Allocate? && ch.OutOfMemory?
  {
    hide WithMark, Head, SetHead, ClaimStep, AllocateStep, MarkInPlaceStep, CopyStep, PutPointerStep, CopyExtentStep, PutHeadStep;
    var pc := PcOf(s, t);
    if pc.Idle? || pc.Wait? || pc.Swap? || pc.UpdateEdge? { EndsElsewhere(s, t, ch); } else { NothingSaid(s, t, ch); }
  }

  lemma EndsElsewhere(s: State, t: nat, ch: Choice)
    requires var pc := PcOf(s, t); pc.Idle? || pc.Wait? || pc.Swap? || pc.UpdateEdge?
    ensures !PcOf(Step(s, t, ch), t).MarkInPlace?
  {
    hide WithMark, Head, StartStep, WaitStep, SwapStep, UpdateEdgeStep, IfTracedStep, ClaimStep, AllocateStep, MarkInPlaceStep,
      CopyStep, PutPointerStep, CopyExtentStep, PutHeadStep, At, SetHead;
    match PcOf(s, t)
    case Idle =>
      if ch.Start? && ch.edge in s.edges && s.edges[ch.edge] in s.orig {
        StartPoint(s, t, Call(ch.edge, s.edges[ch.edge], ch.ifTraced));
      }
    case Wait(c, base, byte) => WaitPoint(s, t, c, base, byte);
    case Swap(c, byte) => SwapPoint(s, t, c, byte);
    case UpdateEdge(c, to, res, claimed) => UpdateEdgePoint(s, t, c, to, res, claimed);
  }

  lemma AtPoint(s: State, t: nat, pc: Pc)
    ensures PcOf(At(s, t, pc), t) == pc
  {
  }

  lemma FinishPoint(s: State, t: nat, c: Call, res: nat)
    ensures PcOf(Finish(s, t, c, res), t) == Idle && (c, res) in Finish(s, t, c, res).log
  {
  }

  /** Thread `t` is still at call `c`, or has returned from it. */
  ghost predicate Serves(s: State, t: nat, c: Call) {
    if PcOf(s, t).Idle? then exists res: nat :: (c, res) in s.log else PcOf(s, t).c == c
  }

  lemma IfTracedPoint(s: State, t: nat, c: Call, base: nat)
    ensures var s' := IfTracedStep(s, t, c, base); !PcOf(s', t).MarkInPlace? && Serves(s', t, c)
  {
    hide At, Finish, Head, WithMark;
    var byte := Head(s, c.ref);
    AtPoint(s, t, Wait(c, base, byte));
    AtPoint(s, t, LoadPointer(c));
    FinishPoint(s, t, c, if byte % 8 == s.current then 1 else 0);
  }

  lemma StartPoint(s: State, t: nat, c: Call)
    ensures var s' := StartStep(s, t, c); !PcOf(s', t).MarkInPlace? && Serves(s', t, c)
  {
    hide At, Finish, Head, ShouldEvacuate, IfTracedStep;
    var byte := Head(s, c.ref);
    IfTracedPoint(s, t, c, byte);
    FinishPoint(s, t, c, 0);
    AtPoint(s, t, Claim(c, byte));
    AtPoint(s, t, Swap(c, byte));
  }

  lemma WaitPoint(s: State, t: nat, c: Call, base: nat, byte: nat)
    ensures var s' := WaitStep(s, t, c, base, byte); !PcOf(s', t).MarkInPlace? && Serves(s', t, c)
  {
    hide At, Finish, Head, WithMark, IfTracedStep;
    IfTracedPoint(s, t, c, base);
    FinishPoint(s, t, c, 0);
    AtPoint(s, t, Wait(c, base, Head(s, c.ref)));
    AtPoint(s, t, LoadPointer(c));
  }

  lemma SwapPoint(s: State, t: nat, c: Call, byte: nat)
    ensures var s' := SwapStep(s, t, c, byte); PcOf(s', t) == Idle && Serves(s', t, c)
  {
    hide Head, WithMark, SetHead;
    assert exists res: nat :: (c, res) in SwapStep(s, t, c, byte).log by {
      assert (c, if WithMark(byte, s.current) != Head(s, c.ref) then 1 else 0) in SwapStep(s, t, c, byte).log;
    }
  }

  lemma UpdateEdgePoint(s: State, t: nat, c: Call, to: Addr, res: nat, claimed: bool)
    ensures var s' := UpdateEdgeStep(s, t, c, to, res, claimed); PcOf(s', t) == Idle && Serves(s', t, c)
  {
    assert (c, res) in UpdateEdgeStep(s, t, c, to, res, claimed).log;
  }

  /** How many more steps a call takes at most, waiting aside. */
  ghost function Rest(pc: Pc): nat {
    match pc
    case Idle => 0
    case Swap(_, _) => 1
    case MarkInPlace(_, _) => 1
    case UpdateEdge(_, _, _, _) => 1
    case LoadPointer(_) => 2
    case PutHead(_, _, _) => 2
    case CopyExtent(_, _, _) => 3
    case PutForwarded(_, _, _) => 4
    case PutPointer(_, _, _) => 5
    case Copy(_, _, _) => 6
    case Allocate(_, _) => 7
    case Claim(_, _) => 8
    case Wait(_, base, byte) => if byte == WithMark(base, Busy) then 4 else 3
  }

  /** A call goes on until it returns, and then its result is on record. */
  lemma CallsReturn(s: State, t: nat, ch: Choice)
    requires !PcOf(s, t).Idle?
    ensures Serves(Step(s, t, ch), t, PcOf(s, t).c)
  {
    hide WithMark, Head, SetHead, At, SwapStep, UpdateEdgeStep, ClaimStep, AllocateStep, WaitStep, StartStep, MarkInPlaceStep,
      CopyStep, PutPointerStep, CopyExtentStep, PutHeadStep;
    match PcOf(s, t)
    case Swap(c, byte) => SwapPoint(s, t, c, byte);
    case UpdateEdge(c, to, res, claimed) => UpdateEdgePoint(s, t, c, to, res, claimed);
    case Claim(c, byte) => ClaimPoint(s, t, c, byte);
    case Wait(c, base, byte) => WaitPoint(s, t, c, base, byte);
    case Allocate(c, byte) => AllocatePoint(s, t, c, byte, ch);
    case MarkInPlace(c, byte) => MarkInPlacePoint(s, t, c, byte);
    case LoadPointer(c) => AtPoint(s, t, UpdateEdge(c, Pointer(s, c.ref), if c.ifTraced then 1 else 0, false));
    case PutForwarded(c, byte, to) => AtPoint(SetHead(s, c.ref, WithMark(byte, Forwarded)), t, CopyExtent(c, byte, to));
    case Copy(c, byte, to) => CopyPoint(s, t, c, byte, to);
    case PutPointer(c, byte, to) => PutPointerPoint(s, t, c, byte, to);
    case CopyExtent(c, byte, to) => CopyExtentPoint(s, t, c, byte, to);
    case PutHead(c, byte, to) => PutHeadPoint(s, t, c, byte, to);
  }

  lemma AllocatePoint(s: State, t: nat, c: Call, byte: nat, ch: Choice)
    requires PcOf(s, t) == Allocate(c, byte)
    ensures Serves(AllocateStep(s, t, c, byte, ch), t, c)
  {
    hide At, LiveGranules, Allocated;
    AtPoint(s, t, MarkInPlace(c, byte));
    if ch.Fresh? { AllocatedPoint(s, t, c, byte, ch.to, ch.words, ch.bytes); }
  }

  lemma CallsBegin(s: State, t: nat, edge: nat, ifTraced: bool)
    requires PcOf(s, t).Idle? && edge in s.edges && s.edges[edge] in s.orig
    ensures Serves(Step(s, t, Start(edge, ifTraced)), t, Call(edge, s.edges[edge], ifTraced))
  {
    hide StartStep, Serves;
    StartPoint(s, t, Call(edge, s.edges[edge], ifTraced));
  }

  /** The allocator's answer: no memory, or new memory for as many words and granules as the object has. */
  ghost predicate Answers(s: State, r: Addr, ch: Choice) {
    || ch.OutOfMemory?
    || (ch.Fresh? && ch.to !in s.mem && ch.to !in s.meta && |ch.words| == |Mem(s, r)| && |ch.bytes| == |Meta(s, r)|)
  }

  /** No call waits in vain: each step of a thread brings its call nearer to the end, which is at most eight steps
      away, unless it waits for another thread that has claimed the object and is itself not waiting. */
  lemma CallsGoOn(run: seq<State>, s: State, t: nat, ch: Choice)
    requires IsRun(run) && s == run[|run| - 1] && !PcOf(s, t).Idle?
    requires PcOf(s, t).Allocate? ==> Answers(s, PcOf(s, t).c.ref, ch)
    ensures var pc := PcOf(s, t);
      || Rest(PcOf(Step(s, t, ch), t)) < Rest(pc) <= 8
      || (pc.Wait? && MarkOf(s, pc.c.ref) == Busy && pc.c.ref in s.holder && s.holder[pc.c.ref] != t &&
          Busying(PcOf(s, s.holder[pc.c.ref]), pc.c.ref))
  {
    hide Step, Rest, Inv, Busying, Answers, ObjInv, MarkOf, PcInv, IsRun;
    RunInv(run);
    var pc := PcOf(s, t);
    InvAt(s, t);
    if pc.Wait? {
      WaitRest(s, t, ch);
    } else if pc.Allocate? {
      AllocateRest(s, t, ch);
    } else {
      MovesOn(s, t, ch);
    }
  }

  lemma InvAt(s: State, t: nat)
    requires Inv(s)
    ensures PcInv(s, t, PcOf(s, t)) && (!PcOf(s, t).Idle? ==> ObjInv(s, PcOf(s, t).c.ref))
  {
    hide PcInv, ObjInv;
  }

  lemma WaitRest(s: State, t: nat, ch: Choice)
    requires PcOf(s, t).Wait? && PcInv(s, t, PcOf(s, t)) && ObjInv(s, PcOf(s, t).c.ref)
    ensures var pc := PcOf(s, t);
      || Rest(PcOf(Step(s, t, ch), t)) < Rest(pc) <= 8
      || (MarkOf(s, pc.c.ref) == Busy && pc.c.ref in s.holder && s.holder[pc.c.ref] != t &&
          Busying(PcOf(s, s.holder[pc.c.ref]), pc.c.ref))
  {
    hide WithMark, Head, SetHead, At, Finish, IfTracedStep, SwapStep, ClaimStep, AllocateStep, MarkInPlaceStep, CopyStep,
      PutPointerStep, CopyExtentStep, PutHeadStep, UpdateEdgeStep, StartStep, Extent, FinalMeta, ShouldEvacuate, ByteInv, CopyOf;
    var pc := PcOf(s, t);
    var byte := Head(s, pc.c.ref);
    WithMarkSame(pc.base, Busy);
    WithMarkSame(pc.base, Forwarded);
    FinishPoint(s, t, pc.c, 0);
    AtPoint(s, t, Wait(pc.c, pc.base, byte));
    AtPoint(s, t, LoadPointer(pc.c));
    IfTracedRest(s, t, pc.c, pc.base);
  }

  lemma IfTracedRest(s: State, t: nat, c: Call, base: nat)
    ensures Head(s, c.ref) == WithMark(base, Busy) || Rest(PcOf(IfTracedStep(s, t, c, base), t)) < 3
  {
    hide At, Finish, Head, WithMark;
    var byte := Head(s, c.ref);
    AtPoint(s, t, LoadPointer(c));
    FinishPoint(s, t, c, if byte % 8 == s.current then 1 else 0);
  }

  lemma AllocateRest(s: State, t: nat, ch: Choice)
    requires PcOf(s, t).Allocate? && PcInv(s, t, PcOf(s, t)) && ObjInv(s, PcOf(s, t).c.ref)
    requires Answers(s, PcOf(s, t).c.ref, ch)
    ensures Rest(PcOf(Step(s, t, ch), t)) < Rest(PcOf(s, t)) <= 8
  {
    hide WithMark, Head, At, Finish, StartStep, SwapStep, ClaimStep, MarkInPlaceStep, CopyStep, PutPointerStep, CopyExtentStep,
      PutHeadStep, WaitStep, UpdateEdgeStep, Extent, FinalMeta, ShouldEvacuate, ByteInv, CopyOf, Allocated;
    var pc := PcOf(s, t);
    AtPoint(s, t, MarkInPlace(pc.c, pc.byte));
    if ch.Fresh? {
      BusyGranules(s, pc.c.ref);
      AllocatedPoint(s, t, pc.c, pc.byte, ch.to, ch.words, ch.bytes);
    }
  }

  lemma AllocatedPoint(s: State, t: nat, c: Call, byte: nat, to: Addr, words: Words, bytes: Bytes)
    ensures PcOf(Allocated(s, t, c, byte, to, words, bytes), t) == Copy(c, byte, to)
  {
  }

  lemma MovesOn(s: State, t: nat, ch: Choice)
    requires var pc := PcOf(s, t); !pc.Idle? && !pc.Wait? && !pc.Allocate?
    ensures Rest(PcOf(Step(s, t, ch), t)) < Rest(PcOf(s, t)) <= 8
  {
    hide WithMark, Head, SetHead, At, SwapStep, UpdateEdgeStep, ClaimStep, AllocateStep, WaitStep, StartStep, MarkInPlaceStep,
      CopyStep, PutPointerStep, CopyExtentStep, PutHeadStep;
    match PcOf(s, t)
    case Swap(c, byte) => SwapPoint(s, t, c, byte);
    case UpdateEdge(c, to, res, claimed) => UpdateEdgePoint(s, t, c, to, res, claimed);
    case Claim(c, byte) => ClaimPoint(s, t, c, byte);
    case MarkInPlace(c, byte) => MarkInPlacePoint(s, t, c, byte);
    case LoadPointer(c) => AtPoint(s, t, UpdateEdge(c, Pointer(s, c.ref), if c.ifTraced then 1 else 0, false));
    case PutForwarded(c, byte, to) => AtPoint(SetHead(s, c.ref, WithMark(byte, Forwarded)), t, CopyExtent(c, byte, to));
    case _ => CopyingPoint(s, t, ch);
  }

  lemma MarkInPlacePoint(s: State, t: nat, c: Call, byte: nat)
    ensures var s' := MarkInPlaceStep(s, t, c, byte); PcOf(s', t) == Idle && Serves(s', t, c)
  {
    hide WithMark, SetHead;
    assert (c, 1) in MarkInPlaceStep(s, t, c, byte).log;
  }

  lemma CopyingPoint(s: State, t: nat, ch: Choice)
    requires var pc := PcOf(s, t); pc.Copy? || pc.PutPointer? || pc.CopyExtent? || pc.PutHead?
    ensures Rest(PcOf(Step(s, t, ch), t)) < Rest(PcOf(s, t)) <= 8
  {
    hide WithMark, Head, SetHead, At, CopyStep, PutPointerStep, CopyExtentStep, PutHeadStep;
    match PcOf(s, t)
    case Copy(c, byte, to) => CopyPoint(s, t, c, byte, to);
    case PutPointer(c, byte, to) => PutPointerPoint(s, t, c, byte, to);
    case CopyExtent(c, byte, to) => CopyExtentPoint(s, t, c, byte, to);
    case PutHead(c, byte, to) => PutHeadPoint(s, t, c, byte, to);
  }

  lemma CopyPoint(s: State, t: nat, c: Call, byte: nat, to: Addr)
    ensures PcOf(CopyStep(s, t, c, byte, to), t) == PutPointer(c, byte, to)
  {
  }

  lemma PutPointerPoint(s: State, t: nat, c: Call, byte: nat, to: Addr)
    ensures PcOf(PutPointerStep(s, t, c, byte, to), t) == PutForwarded(c, byte, to)
  {
  }

  lemma CopyExtentPoint(s: State, t: nat, c: Call, byte: nat, to: Addr)
    ensures PcOf(CopyExtentStep(s, t, c, byte, to), t) == PutHead(c, byte, to)
  {
  }

  lemma PutHeadPoint(s: State, t: nat, c: Call, byte: nat, to: Addr)
    ensures PcOf(PutHeadStep(s, t, c, byte, to), t) == UpdateEdge(c, to, 1, true)
  {
    hide CopiedMeta;
  }

  lemma ClaimPoint(s: State, t: nat, c: Call, byte: nat)
    ensures var pc' := PcOf(ClaimStep(s, t, c, byte), t); (pc'.Wait? || pc'.Allocate?) && pc'.c == c
  {
    hide WithMark, Head, SetHead, YoungOrSurvivor, At, Claimed;
    AtPoint(s, t, Wait(c, byte, byte));
    AtPoint(s, t, Wait(c, byte, Head(s, c.ref)));
    ClaimedPoint(s, t, c, byte);
  }

  lemma ClaimedPoint(s: State, t: nat, c: Call, byte: nat)
    ensures PcOf(Claimed(s, t, c, byte), t) == Allocate(c, byte)
  {
    hide WithMark, SetHead;
  }

  /** Two objects never share a copy. */
  lemma CopiesDistinct(run: seq<State>, s: State, q: Addr, r: Addr)
    requires IsRun(run) && s == run[|run| - 1] && q in s.orig && r in s.orig
    requires MarkOf(s, q) == MarkOf(s, r) == Forwarded && Pointer(s, q) == Pointer(s, r)
    ensures q == r
  {
    hide Init, FinalMeta, WithMark, Extent;
    RunInv(run);
    assert ObjInv(s, q) && ObjInv(s, r);
  }

  /** Of the unpinned objects in evacuated blocks a call that is not disturbed claims just those that are young or
      survived the last cycle. */
  lemma ClaimedIff(s: State, t: nat, edge: nat)
    requires PcOf(s, t).Idle? && edge in s.edges && s.edges[edge] in s.orig && s.edges[edge] in s.meta && Meta(s, s.edges[edge]) != []
    requires var r := s.edges[edge];
      MarkOf(s, r) != s.current && !Pinned(Head(s, r)) && r in s.evacuable && MarkOf(s, r) != Busy && MarkOf(s, r) != Forwarded
    ensures var s' := Step(Step(s, t, Start(edge, false)), t, Go);
      MarkOf(s', s.edges[edge]) == Busy <==> MarkOf(s, s.edges[edge]) in {1, s.survivor}
  {
    hide Pinned;
    WithMarkSame(Head(s, s.edges[edge]), Busy);
  }

  /** Why a cycle must start with every stale mark swept away: an object in an evacuated block that
      is neither young nor a survivor is left unshaded by a call that returns as if it were. */
  lemma StaleIsSkipped(s: State, t: nat, edge: nat)
    requires PcOf(s, t).Idle? && edge in s.edges && s.edges[edge] in s.orig
    requires var r := s.edges[edge];
      IsMark(MarkOf(s, r)) && MarkOf(s, r) != s.current && MarkOf(s, r) != s.survivor && ShouldEvacuate(s, Head(s, r), r)
    ensures var s' := Step(Step(Step(s, t, Start(edge, false)), t, Go), t, Go);
      (Call(edge, s.edges[edge], false), 0) in s'.log && !Shaded(s', s.edges[edge])
  {
    hide Pinned;
    WithMarkSame(Head(s, s.edges[edge]), Busy);
    WithMarkSame(Head(s, s.edges[edge]), Forwarded);
  }
}
