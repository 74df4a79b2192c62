/**
  The scans over mark bytes of src/swar.h, which look at eight bytes at a time.

  A word is eight lanes of one byte.  What the word tricks compute is stated lane by lane; what
  the scans return is stated byte by byte.  Memory is one array whose first byte is eight-byte
  aligned, so that an index is aligned exactly when the address is.
*/
module Swar {

  type Byte = bv8

  // ---------- Words and lanes ----------

  function Lane(w: bv64, k: nat): Byte
    requires k < 8
  {
    match k
    case 0 => (w & 0xff) as Byte
    case 1 => ((w >> 8) & 0xff) as Byte
    case 2 => ((w >> 16) & 0xff) as Byte
    case 3 => ((w >> 24) & 0xff) as Byte
    case 4 => ((w >> 32) & 0xff) as Byte
    case 5 => ((w >> 40) & 0xff) as Byte
    case 6 => ((w >> 48) & 0xff) as Byte
    case _ => ((w >> 56) & 0xff) as Byte
  }

  /** Eight bytes as a word, the first byte lowest. */
  function Load(m: seq<Byte>, i: nat): bv64
    requires i + 8 <= |m|
  {
    Pack(m[i], m[i + 1], m[i + 2], m[i + 3], m[i + 4], m[i + 5], m[i + 6], m[i + 7])
  }

  function Pack(a: Byte, b: Byte, c: Byte, d: Byte, e: Byte, f: Byte, g: Byte, h: Byte): bv64 {
    (a as bv64) | ((b as bv64) << 8) | ((c as bv64) << 16) | ((d as bv64) << 24) |
    ((e as bv64) << 32) | ((f as bv64) << 40) | ((g as bv64) << 48) | ((h as bv64) << 56)
  }

  lemma PackLanes(a: Byte, b: Byte, c: Byte, d: Byte, e: Byte, f: Byte, g: Byte, h: Byte)
    ensures var w := Pack(a, b, c, d, e, f, g, h);
            Lane(w, 0) == a && Lane(w, 1) == b && Lane(w, 2) == c && Lane(w, 3) == d &&
            Lane(w, 4) == e && Lane(w, 5) == f && Lane(w, 6) == g && Lane(w, 7) == h
  {}

  lemma LoadLane(m: seq<Byte>, i: nat, k: nat)
    requires i + 8 <= |m| && k < 8
    ensures Lane(Load(m, i), k) == m[i + k]
  {
    PackLanes(m[i], m[i + 1], m[i + 2], m[i + 3], m[i + 4], m[i + 5], m[i + 6], m[i + 7]);
    hide Pack, Lane;
  }

  function Broadcast(b: Byte): bv64 {
    (b as bv64) * 0x0101010101010101
  }

  /** One byte in every lane. */
  function Spread(b: Byte): bv64 {
    var w := b as bv64;
    w | (w << 8) | (w << 16) | (w << 24) | (w << 32) | (w << 40) | (w << 48) | (w << 56)
  }

  lemma BroadcastSpread(b: Byte)
    ensures Broadcast(b) == Spread(b)
  {}

  // ---------- What is looked for ----------

  /** A byte whose masked bits equal a tag, or one that has any of the masked bits. */
  datatype Pattern = Tag(mask: Byte, tag: Byte) | Bits(mask: Byte)

  predicate Hit(p: Pattern, b: Byte) {
    match p
    case Tag(mask, tag) => b & mask == tag
    case Bits(mask) => b & mask != 0
  }

  /** The mask is low bits but not the highest; the tag lies within it and is no padding. */
  predicate TagWithin(mask: Byte, tag: Byte) {
    && mask & 0x7f == mask && mask != 0 && mask & (mask + 1) == 0
    && tag & mask == tag && tag != 0
  }

  predicate Good(p: Pattern) {
    p.Tag? ==> TagWithin(p.mask, p.tag)
  }

  function MatchBytesAgainstTag(bytes: bv64, mask: Byte, tag: Byte): bv64 {
    Tagged(bytes, Broadcast(mask), Broadcast(tag), Broadcast(mask + 1))
  }

  function Tagged(bytes: bv64, vmask: bv64, vtag: bv64, vtest: bv64): bv64 {
    ((((bytes & vmask) ^ vtag) + vmask) & vtest) ^ vtest
  }

  function MatchBytesAgainstBits(bytes: bv64, mask: Byte): bv64 {
    bytes & Broadcast(mask)
  }

  function Match(bytes: bv64, p: Pattern): bv64 {
    match p
    case Tag(mask, tag) => MatchBytesAgainstTag(bytes, mask, tag)
    case Bits(mask) => MatchBytesAgainstBits(bytes, mask)
  }

  // ---------- Matching, lane by lane ----------

  function Low(w: bv64): Byte {
    (w & 0xff) as Byte
  }

  /** The word without its lowest byte. */
  function Drop(w: bv64): bv64 {
    w >> 8
  }

  lemma LaneDrop(w: bv64, k: nat)
    requires k < 8
    ensures Lane(Drop(w), k) == if k < 7 then Lane(w, k + 1) else 0
    ensures Lane(w, 0) == Low(w)
  {}

  function TagWord(w: bv64, mask: Byte, tag: Byte): bv64 {
    Tagged(w, Spread(mask), Spread(tag), Spread(mask + 1))
  }

  function TagByte(b: Byte, mask: Byte, tag: Byte): Byte {
    if b & mask == tag then mask + 1 else 0
  }

  /** No carry leaves a lane: matching commutes with dropping the lowest byte. */
  lemma TagShift(w: bv64, mask: Byte, tag: Byte)
    requires TagWithin(mask, tag)
    ensures Tagged(w, Spread(mask), Spread(tag), Spread(mask + 1)) >> 8 ==
            Tagged(w >> 8, Spread(mask), Spread(tag), Spread(mask + 1))
  {}

  lemma TagLow(w: bv64, mask: Byte, tag: Byte)
    requires TagWithin(mask, tag)
    ensures Low(TagWord(w, mask, tag)) == TagByte(Low(w), mask, tag)
  {}

  lemma {:induction false} TagLane(w: bv64, mask: Byte, tag: Byte, k: nat)
    requires TagWithin(mask, tag) && k < 8
    ensures Lane(TagWord(w, mask, tag), k) == TagByte(Lane(w, k), mask, tag)
    decreases k
  {
    hide TagWithin, TagWord, TagByte, Lane, Low, Drop;
    TagDrop(w, mask, tag);
    TagLow(w, mask, tag);
    var t := TagWord(w, mask, tag);
    if k == 0 {
      LaneDrop(w, 0);
      LaneDrop(t, 0);
    } else {
      LaneDrop(w, k - 1);
      LaneDrop(t, k - 1);
      TagLane(Drop(w), mask, tag, k - 1);
    }
  }

  lemma TagDrop(w: bv64, mask: Byte, tag: Byte)
    requires TagWithin(mask, tag)
    ensures Drop(TagWord(w, mask, tag)) == TagWord(Drop(w), mask, tag)
  {
    hide TagWithin, Spread, Tagged;
    TagShift(w, mask, tag);
  }

  function BitsWord(w: bv64, mask: Byte): bv64 {
    w & Spread(mask)
  }

  lemma BitsDrop(w: bv64, mask: Byte)
    ensures Drop(BitsWord(w, mask)) == BitsWord(Drop(w), mask)
    ensures Low(BitsWord(w, mask)) == Low(w) & mask
  {}

  lemma {:induction false} BitsLane(w: bv64, mask: Byte, k: nat)
    requires k < 8
    ensures Lane(BitsWord(w, mask), k) == Lane(w, k) & mask
    decreases k
  {
    hide BitsWord, Lane, Low, Drop;
    BitsDrop(w, mask);
    if k == 0 {
      LaneDrop(w, 0);
      LaneDrop(BitsWord(w, mask), 0);
    } else {
      LaneDrop(w, k - 1);
      LaneDrop(BitsWord(w, mask), k - 1);
      BitsLane(Drop(w), mask, k - 1);
    }
  }

  lemma TagByteHit(b: Byte, mask: Byte, tag: Byte)
    requires TagWithin(mask, tag)
    ensures TagByte(b, mask, tag) != 0 <==> b & mask == tag
  {}

  lemma MatchTagWord(w: bv64, mask: Byte, tag: Byte)
    ensures MatchBytesAgainstTag(w, mask, tag) == TagWord(w, mask, tag)
  {
    hide Spread, Broadcast, Tagged;
    BroadcastSpread(mask);
    BroadcastSpread(mask + 1);
    BroadcastSpread(tag);
  }

  lemma MatchBitsWord(w: bv64, mask: Byte)
    ensures MatchBytesAgainstBits(w, mask) == BitsWord(w, mask)
  {
    hide Spread, Broadcast;
    BroadcastSpread(mask);
  }

  lemma BitsHit(w: bv64, mask: Byte, k: nat)
    requires k < 8
    ensures Lane(MatchBytesAgainstBits(w, mask), k) != 0 <==> Hit(Bits(mask), Lane(w, k))
  {
    hide BitsWord, Lane, MatchBytesAgainstBits;
    MatchBitsWord(w, mask);
    BitsLane(w, mask, k);
  }

  lemma TagHit(w: bv64, mask: Byte, tag: Byte, k: nat)
    requires TagWithin(mask, tag) && k < 8
    ensures Lane(MatchBytesAgainstTag(w, mask, tag), k) != 0 <==> Hit(Tag(mask, tag), Lane(w, k))
  {
    hide Lane, TagWord, TagByte, TagWithin, MatchBytesAgainstTag;
    MatchTagWord(w, mask, tag);
    TagLane(w, mask, tag, k);
    TagByteHit(Lane(w, k), mask, tag);
  }

  /** A lane of the match is nonzero exactly when that byte is a hit. */
  lemma MatchLane(w: bv64, p: Pattern, k: nat)
    requires Good(p) && k < 8
    ensures Lane(Match(w, p), k) != 0 <==> Hit(p, Lane(w, k))
  {
    hide Lane, TagWithin, MatchBytesAgainstTag, MatchBytesAgainstBits;
    match p
    case Tag(mask, tag) => TagHit(w, mask, tag, k);
    case Bits(mask) => BitsHit(w, mask, k);
  }

  // ---------- Counting zero bytes ----------

  predicate BottomBit(x: bv64) { x & 1 == 1 }

  predicate TopBit(x: bv64) { x & 0x8000_0000_0000_0000 != 0 }

  function Right(x: bv64): bv64 { x >> 1 }

  function Left(x: bv64): bv64 { x << 1 }

  /** Trailing zeros of a word. */
  function Ctz(x: bv64): nat
    decreases x
  {
    if x == 0 then 64 else if BottomBit(x) then 0 else 1 + Ctz(Right(x))
  }

  /** Leading zeros of a word. */
  function Clz(x: bv64): nat
    decreases 0xffff_ffff_ffff_ffff - x
  {
    if x == 0 then 64 else if TopBit(x) then 0 else 1 + Clz(Left(x))
  }

  function CountZeroBytes(bytes: bv64): nat {
    if bytes != 0 then Ctz(bytes) / 8 else 8
  }

  function CountLeadingZeroBytes(bytes: bv64): nat {
    if bytes != 0 then Clz(bytes) / 8 else 8
  }

  /** The word without its highest byte. */
  function Raise(w: bv64): bv64 {
    w << 8
  }

  function High(w: bv64): Byte {
    ((w >> 56) & 0xff) as Byte
  }

  lemma CtzBit(x: bv64)
    requires x != 0 && !BottomBit(x)
    ensures Right(x) != 0 && Ctz(x) == 1 + Ctz(Right(x))
  {}

  lemma ClzBit(x: bv64)
    requires x != 0 && !TopBit(x)
    ensures Left(x) != 0 && Clz(x) == 1 + Clz(Left(x))
  {}

  lemma LowBits(x: bv64, a: bv64, b: bv64, c: bv64, d: bv64, e: bv64, f: bv64, g: bv64)
    requires a == Right(x) && b == Right(a) && c == Right(b) && d == Right(c)
    requires e == Right(d) && f == Right(e) && g == Right(f)
    ensures Low(x) == 0 <==>
            !(BottomBit(x) || BottomBit(a) || BottomBit(b) || BottomBit(c) ||
              BottomBit(d) || BottomBit(e) || BottomBit(f) || BottomBit(g))
    ensures Drop(x) == Right(g)
  {}

  lemma HighBits(x: bv64, a: bv64, b: bv64, c: bv64, d: bv64, e: bv64, f: bv64, g: bv64)
    requires a == Left(x) && b == Left(a) && c == Left(b) && d == Left(c)
    requires e == Left(d) && f == Left(e) && g == Left(f)
    ensures High(x) == 0 <==>
            !(TopBit(x) || TopBit(a) || TopBit(b) || TopBit(c) ||
              TopBit(d) || TopBit(e) || TopBit(f) || TopBit(g))
    ensures Raise(x) == Left(g)
  {}

  lemma {:induction false} CtzByte(x: bv64)
    requires x != 0
    ensures if Low(x) != 0 then Ctz(x) < 8 else Drop(x) != 0 && Ctz(x) == 8 + Ctz(Drop(x))
  {
    hide Low, Drop, Right, BottomBit;
    var a := Right(x);
    var b := Right(a);
    var c := Right(b);
    var d := Right(c);
    var e := Right(d);
    var f := Right(e);
    var g := Right(f);
    LowBits(x, a, b, c, d, e, f, g);
    if !BottomBit(x) {
      CtzBit(x);
      if !BottomBit(a) {
        CtzBit(a);
        if !BottomBit(b) {
          CtzBit(b);
          if !BottomBit(c) {
            CtzBit(c);
            if !BottomBit(d) {
              CtzBit(d);
              if !BottomBit(e) {
                CtzBit(e);
                if !BottomBit(f) {
                  CtzBit(f);
                  if !BottomBit(g) {
                    CtzBit(g);
                  }
                }
              }
            }
          }
        }
      }
    }
  }

  lemma {:induction false} ClzByte(x: bv64)
    requires x != 0
    ensures if High(x) != 0 then Clz(x) < 8 else Raise(x) != 0 && Clz(x) == 8 + Clz(Raise(x))
  {
    hide High, Raise, Left, TopBit;
    var a := Left(x);
    var b := Left(a);
    var c := Left(b);
    var d := Left(c);
    var e := Left(d);
    var f := Left(e);
    var g := Left(f);
    HighBits(x, a, b, c, d, e, f, g);
    if !TopBit(x) {
      ClzBit(x);
      if !TopBit(a) {
        ClzBit(a);
        if !TopBit(b) {
          ClzBit(b);
          if !TopBit(c) {
            ClzBit(c);
            if !TopBit(d) {
              ClzBit(d);
              if !TopBit(e) {
                ClzBit(e);
                if !TopBit(f) {
                  ClzBit(f);
                  if !TopBit(g) {
                    ClzBit(g);
                  }
                }
              }
            }
          }
        }
      }
    }
  }

  lemma LaneRaise(w: bv64, k: nat)
    requires k < 8
    ensures Lane(Raise(w), k) == if k > 0 then Lane(w, k - 1) else 0
    ensures Lane(w, 7) == High(w)
  {}

  lemma ZeroLanes(k: nat)
    requires k < 8
    ensures Lane(0, k) == 0
  {}

  /** Counting trailing zero bytes finds the first byte that is not zero. */
  lemma {:induction false} FirstLane(w: bv64)
    requires w != 0
    ensures CountZeroBytes(w) < 8 && Lane(w, CountZeroBytes(w)) != 0
    ensures forall k: nat :: k < CountZeroBytes(w) ==> Lane(w, k) == 0
    decreases Ctz(w)
  {
    hide Lane, Low, Drop, Ctz;
    CtzByte(w);
    LaneDrop(w, 0);
    if Low(w) == 0 {
      var d := Drop(w);
      FirstLane(d);
      assert CountZeroBytes(w) == CountZeroBytes(d) + 1;
      LaneDrop(w, CountZeroBytes(d));
      forall k: nat | k < CountZeroBytes(w) ensures Lane(w, k) == 0 {
        if k > 0 {
          LaneDrop(w, k - 1);
        }
      }
    }
  }

  /** Counting leading zero bytes finds the last byte that is not zero. */
  lemma {:induction false} LastLane(w: bv64)
    requires w != 0
    ensures CountLeadingZeroBytes(w) < 8 && Lane(w, 7 - CountLeadingZeroBytes(w)) != 0
    ensures forall k: nat :: 7 - CountLeadingZeroBytes(w) < k < 8 ==> Lane(w, k) == 0
    decreases Clz(w)
  {
    hide Lane, High, Raise, Clz;
    ClzByte(w);
    LaneRaise(w, 7);
    if High(w) == 0 {
      var d := Raise(w);
      LastLane(d);
      var c := CountLeadingZeroBytes(d);
      assert CountLeadingZeroBytes(w) == c + 1;
      LaneRaise(w, 7 - c);
      forall k: nat | 7 - CountLeadingZeroBytes(w) < k < 8 ensures Lane(w, k) == 0 {
        if k < 7 {
          LaneRaise(w, k + 1);
        }
      }
    }
  }

  // ---------- Partial words ----------

  /** A shift down by `u` bytes. */
  function ShiftDown(w: bv64, u: nat): bv64
    decreases u
  {
    if u == 0 then w else ShiftDown(Drop(w), u - 1)
  }

  /** A shift up by `u` bytes. */
  function ShiftUp(w: bv64, u: nat): bv64
    decreases u
  {
    if u == 0 then w else ShiftUp(Raise(w), u - 1)
  }

  lemma {:induction false} ShiftDownLane(w: bv64, u: nat, k: nat)
    requires u < 8 && k < 8
    ensures Lane(ShiftDown(w, u), k) == if k + u < 8 then Lane(w, k + u) else 0
    decreases u
  {
    hide Lane, Drop;
    if u > 0 {
      ShiftDownLane(Drop(w), u - 1, k);
      if k + u - 1 < 8 {
        LaneDrop(w, k + u - 1);
      }
    }
  }

  lemma {:induction false} ShiftUpLane(w: bv64, u: nat, k: nat)
    requires u < 8 && k < 8
    ensures Lane(ShiftUp(w, u), k) == if k >= u then Lane(w, k - u) else 0
    decreases u
  {
    hide Lane, Raise;
    if u > 0 {
      ShiftUpLane(Raise(w), u - 1, k);
      if k >= u - 1 {
        LaneRaise(w, k - (u - 1));
      }
    }
  }

  // ---------- The scans ----------

  ghost predicate NoHit(m: seq<Byte>, p: Pattern, from: int, to: int) {
    forall i :: 0 <= i < |m| && from <= i < to ==> !Hit(p, m[i])
  }

  lemma NoHitJoin(m: seq<Byte>, p: Pattern, a: int, b: int, c: int)
    requires NoHit(m, p, a, b) && NoHit(m, p, b, c)
    ensures NoHit(m, p, a, c)
  {}

  lemma NothingYet(m: seq<Byte>, p: Pattern, a: int)
    ensures NoHit(m, p, a, a)
  {}

  lemma HitBreaks(m: seq<Byte>, p: Pattern, a: int, i: int, c: int)
    requires 0 <= i < |m| && a <= i < c && Hit(p, m[i])
    ensures !NoHit(m, p, a, c)
  {}

  /** A hit that is known to lie ahead has not been passed. */
  lemma StillAhead(m: seq<Byte>, p: Pattern, a: int, b: int, c: int)
    requires NoHit(m, p, a, b) && a <= b
    ensures !NoHit(m, p, a, c) ==> b < c
  {}

  predicate Aligned(n: int) {
    n % 8 == 0
  }

  /** The next aligned index. */
  function AlignUp(n: nat): nat {
    (n + 7) / 8 * 8
  }

  lemma AlignUpIs(n: nat)
    ensures Aligned(AlignUp(n)) && n <= AlignUp(n) < n + 8
  {}

  lemma PaddingIsNoHit(p: Pattern)
    requires Good(p)
    ensures !Hit(p, 0)
  {}

  lemma AlignedStep(a: int, b: int)
    requires Aligned(a) && Aligned(b) && a < b
    ensures a + 8 <= b && Aligned(a + 8)
  {}

  /** The whole word that an index lies in. */
  lemma AroundUnaligned(a: nat, b: int)
    requires !Aligned(a)
    ensures 0 < a % 8 <= a && Aligned(a - a % 8) && Aligned(a + (8 - a % 8))
    ensures Aligned(b) && a <= b ==> a + (8 - a % 8) <= b
    ensures Aligned(b) && b <= a ==> b <= a - a % 8
  {}

  /** The first hit of a word whose lanes are the bytes from `at` on, and zeros past `count` of them. */
  lemma WordForward(m: seq<Byte>, at: nat, count: nat, w: bv64, p: Pattern)
    requires Good(p) && count <= 8 && at + count <= |m|
    requires forall k: nat :: k < 8 ==> Lane(w, k) == if k < count then m[at + k] else 0
    ensures Match(w, p) == 0 ==> NoHit(m, p, at, at + count)
    ensures Match(w, p) != 0 ==>
              CountZeroBytes(Match(w, p)) < count && Hit(p, m[at + CountZeroBytes(Match(w, p))]) &&
              NoHit(m, p, at, at + CountZeroBytes(Match(w, p)))
  {
    hide Lane, Match, Hit, Good, CountZeroBytes;
    var x := Match(w, p);
    PaddingIsNoHit(p);
    forall k: nat | k < 8 ensures Lane(x, k) != 0 <==> Hit(p, Lane(w, k)) {
      MatchLane(w, p, k);
    }
    if x == 0 {
      forall i | 0 <= i < |m| && at <= i < at + count ensures !Hit(p, m[i]) {
        ZeroLanes(i - at);
        assert Lane(w, i - at) == m[at + (i - at)];
      }
    } else {
      FirstLane(x);
      var c := CountZeroBytes(x);
      forall i | 0 <= i < |m| && at <= i < at + c ensures !Hit(p, m[i]) {
        assert Lane(w, i - at) == m[at + (i - at)];
        assert Lane(x, i - at) == 0;
      }
    }
  }

  lemma WholeWord(m: seq<Byte>, at: nat)
    requires at + 8 <= |m|
    ensures forall k: nat :: k < 8 ==> Lane(Load(m, at), k) == m[at + k]
  {
    hide Lane, Load;
    forall k: nat | k < 8 ensures Lane(Load(m, at), k) == m[at + k] {
      LoadLane(m, at, k);
    }
  }

  lemma LateWord(m: seq<Byte>, at: nat, u: nat)
    requires at + 8 <= |m| && u < 8
    ensures forall k: nat :: k < 8 ==>
              Lane(ShiftDown(Load(m, at), u), k) == if k < 8 - u then m[at + u + k] else 0
  {
    hide Lane, Load, ShiftDown;
    WholeWord(m, at);
    forall k: nat | k < 8 ensures Lane(ShiftDown(Load(m, at), u), k) == if k < 8 - u then m[at + u + k] else 0 {
      ShiftDownLane(Load(m, at), u, k);
      assert k < 8 - u ==> Lane(Load(m, at), k + u) == m[at + (k + u)];
    }
  }

  /** Scans the rest of the word that an unaligned `ptr` lies in. */
  method ScanPartWord(mem: array<Byte>, ptr: nat, p: Pattern) returns (found: bool, n: nat)
    requires Good(p) && !Aligned(ptr) && ptr + (8 - ptr % 8) <= mem.Length
    ensures !found ==> NoHit(mem[..], p, ptr, ptr + (8 - ptr % 8))
    ensures found ==> n < 8 - ptr % 8 && Hit(p, mem[ptr + n]) && NoHit(mem[..], p, ptr, ptr + n)
  {
    hide Lane, Load, ShiftDown, Match, Hit, Good, CountZeroBytes, NoHit;
    var unaligned := ptr % 8;
    var bytes := ShiftDown(Load(mem[..], ptr - unaligned), unaligned);
    LateWord(mem[..], ptr - unaligned, unaligned);
    WordForward(mem[..], ptr, 8 - unaligned, bytes, p);
    var x := Match(bytes, p);
    found, n := x != 0, CountZeroBytes(x);
  }

  method ScanWord(mem: array<Byte>, at: nat, p: Pattern) returns (found: bool, n: nat)
    requires Good(p) && at + 8 <= mem.Length
    ensures !found ==> NoHit(mem[..], p, at, at + 8)
    ensures found ==> n < 8 && Hit(p, mem[at + n]) && NoHit(mem[..], p, at, at + n)
  {
    hide Lane, Load, Match, Hit, Good, CountZeroBytes, NoHit;
    var bytes := Load(mem[..], at);
    WholeWord(mem[..], at);
    WordForward(mem[..], at, 8, bytes, p);
    var x := Match(bytes, p);
    found, n := x != 0, CountZeroBytes(x);
  }

  /**
    Scans for a hit from `ptr` on.  Whole words are looked at, so the bytes that count run to the
    next aligned address past `ptr + limit`, or to the end of memory where a hit is known to lie
    before it: the result is where the first hit is, or `limit` if there is none.
  */
  method Scan(mem: array<Byte>, ptr: nat, limit: nat, p: Pattern) returns (n: nat)
    requires Good(p) && Aligned(mem.Length) && ptr <= mem.Length
    requires AlignUp(ptr + limit) <= mem.Length || !NoHit(mem[..], p, ptr, mem.Length)
    ensures NoHit(mem[..], p, ptr, AlignUp(ptr + limit)) ==> n == limit
    ensures !NoHit(mem[..], p, ptr, AlignUp(ptr + limit)) ==>
              ptr + n < mem.Length && ptr + n < AlignUp(ptr + limit) &&
              Hit(p, mem[ptr + n]) && NoHit(mem[..], p, ptr, ptr + n)
  {
    hide Hit, Good, AlignUp, NoHit, Aligned;
    ghost var m, end := mem[..], AlignUp(ptr + limit);
    AlignUpIs(ptr + limit);
    n := 0;
    if !Aligned(ptr) {
      AroundUnaligned(ptr, end);
      AroundUnaligned(ptr, mem.Length);
      var found;
      found, n := ScanPartWord(mem, ptr, p);
      if found {
        HitBreaks(m, p, ptr, ptr + n, end);
        return;
      }
      n := 8 - ptr % 8;
    } else {
      NothingYet(m, p, ptr);
    }
    while n < limit
      invariant Aligned(ptr + n) && ptr + n <= end
      invariant NoHit(m, p, ptr, ptr + n)
      invariant ptr + n <= mem.Length
    {
      AlignedStep(ptr + n, end);
      StillAhead(m, p, ptr, ptr + n, mem.Length);
      AlignedStep(ptr + n, mem.Length);
      var found, k := ScanWord(mem, ptr + n, p);
      if found {
        NoHitJoin(m, p, ptr, ptr + n, ptr + n + k);
        n := n + k;
        HitBreaks(m, p, ptr, ptr + n, end);
        return;
      }
      NoHitJoin(m, p, ptr, ptr + n, ptr + n + 8);
      n := n + 8;
    }
    if ptr + n < end {
      AlignedStep(ptr + n, end);
    }
    n := limit;
  }

  /** The last hit of a word whose last `count` lanes are the bytes before `end`, and zeros below. */
  lemma WordBackward(m: seq<Byte>, end: nat, count: nat, w: bv64, p: Pattern)
    requires Good(p) && count <= 8 && count <= end <= |m|
    requires forall k: nat :: k < 8 ==> Lane(w, k) == if k >= 8 - count then m[end - 8 + k] else 0
    ensures Match(w, p) == 0 ==> NoHit(m, p, end - count, end)
    ensures Match(w, p) != 0 ==>
              CountLeadingZeroBytes(Match(w, p)) < count &&
              Hit(p, m[end - 1 - CountLeadingZeroBytes(Match(w, p))]) &&
              NoHit(m, p, end - CountLeadingZeroBytes(Match(w, p)), end)
  {
    hide Lane, Match, Hit, Good, CountLeadingZeroBytes;
    var x := Match(w, p);
    PaddingIsNoHit(p);
    forall k: nat | k < 8 ensures Lane(x, k) != 0 <==> Hit(p, Lane(w, k)) {
      MatchLane(w, p, k);
    }
    if x == 0 {
      forall i | 0 <= i < |m| && end - count <= i < end ensures !Hit(p, m[i]) {
        ZeroLanes(i - (end - 8));
        assert Lane(w, i - (end - 8)) == m[end - 8 + (i - (end - 8))];
      }
    } else {
      LastLane(x);
      var c := CountLeadingZeroBytes(x);
      assert 7 - c >= 8 - count ==> Lane(w, 7 - c) == m[end - 8 + (7 - c)];
      forall i | 0 <= i < |m| && end - c <= i < end ensures !Hit(p, m[i]) {
        assert Lane(w, i - (end - 8)) == m[end - 8 + (i - (end - 8))];
        assert Lane(x, i - (end - 8)) == 0;
      }
    }
  }

  lemma EarlyWord(m: seq<Byte>, at: nat, u: nat)
    requires at + 8 <= |m| && u < 8
    ensures forall k: nat :: k < 8 ==>
              Lane(ShiftUp(Load(m, at), u), k) == if k >= u then m[at + (k - u)] else 0
  {
    hide Lane, Load, ShiftUp;
    WholeWord(m, at);
    forall k: nat | k < 8 ensures Lane(ShiftUp(Load(m, at), u), k) == if k >= u then m[at + (k - u)] else 0 {
      ShiftUpLane(Load(m, at), u, k);
      assert k >= u ==> Lane(Load(m, at), k - u) == m[at + (k - u)];
    }
  }

  method ScanPartWordBackwards(mem: array<Byte>, ptr: nat, p: Pattern) returns (found: bool, n: nat)
    requires Good(p) && !Aligned(ptr) && ptr % 8 <= ptr && ptr + (8 - ptr % 8) <= mem.Length
    ensures !found ==> NoHit(mem[..], p, ptr - ptr % 8, ptr)
    ensures found ==> n < ptr % 8 && Hit(p, mem[ptr - 1 - n]) && NoHit(mem[..], p, ptr - n, ptr)
  {
    hide Lane, Load, ShiftUp, Match, Hit, Good, CountLeadingZeroBytes, NoHit;
    var unaligned := ptr % 8;
    var bytes := ShiftUp(Load(mem[..], ptr - unaligned), 8 - unaligned);
    EarlyWord(mem[..], ptr - unaligned, 8 - unaligned);
    WordBackward(mem[..], ptr, unaligned, bytes, p);
    var x := Match(bytes, p);
    found, n := x != 0, CountLeadingZeroBytes(x);
  }

  method ScanWordBackwards(mem: array<Byte>, end: nat, p: Pattern) returns (found: bool, n: nat)
    requires Good(p) && 8 <= end <= mem.Length
    ensures !found ==> NoHit(mem[..], p, end - 8, end)
    ensures found ==> n < 8 && Hit(p, mem[end - 1 - n]) && NoHit(mem[..], p, end - n, end)
  {
    hide Lane, Load, Match, Hit, Good, CountLeadingZeroBytes, NoHit;
    var bytes := Load(mem[..], end - 8);
    WholeWord(mem[..], end - 8);
    WordBackward(mem[..], end, 8, bytes, p);
    var x := Match(bytes, p);
    found, n := x != 0, CountLeadingZeroBytes(x);
  }

  datatype Found = Nothing | At(index: nat)

  /** Scans from before `ptr` back to `base`: the result is where the last hit is. */
  method ScanBackwards(mem: array<Byte>, ptr: nat, base: nat, p: Pattern) returns (r: Found)
    requires Good(p) && Aligned(mem.Length) && Aligned(base) && base <= ptr <= mem.Length
    ensures r.Nothing? <==> NoHit(mem[..], p, base, ptr)
    ensures r.At? ==> base <= r.index < ptr && Hit(p, mem[r.index]) && NoHit(mem[..], p, r.index + 1, ptr)
  {
    hide Hit, Good, NoHit, Aligned;
    ghost var m := mem[..];
    var at := ptr;
    if !Aligned(at) {
      AroundUnaligned(at, base);
      AroundUnaligned(at, mem.Length);
      var found, n := ScanPartWordBackwards(mem, at, p);
      if found {
        HitBreaks(m, p, base, at - 1 - n, ptr);
        return At(at - 1 - n);
      }
      at := at - at % 8;
    } else {
      NothingYet(m, p, ptr);
    }
    while at > base
      invariant Aligned(at) && base <= at <= ptr
      invariant NoHit(m, p, at, ptr)
    {
      AlignedStep(base, at);
      AlignedBack(at);
      var found, n := ScanWordBackwards(mem, at, p);
      if found {
        HitBreaks(m, p, base, at - 1 - n, ptr);
        NoHitJoin(m, p, at - n, at, ptr);
        return At(at - 1 - n);
      }
      NoHitJoin(m, p, at - 8, at, ptr);
      at := at - 8;
    }
    return Nothing;
  }

  lemma AlignedBack(a: int)
    requires Aligned(a)
    ensures Aligned(a - 8)
  {}
}
