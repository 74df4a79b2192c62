/**
  The address hash of src/address-hash.h and its inverse, in the two widths the C code chooses
  between.  Multiplication and shifts are those of the machine word.

  Each of the five rounds is a function of its own, so that undoing the whole hash is undoing the
  rounds one after the other.
*/
module AddressHash {

  // ---------- 64 bits: splitmix64 ----------

  function Fold30(x: bv64): bv64 { x ^ (x >> 30) }
  function Fold27(x: bv64): bv64 { x ^ (x >> 27) }
  function Fold31(x: bv64): bv64 { x ^ (x >> 31) }
  function MixA(x: bv64): bv64 { x * 0xbf58476d1ce4e5b9 }
  function MixB(x: bv64): bv64 { x * 0x94d049bb133111eb }

  function Hash(x: bv64): bv64 {
    Fold31(MixB(Fold27(MixA(Fold30(x)))))
  }

  function Unfold31(x: bv64): bv64 { x ^ ((x >> 31) ^ (x >> 62)) }
  function Unfold27(x: bv64): bv64 { x ^ ((x >> 27) ^ (x >> 54)) }
  function Unfold30(x: bv64): bv64 { x ^ ((x >> 30) ^ (x >> 60)) }
  function UnmixB(x: bv64): bv64 { x * 0x319642b2d24d8ec3 }
  function UnmixA(x: bv64): bv64 { x * 0x96de1b173f119089 }

  function Unhash(x: bv64): bv64 {
    Unfold30(UnmixA(Unfold27(UnmixB(Unfold31(x)))))
  }

  lemma Fold30Back(x: bv64)
    ensures Unfold30(x ^ (x >> 30)) == x
    ensures Fold30(x ^ ((x >> 30) ^ (x >> 60))) == x
  {}

  lemma Fold30Undone(x: bv64)
    ensures Unfold30(Fold30(x)) == x && Fold30(Unfold30(x)) == x
  {
    Fold30Back(x);
    assert Unfold30(Fold30(x)) == x by { hide Unfold30; }
    assert Fold30(Unfold30(x)) == x by { hide Fold30; }
  }

  lemma Fold27Back(x: bv64)
    ensures Unfold27(x ^ (x >> 27)) == x
    ensures Fold27(x ^ ((x >> 27) ^ (x >> 54))) == x
  {}

  lemma Fold27Undone(x: bv64)
    ensures Unfold27(Fold27(x)) == x && Fold27(Unfold27(x)) == x
  {
    Fold27Back(x);
    assert Unfold27(Fold27(x)) == x by { hide Unfold27; }
    assert Fold27(Unfold27(x)) == x by { hide Fold27; }
  }

  lemma Fold31Back(x: bv64)
    ensures Unfold31(x ^ (x >> 31)) == x
    ensures Fold31(x ^ ((x >> 31) ^ (x >> 62))) == x
  {}

  lemma Fold31Undone(x: bv64)
    ensures Unfold31(Fold31(x)) == x && Fold31(Unfold31(x)) == x
  {
    Fold31Back(x);
    assert Unfold31(Fold31(x)) == x by { hide Unfold31; }
    assert Fold31(Unfold31(x)) == x by { hide Fold31; }
  }

  lemma MixABack(x: bv64)
    ensures UnmixA(x * 0xbf58476d1ce4e5b9) == x
    ensures MixA(x * 0x96de1b173f119089) == x
  {}

  lemma MixAUndone(x: bv64)
    ensures UnmixA(MixA(x)) == x && MixA(UnmixA(x)) == x
  {
    MixABack(x);
    assert UnmixA(MixA(x)) == x by { hide UnmixA; }
    assert MixA(UnmixA(x)) == x by { hide MixA; }
  }

  lemma MixBBack(x: bv64)
    ensures UnmixB(x * 0x94d049bb133111eb) == x
    ensures MixB(x * 0x319642b2d24d8ec3) == x
  {}

  lemma MixBUndone(x: bv64)
    ensures UnmixB(MixB(x)) == x && MixB(UnmixB(x)) == x
  {
    MixBBack(x);
    assert UnmixB(MixB(x)) == x by { hide UnmixB; }
    assert MixB(UnmixB(x)) == x by { hide MixB; }
  }

  lemma UnhashHash(x: bv64)
    ensures Unhash(Hash(x)) == x
  {
    hide Fold30, Fold27, Fold31, MixA, MixB, Unfold30, Unfold27, Unfold31, UnmixA, UnmixB;
    Fold30Undone(x);
    MixAUndone(Fold30(x));
    Fold27Undone(MixA(Fold30(x)));
    MixBUndone(Fold27(MixA(Fold30(x))));
    Fold31Undone(MixB(Fold27(MixA(Fold30(x)))));
  }

  lemma HashUnhash(x: bv64)
    ensures Hash(Unhash(x)) == x
  {
    hide Fold30, Fold27, Fold31, MixA, MixB, Unfold30, Unfold27, Unfold31, UnmixA, UnmixB;
    Fold31Undone(x);
    MixBUndone(Unfold31(x));
    Fold27Undone(UnmixB(Unfold31(x)));
    MixAUndone(Unfold27(UnmixB(Unfold31(x))));
    Fold30Undone(UnmixA(Unfold27(UnmixB(Unfold31(x)))));
  }

  // ---------- 32 bits: lowbias32 ----------

  function Half16(x: bv32): bv32 { x ^ (x >> 16) }
  function Half15(x: bv32): bv32 { x ^ (x >> 15) }
  function HalfMixA(x: bv32): bv32 { x * 0x7feb352d }
  function HalfMixB(x: bv32): bv32 { x * 0x846ca68b }

  function Hash32(x: bv32): bv32 {
    Half16(HalfMixB(Half15(HalfMixA(Half16(x)))))
  }

  function Unhalf15(x: bv32): bv32 { x ^ ((x >> 15) ^ (x >> 30)) }
  function HalfUnmixB(x: bv32): bv32 { x * 0x43021123 }
  function HalfUnmixA(x: bv32): bv32 { x * 0x1d69e2a5 }

  function Unhash32(x: bv32): bv32 {
    Half16(HalfUnmixA(Unhalf15(HalfUnmixB(Half16(x)))))
  }

  lemma Half16Back(x: bv32)
    ensures Half16(x ^ (x >> 16)) == x
  {}

  lemma Half16Undone(x: bv32)
    ensures Half16(Half16(x)) == x
  {
    assert Half16(x) == x ^ (x >> 16);
    hide Half16;
    Half16Back(x);
  }

  lemma Half15Back(x: bv32)
    ensures Unhalf15(x ^ (x >> 15)) == x
    ensures Half15(x ^ ((x >> 15) ^ (x >> 30))) == x
  {}

  lemma Half15Undone(x: bv32)
    ensures Unhalf15(Half15(x)) == x && Half15(Unhalf15(x)) == x
  {
    Half15Back(x);
    assert Unhalf15(Half15(x)) == x by { hide Unhalf15; }
    assert Half15(Unhalf15(x)) == x by { hide Half15; }
  }

  lemma HalfMixABack(x: bv32)
    ensures HalfUnmixA(x * 0x7feb352d) == x
    ensures HalfMixA(x * 0x1d69e2a5) == x
  {}

  lemma HalfMixAUndone(x: bv32)
    ensures HalfUnmixA(HalfMixA(x)) == x && HalfMixA(HalfUnmixA(x)) == x
  {
    HalfMixABack(x);
    assert HalfUnmixA(HalfMixA(x)) == x by { hide HalfUnmixA; }
    assert HalfMixA(HalfUnmixA(x)) == x by { hide HalfMixA; }
  }

  lemma HalfMixBBack(x: bv32)
    ensures HalfUnmixB(x * 0x846ca68b) == x
    ensures HalfMixB(x * 0x43021123) == x
  {}

  lemma HalfMixBUndone(x: bv32)
    ensures HalfUnmixB(HalfMixB(x)) == x && HalfMixB(HalfUnmixB(x)) == x
  {
    HalfMixBBack(x);
    assert HalfUnmixB(HalfMixB(x)) == x by { hide HalfUnmixB; }
    assert HalfMixB(HalfUnmixB(x)) == x by { hide HalfMixB; }
  }

  lemma UnhashHash32(x: bv32)
    ensures Unhash32(Hash32(x)) == x
  {
    hide Half16, Half15, HalfMixA, HalfMixB, Unhalf15, HalfUnmixA, HalfUnmixB;
    Half16Undone(x);
    HalfMixAUndone(Half16(x));
    Half15Undone(HalfMixA(Half16(x)));
    HalfMixBUndone(Half15(HalfMixA(Half16(x))));
    Half16Undone(HalfMixB(Half15(HalfMixA(Half16(x)))));
  }

  lemma HashUnhash32(x: bv32)
    ensures Hash32(Unhash32(x)) == x
  {
    hide Half16, Half15, HalfMixA, HalfMixB, Unhalf15, HalfUnmixA, HalfUnmixB;
    Half16Undone(x);
    HalfMixBUndone(Half16(x));
    Half15Undone(HalfUnmixB(Half16(x)));
    HalfMixAUndone(Unhalf15(HalfUnmixB(Half16(x))));
    Half16Undone(HalfUnmixA(Unhalf15(HalfUnmixB(Half16(x)))));
  }

  // ---------- No collisions ----------

  /** Distinct addresses have distinct hashes, and every word is the hash of exactly one address. */
  lemma HashIsBijection(x: bv64, h: bv64)
    ensures Hash(x) == h <==> x == Unhash(h)
  {
    hide Hash, Unhash;
    UnhashHash(x);
    HashUnhash(h);
  }

  lemma Hash32IsBijection(x: bv32, h: bv32)
    ensures Hash32(x) == h <==> x == Unhash32(h)
  {
    hide Hash32, Unhash32;
    UnhashHash32(x);
    HashUnhash32(h);
  }
}
