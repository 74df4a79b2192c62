/**
  The log-linear size classes of api/gc-histogram.h, for any precision.

  Values are the integers below 2^64 and shifts are multiplications and divisions by powers of two.
*/
module GcHistogram {

  function Pow2(n: nat): (r: nat)
    ensures r > 0
  {
    if n == 0 then 1 else 2 * Pow2(n - 1)
  }

  /** The number of bits of a value: 64 less its leading zeros. */
  function Bits(val: nat): nat {
    if val == 0 then 0 else 1 + Bits(val / 2)
  }

  function Bucket(maxValueBits: nat, precision: nat, val: nat): nat {
    var major := if val < Pow2(precision) then 0 else Major(precision, val);
    var minor := if val < Pow2(precision) then val else Minor(precision, val);
    var idx := major * Pow2(precision) + minor;
    if idx >= maxValueBits * Pow2(precision) then maxValueBits * Pow2(precision) else idx
  }

  function Major(precision: nat, val: nat): (m: nat)
    requires val >= Pow2(precision)
    ensures m > 0
  {
    BitsExceed(precision, val);
    Bits(val) - precision
  }

  function Minor(precision: nat, val: nat): nat
    requires val >= Pow2(precision)
  {
    val / Pow2(Major(precision, val) - 1) % Pow2(precision)
  }

  function BucketMinVal(precision: nat, idx: nat): nat {
    var major := idx / Pow2(precision);
    var minor := idx % Pow2(precision);
    if major > 0 then (Pow2(precision) + minor) * Pow2(major - 1) else minor
  }

  lemma {:induction false} BitsBounds(val: nat)
    ensures val > 0 ==> Bits(val) > 0 && Pow2(Bits(val) - 1) <= val
    ensures val < Pow2(Bits(val))
  {
    if val > 0 {
      BitsBounds(val / 2);
    }
  }

  lemma {:induction false} Pow2Monotone(a: nat, b: nat)
    requires a <= b
    ensures Pow2(a) <= Pow2(b)
  {
    if a < b {
      Pow2Monotone(a, b - 1);
    }
  }

  lemma BitsExceed(precision: nat, val: nat)
    requires val >= Pow2(precision)
    ensures Bits(val) > precision
  {
    BitsBounds(val);
    if Bits(val) <= precision {
      Pow2Monotone(Bits(val), precision);
    }
  }

  lemma {:induction false} Pow2Add(a: nat, b: nat)
    ensures Pow2(a + b) == Pow2(a) * Pow2(b)
  {
    if a > 0 {
      Pow2Add(a - 1, b);
      assert Pow2(a + b) == 2 * Pow2(a - 1 + b);
      MulAssoc(2, Pow2(a - 1), Pow2(b));
    }
  }

  lemma MulAssoc(a: int, b: int, c: int)
    ensures a * b * c == a * (b * c)
  {}

  /** A value that is not small: its leading bits, without the highest, choose the bucket. */
  lemma LeadingBits(precision: nat, val: nat)
    requires val >= Pow2(precision)
    ensures var u := Pow2(Major(precision, val) - 1);
            var q := val / u;
            Pow2(precision) <= q < 2 * Pow2(precision) && Minor(precision, val) == q - Pow2(precision) &&
            q * u <= val < (q + 1) * u
  {
    BitsBounds(val);
    BitsExceed(precision, val);
    var m := Major(precision, val);
    Pow2Add(precision, m - 1);
    Pow2Add(precision + 1, m - 1);
    assert precision + (m - 1) == Bits(val) - 1 && precision + 1 + (m - 1) == Bits(val);
    assert Pow2(precision + 1) == 2 * Pow2(precision);
    hide Pow2, Bits;
    LeadingDigits(val, Pow2(m - 1), Pow2(precision), Pow2(precision + 1));
  }

  lemma LeadingDigits(val: nat, u: nat, p: nat, p': nat)
    requires u > 0 && p > 0 && p' == 2 * p && p * u <= val < p' * u
    ensures p <= val / u < p' && val / u % p == val / u - p
    ensures val / u * u <= val < (val / u + 1) * u
  {
    DivBounds(val, u);
    QuotientBounds(val, u, p, p', val / u);
    ModOnce(val / u, p);
  }

  lemma DivBounds(val: nat, u: nat)
    requires u > 0
    ensures val / u * u <= val < (val / u + 1) * u
  {}

  lemma QuotientBounds(val: nat, u: nat, p: nat, p': nat, q: nat)
    requires u > 0 && p * u <= val < p' * u && q * u <= val < (q + 1) * u
    ensures p <= q < p'
  {
    MulMonotone(q + 1, p, u);
    MulMonotone(p', q, u);
  }

  lemma MulMonotone(a: int, b: int, c: nat)
    ensures a <= b ==> a * c <= b * c
  {}

  lemma ModOnce(q: nat, p: nat)
    requires p <= q < 2 * p
    ensures q % p == q - p
  {}

  lemma DivModUnique(q: nat, r: nat, p: nat)
    requires r < p
    ensures (q * p + r) / p == q && (q * p + r) % p == r
  {
    var x := q * p + r;
    DivBounds(x, p);
    MulMonotone(x / p + 1, q, p);
    MulMonotone(q + 1, x / p, p);
  }

  /** The bucket without the cap that a histogram puts on it. */
  function RawBucket(precision: nat, val: nat): nat {
    if val < Pow2(precision) then val else Major(precision, val) * Pow2(precision) + Minor(precision, val)
  }

  lemma BucketIsCapped(maxValueBits: nat, precision: nat, val: nat)
    ensures var cap := maxValueBits * Pow2(precision);
            Bucket(maxValueBits, precision, val) ==
            if RawBucket(precision, val) < cap then RawBucket(precision, val) else cap
  {}

  lemma SplitIndex(precision: nat, idx: nat)
    ensures idx == idx / Pow2(precision) * Pow2(precision) + idx % Pow2(precision)
    ensures idx % Pow2(precision) < Pow2(precision)
  {}

  function LeastOf(p: nat, major: nat, minor: nat): nat {
    if major > 0 then (p + minor) * Pow2(major - 1) else minor
  }

  lemma NextIndex(p: nat, idx: nat)
    requires p > 0
    ensures if idx % p + 1 < p then (idx + 1) / p == idx / p && (idx + 1) % p == idx % p + 1
            else (idx + 1) / p == idx / p + 1 && (idx + 1) % p == 0
  {
    var q, r := idx / p, idx % p;
    assert idx == q * p + r && r < p;
    if r + 1 < p {
      NextWithin(idx, p, q, r);
    } else {
      NextOver(idx, p, q, r);
    }
  }

  lemma NextWithin(idx: nat, p: nat, q: nat, r: nat)
    requires idx == q * p + r && r + 1 < p
    ensures (idx + 1) / p == q && (idx + 1) % p == r + 1
  {
    DivModUnique(q, r + 1, p);
  }

  lemma NextOver(idx: nat, p: nat, q: nat, r: nat)
    requires idx == q * p + r && r + 1 == p
    ensures (idx + 1) / p == q + 1 && (idx + 1) % p == 0
  {
    MulNext(q, p);
    DivModUnique(q + 1, 0, p);
  }

  lemma MulNext(a: nat, u: nat)
    ensures (a + 1) * u == a * u + u
  {}

  lemma LeastOfNext(p: nat, major: nat, minor: nat)
    requires minor < p
    ensures var next := if major > 0 then (p + minor + 1) * Pow2(major - 1) else minor + 1;
            LeastOf(p, major, minor) < next && (minor + 1 < p ==> LeastOf(p, major, minor + 1) == next)
            && (minor + 1 == p ==> LeastOf(p, major + 1, 0) == next)
  {
    if major > 0 {
      MulNext(p + minor, Pow2(major - 1));
      assert p + (minor + 1) == p + minor + 1;
      MulAssoc(p, 2, Pow2(major - 1));
    }
  }

  /** Each bucket begins above the one before it. */
  lemma MinValIncreases(precision: nat, idx: nat)
    ensures BucketMinVal(precision, idx) < BucketMinVal(precision, idx + 1)
    ensures var major, minor := idx / Pow2(precision), idx % Pow2(precision);
            BucketMinVal(precision, idx + 1) ==
            if major > 0 then (Pow2(precision) + minor + 1) * Pow2(major - 1) else minor + 1
  {
    hide Pow2, BucketMinVal, LeastOf;
    var p := Pow2(precision);
    SplitIndex(precision, idx);
    NextIndex(p, idx);
    MinValIs(precision, idx, p, idx / p, idx % p);
    MinValIs(precision, idx + 1, p, (idx + 1) / p, (idx + 1) % p);
    LeastOfNext(p, idx / p, idx % p);
  }

  lemma MinValIs(precision: nat, idx: nat, p: nat, major: nat, minor: nat)
    requires p == Pow2(precision) && major == idx / p && minor == idx % p
    ensures BucketMinVal(precision, idx) == LeastOf(p, major, minor)
  {
    hide Pow2;
  }

  lemma {:induction false} MinValMonotone(precision: nat, i: nat, j: nat)
    requires i <= j
    ensures BucketMinVal(precision, i) <= BucketMinVal(precision, j)
  {
    if i < j {
      MinValMonotone(precision, i, j - 1);
      MinValIncreases(precision, j - 1);
    }
  }

  /** Without the cap, a value lies between the least value of its bucket and that of the next. */
  lemma RawBounds(precision: nat, val: nat)
    ensures var b := RawBucket(precision, val);
            BucketMinVal(precision, b) <= val < BucketMinVal(precision, b + 1)
  {
    var p, b := Pow2(precision), RawBucket(precision, val);
    MinValIncreases(precision, b);
    if val < p {
      DivModUnique(0, val, p);
    } else {
      LeadingBits(precision, val);
      DivModUnique(Major(precision, val), Minor(precision, val), p);
    }
  }

  /** The last bucket starts at a power of two. */
  lemma CapMinVal(maxValueBits: nat, precision: nat)
    ensures BucketMinVal(precision, maxValueBits * Pow2(precision)) ==
            if maxValueBits == 0 then 0 else Pow2(precision + maxValueBits - 1)
  {
    DivModUnique(maxValueBits, 0, Pow2(precision));
    if maxValueBits > 0 { Pow2Add(precision, maxValueBits - 1); }
  }

  /** A value lies between the least value of its bucket and that of the next, except that the last bucket
      takes everything from its least value on. */
  lemma BucketBounds(maxValueBits: nat, precision: nat, val: nat)
    ensures var b, last := Bucket(maxValueBits, precision, val), maxValueBits * Pow2(precision);
      && b <= last && BucketMinVal(precision, b) <= val && (b < last ==> val < BucketMinVal(precision, b + 1))
      && (b == last <==> maxValueBits == 0 || val >= Pow2(precision + maxValueBits - 1))
  {
    hide BucketMinVal, RawBucket, Bucket, Pow2;
    var c, last := RawBucket(precision, val), maxValueBits * Pow2(precision);
    BucketIsCapped(maxValueBits, precision, val);
    RawBounds(precision, val);
    CapMinVal(maxValueBits, precision);
    if c < last {
      MinValMonotone(precision, c + 1, last);
    } else {
      MinValMonotone(precision, last, c);
    }
  }

  /** Buckets are the only ones with those bounds, so the least value of a bucket is in it. */
  lemma BucketUnique(precision: nat, val: nat, b: nat)
    requires BucketMinVal(precision, b) <= val < BucketMinVal(precision, b + 1)
    ensures RawBucket(precision, val) == b
  {
    hide BucketMinVal, RawBucket;
    var c := RawBucket(precision, val);
    RawBounds(precision, val);
    if c < b {
      MinValMonotone(precision, c + 1, b);
    } else if b < c {
      MinValMonotone(precision, b + 1, c);
    }
  }

  lemma MinValInBucket(precision: nat, b: nat)
    ensures RawBucket(precision, BucketMinVal(precision, b)) == b
  {
    MinValIncreases(precision, b);
    BucketUnique(precision, BucketMinVal(precision, b), b);
  }

  /** Larger values have no smaller buckets. */
  lemma BucketMonotone(maxValueBits: nat, precision: nat, v: nat, w: nat)
    requires v <= w
    ensures Bucket(maxValueBits, precision, v) <= Bucket(maxValueBits, precision, w)
  {
    hide BucketMinVal, RawBucket, Bucket;
    RawBounds(precision, v);
    RawBounds(precision, w);
    var b, c := RawBucket(precision, v), RawBucket(precision, w);
    if c < b {
      MinValMonotone(precision, c + 1, b);
    }
    BucketIsCapped(maxValueBits, precision, v);
    BucketIsCapped(maxValueBits, precision, w);
  }
}
