/**
  The Robin Hood hash map of src/address-map.h and the address map built on it.

  A table of `n` slots is read as a ring: a slot may be named by any integer, and two names that
  differ by a multiple of `n` mean one slot.  An entry whose key is the word `k` is at home in the
  slot named `k`; its displacement is how far past that it lies.
*/
module RobinHoodMap {
  import A = AddressHash

  type Key = nat
  type Value = nat

  // ---------- Ring arithmetic ----------

  /** The slot that the name `i` means: the mask with `size - 1` of the C code. */
  function Wrap(n: nat, i: int): (r: nat)
    requires n > 0
    ensures r < n
  {
    i % n
  }

  lemma WrapSmall(n: nat, i: int)
    requires 0 <= i < n
    ensures Wrap(n, i) == i
  {}

  lemma MulMono(n: nat, a: int, b: int)
    ensures a <= b ==> n * a <= n * b
  {}

  lemma ModUnique(n: nat, a: int, q: int, r: nat)
    requires n > 0 && r < n && a == n * q + r
    ensures a % n == r
  {
    MulMono(n, q + 1, a / n);
    MulMono(n, a / n + 1, q);
  }

  lemma WrapUnique(n: nat, i: int, q: int, r: nat)
    requires n > 0 && r < n && i == n * q + r
    ensures Wrap(n, i) == r
  {
    ModUnique(n, i, q, r);
  }

  lemma WrapWrap(n: nat, i: int, j: int)
    requires n > 0
    ensures Wrap(n, Wrap(n, i) + j) == Wrap(n, i + j)
  {
    var q, r := (Wrap(n, i) + j) / n, (Wrap(n, i) + j) % n;
    assert i + j == n * (i / n + q) + r;
    WrapUnique(n, i + j, i / n + q, r);
  }

  lemma WrapTurn(n: nat, i: int)
    requires n > 0
    ensures Wrap(n, i + n) == Wrap(n, i)
  {
    assert i + n == n * (i / n + 1) + i % n;
    WrapUnique(n, i + n, i / n + 1, i % n);
  }

  lemma WrapUp(n: nat, i: int)
    requires n > 0
    ensures Wrap(n, i + 1) == if Wrap(n, i) + 1 < n then Wrap(n, i) + 1 else 0
  {
    if Wrap(n, i) + 1 < n {
      WrapUnique(n, i + 1, i / n, i % n + 1);
    } else {
      assert i + 1 == n * (i / n + 1) + 0;
      WrapUnique(n, i + 1, i / n + 1, 0);
    }
  }

  lemma WrapDown(n: nat, i: int)
    requires n > 0
    ensures Wrap(n, i - 1) == if Wrap(n, i) > 0 then Wrap(n, i) - 1 else n - 1
  {
    WrapUp(n, i - 1);
  }

  lemma WrapSame(n: nat, i: int, j: int, d: int)
    requires n > 0 && Wrap(n, i) == Wrap(n, j)
    ensures i < j ==> i + n <= j
    ensures Wrap(n, i - j) == 0
    ensures Wrap(n, i + d) == Wrap(n, j + d)
  {
    var q := i / n - j / n;
    assert i - j == n * q + 0;
    WrapUnique(n, i - j, q, 0);
    MulMono(n, 0, q);
    MulMono(n, q + 1, 0);
    WrapWrap(n, i, d);
    WrapWrap(n, j, d);
  }

  /** Slot names stay right when they are computed in machine words, whose range is a multiple of the size. */
  lemma NamesSurviveOverflow(n: nat, turns: nat, i: int)
    requires n > 0 && turns > 0
    ensures n * turns > 0 && Wrap(n, Wrap(n * turns, i)) == Wrap(n, i)
  {
    assert n * turns >= n;
    var q, r := i / (n * turns), i % (n * turns);
    assert i == n * turns * q + r;
    var w := r / n;
    assert n * turns * q == n * (turns * q);
    assert i == n * (turns * q + w) + r % n;
    WrapUnique(n, i, turns * q + w, r % n);
  }

  // ---------- Tables ----------

  datatype Cell = Free | Full(k: Key, v: Value)

  type Table = t: seq<Cell> | |t| >= 4 witness [Free, Free, Free, Free]

  function At(t: Table, x: int): Cell {
    t[Wrap(|t|, x)]
  }

  function Put(t: Table, x: int, c: Cell): Table {
    t[Wrap(|t|, x) := c]
  }

  /** How far the entry in slot `x` lies past its home. */
  function Dist(t: Table, x: int): nat
    requires At(t, x).Full?
  {
    Wrap(|t|, x - At(t, x).k)
  }

  /** An entry away from home follows an entry displaced by at least as much, less one. */
  predicate Settled(t: Table, x: int) {
    At(t, x).Full? && Dist(t, x) > 0 ==> At(t, x - 1).Full? && Dist(t, x - 1) >= Dist(t, x) - 1
  }

  ghost predicate RobinHood(t: Table) {
    forall x: int :: Settled(t, x)
  }

  ghost predicate Unique(t: Table) {
    forall i, j :: 0 <= i < |t| && 0 <= j < |t| && t[i].Full? && t[j].Full? && t[i].k == t[j].k ==> i == j
  }

  ghost predicate InTable(t: seq<Cell>, k: Key) {
    exists i :: 0 <= i < |t| && t[i].Full? && t[i].k == k
  }

  ghost predicate Represents(t: Table, m: map<Key, Value>) {
    && Unique(t)
    && (forall i :: 0 <= i < |t| && t[i].Full? ==> t[i].k in m && m[t[i].k] == t[i].v)
    && (forall k :: k in m ==> InTable(t, k))
  }

  function Count(t: seq<Cell>): (c: nat)
    ensures c <= |t|
  {
    if t == [] then 0 else Count(t[..|t| - 1]) + if t[|t| - 1].Full? then 1 else 0
  }

  lemma {:induction false} CountPut(t: seq<Cell>, i: nat, c: Cell)
    requires i < |t|
    ensures Count(t[i := c]) == Count(t) - (if t[i].Full? then 1 else 0) + if c.Full? then 1 else 0
  {
    var last := |t| - 1;
    if i == last {
      assert t[i := c][..last] == t[..last];
    } else {
      assert t[i := c][..last] == t[..last][i := c];
      CountPut(t[..last], i, c);
    }
  }

  lemma {:induction false} SomeFree(t: seq<Cell>) returns (i: nat)
    requires Count(t) < |t|
    ensures i < |t| && t[i].Free?
  {
    if t[|t| - 1].Free? {
      i := |t| - 1;
    } else {
      i := SomeFree(t[..|t| - 1]);
    }
  }

  /** Any full turn of a table with room passes a free slot. */
  lemma FreeAhead(t: Table, from: int) returns (f: int)
    requires Count(t) < |t|
    ensures from <= f < from + |t| && At(t, f).Free?
  {
    var n := |t|;
    var i := SomeFree(t);
    f := from + Wrap(n, i - from);
    WrapWrap(n, i - from, from);
    WrapSmall(n, i);
  }

  /** ... and if there is room for two, one besides a given free slot. */
  lemma FreeBehind(t: Table, s: int) returns (f: int)
    requires Count(t) + 1 < |t| && At(t, s).Free?
    ensures s - |t| < f < s && At(t, f).Free?
  {
    var n := |t|;
    var i := Wrap(n, s);
    var full := t[i := Full(0, 0)];
    CountPut(t, i, Full(0, 0));
    f := FreeAhead(full, s - n);
    WrapTurn(n, s - n);
    assert At(full, s - n).Full?;
  }

  lemma {:induction false} SizeIsCount(t: seq<Cell>, m: map<Key, Value>)
    requires forall i, j :: 0 <= i < |t| && 0 <= j < |t| && t[i].Full? && t[j].Full? && t[i].k == t[j].k ==> i == j
    requires forall i :: 0 <= i < |t| && t[i].Full? ==> t[i].k in m
    requires forall k :: k in m ==> InTable(t, k)
    ensures |m| == Count(t)
  {
    if t == [] {
      assert forall k :: k !in m;
      assert m == map[];
    } else {
      var last := |t| - 1;
      var t' := t[..last];
      if t[last].Free? {
        forall k | k in m ensures InTable(t', k) {
          assert InTable(t, k);
          var i :| 0 <= i < |t| && t[i].Full? && t[i].k == k;
          assert t'[i] == t[i];
        }
        SizeIsCount(t', m);
      } else {
        var m' := m - {t[last].k};
        forall i | 0 <= i < |t'| && t'[i].Full? ensures t'[i].k in m' {
          assert t'[i] == t[i];
        }
        forall k | k in m' ensures InTable(t', k) {
          assert InTable(t, k);
          var i :| 0 <= i < |t| && t[i].Full? && t[i].k == k;
          assert t'[i] == t[i];
        }
        SizeIsCount(t', m');
        assert m.Keys == m'.Keys + {t[last].k};
        assert |m.Keys| == |m'.Keys| + 1;
      }
    }
  }

  // ---------- What an early exit may conclude ----------

  /** Behind an entry, back to its home, every slot is full and displaced in step; `stop` may be unsettled. */
  lemma {:induction false} Backward(t: Table, x: int, j: nat, stop: int)
    requires At(t, x).Full? && j <= Dist(t, x)
    requires forall y: int :: stop < y <= x ==> Settled(t, y)
    requires stop <= x - j
    ensures At(t, x - j).Full? && Dist(t, x - j) >= Dist(t, x) - j
  {
    hide Wrap, Dist;
    if j > 0 {
      Backward(t, x, j - 1, stop);
      assert Settled(t, x - (j - 1));
    }
  }

  /** The name of an entry's slot that counts from its key. */
  lemma FromHome(t: Table, i: nat)
    requires i < |t| && t[i].Full?
    ensures At(t, i) == t[i] && Dist(t, i) < |t|
    ensures At(t, t[i].k + Dist(t, i)) == t[i]
    ensures Dist(t, t[i].k + Dist(t, i)) == Dist(t, i)
    ensures Wrap(|t|, t[i].k + Dist(t, i)) == i
  {
    var n, h := |t|, t[i].k;
    WrapSmall(n, i);
    assert At(t, i) == t[i];
    hide Wrap;
    WrapWrap(n, i - h, h);
    assert Wrap(n, h + Dist(t, i)) == i;
    WrapSame(n, h + Dist(t, i), i, -h);
  }

  /** The slot `j` past the home of `k` holds another key. */
  predicate Other(t: Table, k: Key, j: nat) {
    At(t, k + j).Full? && At(t, k + j).k != k
  }

  /**
    A probe for `k` that passed `d` other keys and stands before a free slot, or before an entry
    displaced by less than `d`, has shown that `k` is absent.
  */
  lemma ProbeExhausted(t: Table, k: Key, d: nat, i: nat)
    requires RobinHood(t) && i < |t| && t[i].Full?
    requires forall j: nat :: j < d ==> Other(t, k, j)
    requires At(t, k + d).Free? || Dist(t, k + d) < d
    ensures t[i].k != k
  {
    hide Wrap, Dist;
    if t[i].k == k {
      FromHome(t, i);
      var e := Dist(t, i);
      assert At(t, k + e) == t[i];
      var x := k + e;
      assert e < d ==> Other(t, k, e);
      assert e >= d && x - (e - d) == k + d;
      Backward(t, x, e - d, k);
    }
  }

  // ---------- Moving entries past a hole ----------

  function Move(t: Table, from: int, to: int): Table {
    Put(Put(t, to, At(t, from)), from, Free)
  }

  lemma AtPut(t: Table, x: int, c: Cell, y: int)
    ensures |Put(t, x, c)| == |t|
    ensures At(Put(t, x, c), y) == if Wrap(|t|, y) == Wrap(|t|, x) then c else At(t, y)
  {}

  lemma AtMove(t: Table, from: int, to: int, y: int)
    ensures |Move(t, from, to)| == |t|
    ensures At(Move(t, from, to), y) ==
            if Wrap(|t|, y) == Wrap(|t|, from) then Free
            else if Wrap(|t|, y) == Wrap(|t|, to) then At(t, from) else At(t, y)
  {}

  lemma WrapDistinct(n: nat, i: int, j: int)
    requires i < j < i + n
    ensures Wrap(n, i) != Wrap(n, j)
  {
    if Wrap(n, i) == Wrap(n, j) {
      WrapSame(n, i, j, 0);
    }
  }

  /** Two names of one slot. */
  lemma SameSlot(t: Table, x: int, y: int)
    requires Wrap(|t|, x) == Wrap(|t|, y)
    ensures At(t, x) == At(t, y)
    ensures At(t, x).Full? ==> Dist(t, x) == Dist(t, y)
    ensures Settled(t, x) == Settled(t, y)
  {
    var n := |t|;
    WrapSame(n, x, y, -1);
    assert x + -1 == x - 1 && y + -1 == y - 1;
    if At(t, x).Full? {
      WrapSame(n, x, y, 0 - At(t, x).k);
    }
    if At(t, x - 1).Full? {
      WrapSame(n, x, y, -1 - At(t, x - 1).k);
    }
    hide Wrap;
  }

  /** The table without its hole at `s`: only the entry after the hole may be out of step, and it would fit the hole. */
  ghost predicate Hole(t: Table, s: int) {
    && At(t, s).Free?
    && (forall x: int :: Wrap(|t|, x) != Wrap(|t|, s + 1) ==> Settled(t, x))
    && (At(t, s + 1).Full? && Dist(t, s + 1) >= 2 ==>
          At(t, s - 1).Full? && Dist(t, s - 1) >= Dist(t, s + 1) - 2)
  }

  /** An entry that nothing near has touched stays settled. */
  lemma UntouchedSettled(t: Table, t': Table, x: int)
    requires |t'| == |t| && At(t', x) == At(t, x) && At(t', x - 1) == At(t, x - 1)
    ensures Settled(t', x) == Settled(t, x)
  {
    hide Wrap;
  }

  lemma Shifted(t: Table, t': Table, x: int, d: int)
    requires |t'| == |t| && At(t, x).Full? && At(t', x + d) == At(t, x)
    requires d == 1 || d == -1
    requires 0 <= Dist(t, x) + d < |t|
    ensures Dist(t', x + d) == Dist(t, x) + d
  {
    hide Wrap;
    var h := At(t, x).k;
    WrapUp(|t|, x - h);
    WrapDown(|t|, x - h);
    assert x + d - h == x - h + d;
  }

  /** No entry before the hole lies a whole turn from its home while another slot is free. */
  lemma NotFullTurn(t: Table, s: int, f: int)
    requires Hole(t, s) && At(t, s - 1).Full? && s - |t| < f < s && At(t, f).Free?
    ensures Dist(t, s - 1) + 1 < |t|
  {
    hide Wrap;
    DistBound(t, s - 1);
    hide Dist, At;
    var n := |t|;
    if Dist(t, s - 1) >= s - 1 - f {
      forall y: int | s + 1 - n < y <= s - 1 ensures Settled(t, y) {
        WrapTurn(n, s + 1 - n);
        WrapDistinct(n, s + 1 - n, y);
      }
      Backward(t, s - 1, s - 1 - f, s + 1 - n);
    }
  }

  lemma MoveBackSettled(t: Table, s: int, x: int)
    requires Hole(t, s) && At(t, s - 1).Full? && Dist(t, s - 1) + 1 < |t|
    requires Wrap(|t|, x) != Wrap(|t|, s)
    ensures Settled(Move(t, s - 1, s), x)
  {
    hide Dist, Wrap;
    var n, t' := |t|, Move(t, s - 1, s);
    WrapDistinct(n, s - 1, s);
    WrapDistinct(n, s, s + 1);
    WrapDistinct(n, s - 1, s + 1);
    AtMove(t, s - 1, s, s);
    AtMove(t, s - 1, s, s + 1);
    Shifted(t, t', s - 1, 1);
    if Wrap(n, x) == Wrap(n, s + 1) {
      SameSlot(t', x, s + 1);
      SameDist(t, t', s + 1);
    } else if Wrap(n, x) == Wrap(n, s - 1) {
      AtMove(t, s - 1, s, x);
    } else {
      if Wrap(n, x - 1) == Wrap(n, s) {
        WrapSame(n, x - 1, s, 1);
      }
      if Wrap(n, x - 1) == Wrap(n, s - 1) {
        WrapSame(n, x - 1, s - 1, 1);
      }
      AtMove(t, s - 1, s, x);
      AtMove(t, s - 1, s, x - 1);
      UntouchedSettled(t, t', x);
    }
  }

  lemma SameDist(t: Table, t': Table, x: int)
    requires |t'| == |t| && At(t', x) == At(t, x)
    ensures At(t, x).Full? ==> Dist(t', x) == Dist(t, x)
  {
    hide Wrap;
  }

  /** The entry before a hole moves into it: one slot farther from home, and the hole one slot back. */
  lemma MoveBack(t: Table, s: int, f: int)
    requires Hole(t, s) && At(t, s - 1).Full? && s - |t| < f < s && At(t, f).Free?
    ensures Hole(Move(t, s - 1, s), s - 1)
    ensures f < s - 1 && At(Move(t, s - 1, s), f).Free?
    ensures At(Move(t, s - 1, s), s) == At(t, s - 1) && Dist(Move(t, s - 1, s), s) == Dist(t, s - 1) + 1
  {
    hide Dist, Wrap;
    var n, t' := |t|, Move(t, s - 1, s);
    NotFullTurn(t, s, f);
    forall x: int | Wrap(n, x) != Wrap(n, s) ensures Settled(t', x) {
      MoveBackSettled(t, s, x);
    }
    WrapDistinct(n, s - 1, s);
    WrapDistinct(n, f, s);
    WrapDistinct(n, s - 2, s - 1);
    WrapDistinct(n, s - 2, s);
    WrapDistinct(n, s - 1, s + 1);
    AtMove(t, s - 1, s, s - 1);
    AtMove(t, s - 1, s, s);
    AtMove(t, s - 1, s, f);
    AtMove(t, s - 1, s, s - 2);
    Shifted(t, t', s - 1, 1);
    SameDist(t, t', s - 2);
    assert Settled(t, s - 1);
    assert s - 1 + 1 == s && s - 1 - 1 == s - 2;
  }

  /** The entry after a hole, if it is away from home, moves into it. */
  lemma MoveForward(t: Table, s: int)
    requires Hole(t, s) && At(t, s + 1).Full? && Dist(t, s + 1) > 0
    ensures Hole(Move(t, s + 1, s), s + 1)
  {
    hide Dist, Wrap;
    var n, t' := |t|, Move(t, s + 1, s);
    forall x: int | Wrap(n, x) != Wrap(n, s + 2) ensures Settled(t', x) {
      MoveForwardSettled(t, s, x);
    }
    WrapDistinct(n, s, s + 1);
    WrapDistinct(n, s, s + 2);
    WrapDistinct(n, s + 1, s + 2);
    AtMove(t, s + 1, s, s + 1);
    AtMove(t, s + 1, s, s);
    AtMove(t, s + 1, s, s + 2);
    DistBound(t, s + 1);
    Shifted(t, t', s + 1, -1);
    SameDist(t, t', s + 2);
    assert Settled(t, s + 2);
    assert s + 1 + 1 == s + 2 && s + 2 - 1 == s + 1 && s + 1 - 1 == s;
  }

  lemma DistBound(t: Table, x: int)
    requires At(t, x).Full?
    ensures Dist(t, x) < |t|
  {}

  lemma MoveForwardSettled(t: Table, s: int, x: int)
    requires Hole(t, s) && At(t, s + 1).Full? && Dist(t, s + 1) > 0
    requires Wrap(|t|, x) != Wrap(|t|, s + 2)
    ensures Settled(Move(t, s + 1, s), x)
  {
    hide Dist, Wrap;
    var n, t' := |t|, Move(t, s + 1, s);
    WrapDistinct(n, s, s + 1);
    WrapDistinct(n, s - 1, s);
    WrapDistinct(n, s - 1, s + 1);
    AtMove(t, s + 1, s, s);
    AtMove(t, s + 1, s, s - 1);
    DistBound(t, s + 1);
    Shifted(t, t', s + 1, -1);
    if Wrap(n, x) == Wrap(n, s) {
      SameSlot(t', x, s);
      SameDist(t, t', s - 1);
    } else if Wrap(n, x) == Wrap(n, s + 1) {
      AtMove(t, s + 1, s, x);
    } else {
      if Wrap(n, x - 1) == Wrap(n, s) {
        WrapSame(n, x - 1, s, 1);
      }
      if Wrap(n, x - 1) == Wrap(n, s + 1) {
        WrapSame(n, x - 1, s + 1, 1);
      }
      AtMove(t, s + 1, s, x);
      AtMove(t, s + 1, s, x - 1);
      UntouchedSettled(t, t', x);
    }
  }

  /** Taking an entry out leaves a hole ... */
  lemma OpenHole(t: Table, s: int)
    requires RobinHood(t) && At(t, s).Full?
    ensures Hole(Put(t, s, Free), s)
  {
    hide Dist, Wrap;
    var n, t' := |t|, Put(t, s, Free);
    WrapDistinct(n, s, s + 1);
    WrapDistinct(n, s - 1, s);
    AtPut(t, s, Free, s);
    AtPut(t, s, Free, s - 1);
    AtPut(t, s, Free, s + 1);
    SameDist(t, t', s + 1);
    SameDist(t, t', s - 1);
    assert Settled(t, s) && Settled(t, s + 1);
    forall x: int | Wrap(n, x) != Wrap(n, s + 1) ensures Settled(t', x) {
      AtPut(t, s, Free, x);
      AtPut(t, s, Free, x - 1);
      if Wrap(n, x) != Wrap(n, s) {
        if Wrap(n, x - 1) == Wrap(n, s) {
          WrapSame(n, x - 1, s, 1);
        }
        UntouchedSettled(t, t', x);
      }
    }
  }

  /** ... a free slot is one ... */
  lemma FreeIsHole(t: Table, s: int)
    requires RobinHood(t) && At(t, s).Free?
    ensures Hole(t, s)
  {
    hide Dist, Wrap;
    assert Settled(t, s + 1);
  }

  /** ... and a hole before nothing, or before an entry at home, is an ordinary free slot. */
  lemma HoleIsFree(t: Table, s: int)
    requires Hole(t, s) && (At(t, s + 1).Free? || Dist(t, s + 1) == 0)
    ensures RobinHood(t)
  {
    hide Dist, Wrap;
    forall x: int ensures Settled(t, x) {
      if Wrap(|t|, x) == Wrap(|t|, s + 1) {
        SameSlot(t, x, s + 1);
      }
    }
  }

  /** An entry fills a hole whose neighbours are in step with it. */
  lemma FillHole(t: Table, s: int, k: Key, v: Value, d: nat)
    requires Hole(t, s) && s == k + d && d < |t|
    requires d > 0 ==> At(t, s - 1).Full? && Dist(t, s - 1) >= d - 1
    requires At(t, s + 1).Full? ==> Dist(t, s + 1) <= d + 1
    ensures RobinHood(Put(t, s, Full(k, v)))
  {
    var n, t' := |t|, Put(t, s, Full(k, v));
    AtPut(t, s, Full(k, v), s);
    assert Dist(t', s) == d by {
      assert s - k == d;
      WrapSmall(n, d);
    }
    hide Dist, Wrap;
    WrapDistinct(n, s, s + 1);
    WrapDistinct(n, s - 1, s);
    AtPut(t, s, Full(k, v), s - 1);
    AtPut(t, s, Full(k, v), s + 1);
    SameDist(t, t', s - 1);
    SameDist(t, t', s + 1);
    forall x: int ensures Settled(t', x) {
      if Wrap(n, x) == Wrap(n, s) {
        SameSlot(t', x, s);
      } else if Wrap(n, x) == Wrap(n, s + 1) {
        SameSlot(t', x, s + 1);
      } else {
        if Wrap(n, x - 1) == Wrap(n, s) {
          WrapSame(n, x - 1, s, 1);
        }
        AtPut(t, s, Full(k, v), x);
        AtPut(t, s, Full(k, v), x - 1);
        UntouchedSettled(t, t', x);
      }
    }
  }

  /** A new value under the same key moves nothing. */
  lemma ReplaceSettled(t: Table, s: int, v: Value)
    requires RobinHood(t) && At(t, s).Full?
    ensures RobinHood(Put(t, s, Full(At(t, s).k, v)))
  {
    var n, c := |t|, Full(At(t, s).k, v);
    var t' := Put(t, s, c);
    forall y: int ensures At(t', y).Full? == At(t, y).Full? && (At(t, y).Full? ==> Dist(t', y) == Dist(t, y)) {
      AtPut(t, s, c, y);
    }
    hide Dist, Wrap;
    forall x: int ensures Settled(t', x) {
      assert Settled(t, x);
      assert At(t', x).Full? == At(t, x).Full? && At(t', x - 1).Full? == At(t, x - 1).Full?;
    }
  }

  // ---------- What a table means ----------

  lemma AddKeeps(t: Table, x: int, k: Key, v: Value, m: map<Key, Value>)
    requires Represents(t, m) && At(t, x).Free? && k !in m
    ensures Represents(Put(t, x, Full(k, v)), m[k := v])
  {
    var i := Wrap(|t|, x);
    var t', m' := Put(t, x, Full(k, v)), m[k := v];
    hide Wrap;
    assert t' == t[i := Full(k, v)];
    forall key | key in m' ensures InTable(t', key) {
      if key == k {
        assert t'[i].Full?;
      } else {
        assert InTable(t, key);
        var j :| 0 <= j < |t| && t[j].Full? && t[j].k == key;
        assert t'[j] == t[j];
      }
    }
  }

  lemma ReplaceKeeps(t: Table, x: int, v: Value, m: map<Key, Value>)
    requires Represents(t, m) && At(t, x).Full?
    ensures Represents(Put(t, x, Full(At(t, x).k, v)), m[At(t, x).k := v])
  {
    var i, k := Wrap(|t|, x), At(t, x).k;
    var t', m' := Put(t, x, Full(k, v)), m[k := v];
    hide Wrap;
    assert t' == t[i := Full(k, v)];
    assert forall j :: 0 <= j < |t| ==> t'[j].Full? == t[j].Full? && (t[j].Full? ==> t'[j].k == t[j].k);
    forall key | key in m' ensures InTable(t', key) {
      assert InTable(t, key);
      var j :| 0 <= j < |t| && t[j].Full? && t[j].k == key;
      assert t'[j].Full? && t'[j].k == key;
    }
  }

  lemma TakeKeeps(t: Table, x: int, m: map<Key, Value>)
    requires Represents(t, m) && At(t, x).Full?
    ensures Represents(Put(t, x, Free), m - {At(t, x).k})
  {
    var i, k := Wrap(|t|, x), At(t, x).k;
    var t', m' := Put(t, x, Free), m - {k};
    hide Wrap;
    assert t' == t[i := Free];
    forall key | key in m' ensures InTable(t', key) {
      assert InTable(t, key);
      var j :| 0 <= j < |t| && t[j].Full? && t[j].k == key;
      assert t'[j] == t[j];
    }
  }

  lemma MoveKeeps(t: Table, from: int, to: int, m: map<Key, Value>)
    requires Represents(t, m) && At(t, from).Full? && At(t, to).Free?
    ensures Represents(Move(t, from, to), m)
    ensures Count(Move(t, from, to)) == Count(t)
  {
    var i, j := Wrap(|t|, from), Wrap(|t|, to);
    var t' := Move(t, from, to);
    CountPut(t, j, t[i]);
    CountPut(t[j := t[i]], i, Free);
    hide Wrap, Count;
    assert t' == t[j := t[i]][i := Free];
    assert i != j;
    forall key | key in m ensures InTable(t', key) {
      assert InTable(t, key);
      var l :| 0 <= l < |t| && t[l].Full? && t[l].k == key;
      if l == i {
        assert t'[j].Full? && t'[j].k == key;
      } else {
        assert t'[l] == t[l];
      }
    }
  }

  /** An exhausted probe: the key is in no slot, so the map does not have it. */
  lemma AbsentKey(t: Table, m: map<Key, Value>, k: Key, d: nat)
    requires RobinHood(t) && Represents(t, m)
    requires forall j: nat :: j < d ==> Other(t, k, j)
    requires At(t, k + d).Free? || Dist(t, k + d) < d
    ensures k !in m
  {
    if k in m {
      assert InTable(t, k);
      var i :| 0 <= i < |t| && t[i].Full? && t[i].k == k;
      ProbeExhausted(t, k, d, i);
    }
  }

  lemma PresentKey(t: Table, m: map<Key, Value>, x: int)
    requires Represents(t, m) && At(t, x).Full?
    ensures At(t, x).k in m && m[At(t, x).k] == At(t, x).v
  {}

  /** Displacement tells keys apart from the one probed for. */
  lemma DisplacedIsOther(t: Table, k: Key, j: nat)
    requires j < |t| && At(t, k + j).Full? && Dist(t, k + j) != j
    ensures Other(t, k, j)
  {
    WrapSmall(|t|, j);
    assert k + j - k == j;
  }

  // ---------- A shift in progress ----------

  /**
    During a shift the slot named `s` still holds a stale entry in the array; the table `h` meant
    by the state is the one with a hole there.
  */
  ghost predicate Shifting(c: Table, h: Table, s: int, m: map<Key, Value>) {
    Put(c, s, Free) == h && At(c, s).Full? && Hole(h, s) && Represents(h, m)
  }

  lemma ShiftedCells(c: Table, h: Table, from: int, to: int)
    requires Put(c, to, Free) == h && At(c, to).Full?
    requires Wrap(|c|, from) != Wrap(|c|, to)
    ensures At(h, from) == At(c, from) && At(h, to).Free?
    ensures Put(Put(c, to, At(c, from)), from, Free) == Move(h, from, to)
    ensures At(Put(c, to, At(c, from)), from) == At(c, from)
  {
    var i, j := Wrap(|c|, from), Wrap(|c|, to);
    hide Wrap;
    assert c[j := c[i]][i := Free] == h[j := h[i]][i := Free];
  }

  lemma ShiftBack(c: Table, h: Table, s: int, m: map<Key, Value>, f: int)
    requires Shifting(c, h, s, m) && At(c, s - 1).Full? && s - |c| < f < s && At(h, f).Free?
    ensures Shifting(Put(c, s, At(c, s - 1)), Move(h, s - 1, s), s - 1, m)
    ensures f < s - 1 && At(Move(h, s - 1, s), f).Free?
    ensures Count(Move(h, s - 1, s)) == Count(h)
    ensures At(h, s - 1) == At(c, s - 1)
    ensures At(Move(h, s - 1, s), s) == At(h, s - 1) && Dist(Move(h, s - 1, s), s) == Dist(h, s - 1) + 1
  {
    hide Wrap, Dist, Hole, Represents;
    WrapDistinct(|c|, s - 1, s);
    ShiftedCells(c, h, s - 1, s);
    assert Hole(h, s);
    MoveBack(h, s, f);
    MoveKeeps(h, s - 1, s, m);
  }

  lemma ShiftForward(c: Table, h: Table, s: int, m: map<Key, Value>)
    requires Shifting(c, h, s, m) && At(c, s + 1).Full? && Dist(c, s + 1) > 0
    ensures Shifting(Put(c, s, At(c, s + 1)), Move(h, s + 1, s), s + 1, m)
    ensures Count(Move(h, s + 1, s)) == Count(h)
  {
    hide Wrap, Dist, Hole, Represents;
    WrapDistinct(|c|, s, s + 1);
    ShiftedCells(c, h, s + 1, s);
    SameDist(c, h, s + 1);
    MoveForward(h, s);
    MoveKeeps(h, s + 1, s, m);
  }

  lemma IsOther(t: Table, k: Key, j: nat)
    requires At(t, k + j).Full? && At(t, k + j).k != k
    ensures Other(t, k, j)
  {}

  lemma StartShift(t: Table, s: int, stale: Cell, m: map<Key, Value>)
    requires RobinHood(t) && Represents(t, m) && At(t, s).Free? && stale.Full?
    ensures Shifting(Put(t, s, stale), t, s, m)
  {
    FreeIsHole(t, s);
    assert t[Wrap(|t|, s) := stale][Wrap(|t|, s) := Free] == t;
  }

  lemma ShiftingAt(c: Table, h: Table, s: int, x: int, m: map<Key, Value>)
    requires Shifting(c, h, s, m)
    ensures |h| == |c| && At(c, s).Full? && At(h, s).Free?
    ensures s - |c| < x < s ==> At(c, x) == At(h, x)
    ensures s < x < s + |c| ==> At(c, x) == At(h, x)
  {
    if s - |c| < x < s {
      WrapDistinct(|c|, x, s);
    }
    if s < x < s + |c| {
      WrapDistinct(|c|, s, x);
    }
  }

  lemma MoveBackKeeps(t: Table, s: int, idx: int, home: int)
    requires home <= idx < s < home + |t|
    ensures |Move(t, s - 1, s)| == |t|
    ensures forall x :: idx - 1 <= x < s - 1 && x >= home ==> At(Move(t, s - 1, s), x) == At(t, x)
  {
    forall x | idx - 1 <= x < s - 1 && x >= home ensures At(Move(t, s - 1, s), x) == At(t, x) {
      WrapDistinct(|t|, x, s);
      WrapDistinct(|t|, x, s - 1);
      AtMove(t, s - 1, s, x);
    }
  }

  lemma ReplaceEntry(t: Table, x: int, v: Value, m: map<Key, Value>)
    requires RobinHood(t) && Represents(t, m) && At(t, x).Full?
    ensures RobinHood(Put(t, x, Full(At(t, x).k, v)))
    ensures Represents(Put(t, x, Full(At(t, x).k, v)), m[At(t, x).k := v])
    ensures Count(Put(t, x, Full(At(t, x).k, v))) == Count(t)
  {
    hide RobinHood, Represents;
    ReplaceSettled(t, x, v);
    ReplaceKeeps(t, x, v, m);
    CountPut(t, Wrap(|t|, x), Full(At(t, x).k, v));
  }

  lemma ProbedFull(t: Table, k: Key, d: nat)
    requires forall j: nat :: j < d ==> Other(t, k, j)
    ensures forall x :: k <= x < k + d ==> At(t, x).Full?
  {
    forall x | k <= x < k + d ensures At(t, x).Full? {
      assert Other(t, k, x - k);
    }
  }

  /** The new entry goes into the slot that was opened for it. */
  lemma PlaceEntry(t: Table, c: Table, h: Table, k: Key, v: Value, d: nat, m: map<Key, Value>)
    requires |t| == |c| && Shifting(c, h, k + d, m) && k !in m && d < |t|
    requires At(t, k + d).Free? || Dist(t, k + d) < d
    requires d > 0 ==> At(t, k + d - 1).Full? && Dist(t, k + d - 1) >= d - 1
    requires d > 0 ==> At(h, k + d - 1) == At(t, k + d - 1)
    requires At(h, k + d + 1).Full? ==>
               Dist(h, k + d + 1) == 0 || (At(t, k + d).Full? && Dist(h, k + d + 1) == Dist(t, k + d) + 1)
    ensures RobinHood(Put(c, k + d, Full(k, v)))
    ensures Represents(Put(c, k + d, Full(k, v)), m[k := v])
    ensures Count(Put(c, k + d, Full(k, v))) == Count(h) + 1
  {
    hide Wrap, Dist, Represents, RobinHood, Hole;
    var s := k + d;
    assert Put(c, s, Full(k, v)) == Put(h, s, Full(k, v));
    ShiftingAt(c, h, s, s, m);
    if d > 0 {
      SameDist(t, h, s - 1);
    }
    FillHole(h, s, k, v, d);
    AddKeeps(h, s, k, v, m);
    CountPut(h, Wrap(|h|, s), Full(k, v));
  }

  lemma TakeCount(t: Table, x: int)
    requires At(t, x).Full?
    ensures Count(Put(t, x, Free)) + 1 == Count(t)
    ensures At(Put(t, x, Free), x).Free?
  {
    CountPut(t, Wrap(|t|, x), Free);
  }

  lemma SlotsDiffer(t: Table, x: int, y: int)
    requires At(t, x).Full? && At(t, y).Free?
    ensures Wrap(|t|, y) != Wrap(|t|, x) && x != y
  {}

  lemma HalfPower(n: nat)
    requires PowerOf2(n) && n > 8
    ensures PowerOf2(n / 2) && n / 2 >= 8
  {
    assert PowerOf2(n / 2 / 2) && PowerOf2(n / 2 / 2 / 2);
  }

  // ---------- The map ----------

  datatype Entry = Entry(k: Key, v: Value)

  function TableOf(data: seq<Entry>, bits: seq<bool>): Table
    requires |data| == |bits| >= 4
  {
    seq(|data|, i requires 0 <= i < |data| => if bits[i] then Full(data[i].k, data[i].v) else Free)
  }

  ghost predicate PowerOf2(n: nat) {
    n == 1 || (n > 1 && n % 2 == 0 && PowerOf2(n / 2))
  }

  /** What the first `i` slots of a table hold. */
  ghost function Upto(t: Table, i: nat): map<Key, Value>
    requires i <= |t|
  {
    if i == 0 then map[]
    else if t[i - 1].Full? then Upto(t, i - 1)[t[i - 1].k := t[i - 1].v]
    else Upto(t, i - 1)
  }

  lemma {:induction false} UptoIs(t: Table, m: map<Key, Value>, i: nat)
    requires Represents(t, m) && i <= |t|
    ensures forall k :: k in Upto(t, i) ==> k in m && Upto(t, i)[k] == m[k]
    ensures forall j :: 0 <= j < i && t[j].Full? ==> t[j].k in Upto(t, i)
  {
    if i > 0 {
      UptoIs(t, m, i - 1);
      assert t[i - 1].Full? ==> t[i - 1].k in m && m[t[i - 1].k] == t[i - 1].v;
    }
  }

  lemma UptoAll(t: Table, m: map<Key, Value>)
    requires Represents(t, m)
    ensures Upto(t, |t|) == m
  {
    UptoIs(t, m, |t|);
    var u := Upto(t, |t|);
    forall k | k in m ensures k in u {
      assert InTable(t, k);
    }
    assert u.Keys == m.Keys;
  }

  /** The entries in the first `i` slots. */
  ghost function Listed(t: Table, i: nat): seq<Entry>
    requires i <= |t|
  {
    if i == 0 then []
    else if t[i - 1].Full? then Listed(t, i - 1) + [Entry(t[i - 1].k, t[i - 1].v)]
    else Listed(t, i - 1)
  }

  lemma {:induction false} ListedIs(t: Table, i: nat)
    requires i <= |t| && Unique(t)
    ensures |Listed(t, i)| == Count(t[..i])
    ensures forall a, b :: 0 <= a < b < |Listed(t, i)| ==> Listed(t, i)[a].k != Listed(t, i)[b].k
    ensures forall e :: e in Listed(t, i) ==> Full(e.k, e.v) in t[..i]
    ensures forall j :: 0 <= j < i && t[j].Full? ==> Entry(t[j].k, t[j].v) in Listed(t, i)
  {
    if i > 0 {
      ListedIs(t, i - 1);
      var l := Listed(t, i - 1);
      forall a | 0 <= a < |l| && t[i - 1].Full? ensures l[a].k != t[i - 1].k {
        assert l[a] in l;
        assert Full(l[a].k, l[a].v) in t[..i - 1];
      }
      assert t[..i][..i - 1] == t[..i - 1];
    }
  }

  lemma ListedAll(t: Table, m: map<Key, Value>)
    requires Represents(t, m)
    ensures |Listed(t, |t|)| == |m|
    ensures forall a, b :: 0 <= a < b < |Listed(t, |t|)| ==> Listed(t, |t|)[a].k != Listed(t, |t|)[b].k
    ensures forall e :: e in Listed(t, |t|) ==> e.k in m && m[e.k] == e.v
    ensures forall k :: k in m ==> Entry(k, m[k]) in Listed(t, |t|)
  {
    ListedIs(t, |t|);
    assert t[..|t|] == t;
    SizeIsCount(t, m);
    forall k | k in m ensures Entry(k, m[k]) in Listed(t, |t|) {
      assert InTable(t, k);
    }
  }

  lemma UptoSmall(t: Table, m: map<Key, Value>, i: nat)
    requires Represents(t, m) && i <= |t|
    ensures |Upto(t, i)| <= |m|
  {
    UptoIs(t, m, i);
    var u := Upto(t, i);
    assert u.Keys <= m.Keys;
    CardinalityMonotone(u.Keys, m.Keys);
  }

  lemma {:induction false} CardinalityMonotone<T>(a: set<T>, b: set<T>)
    requires a <= b
    ensures |a| <= |b|
  {
    if a != {} {
      var x :| x in a;
      CardinalityMonotone(a - {x}, b - {x});
    }
  }

  class HashMap {
    var data: array<Entry>
    var bits: array<bool>
    var size: nat
    var nItems: nat
    ghost var contents: map<Key, Value>

    ghost predicate Shape()
      reads `data, `bits, `size
    {
      size >= 8 && data.Length == size && bits.Length == size
    }

    ghost function Cells(): (t: Table)
      requires Shape()
      reads `data, `bits, `size, data, bits
      ensures |t| == size
    {
      TableOf(data[..], bits[..])
    }

    /** The load rule leaves an eighth of the slots free, so at least one. */
    ghost predicate Valid()
      reads this, data, bits
    {
      && Shape()
      && PowerOf2(size)
      && RobinHood(Cells())
      && Represents(Cells(), contents)
      && nItems == Count(Cells())
      && nItems + size / 8 <= size
    }

    constructor (slots: nat)
      requires slots >= 8 && PowerOf2(slots)
      ensures Valid() && fresh(data) && fresh(bits)
      ensures size == slots && nItems == 0 && contents == map[]
    {
      size := slots;
      data := new Entry[slots](_ => Entry(0, 0));
      bits := new bool[slots](_ => false);
      nItems := 0;
      contents := map[];
      new;
      EmptyTable(Cells());
    }

    function IsFree(x: int): (r: bool)
      requires Shape()
      reads `data, `bits, `size, data, bits
      ensures |Cells()| == size && r == At(Cells(), x).Free?
    {
      !bits[Wrap(size, x)]
    }

    function EntryAt(x: int): (e: Entry)
      requires Shape() && !IsFree(x)
      reads `data, `bits, `size, data, bits
      ensures At(Cells(), x) == Full(e.k, e.v)
    {
      data[Wrap(size, x)]
    }

    function Distance(x: int): (d: nat)
      requires Shape() && !IsFree(x)
      reads `data, `bits, `size, data, bits
      ensures d == Dist(Cells(), x)
    {
      Wrap(size, x - EntryAt(x).k)
    }

    method Write(x: int, e: Entry)
      requires Shape() && !IsFree(x)
      modifies data
      ensures Cells() == Put(old(Cells()), x, Full(e.k, e.v))
    {
      data[Wrap(size, x)] := e;
    }

    method Acquire(x: int) returns (ghost stale: Cell)
      requires Shape() && IsFree(x)
      modifies bits, this`nItems
      ensures nItems == old(nItems) + 1
      ensures stale.Full? && Cells() == Put(old(Cells()), x, stale)
    {
      var i := Wrap(size, x);
      bits[i] := true;
      nItems := nItems + 1;
      stale := Full(data[i].k, data[i].v);
    }

    method Release(x: int)
      requires Shape() && !IsFree(x) && nItems > 0
      modifies bits, this`nItems
      ensures nItems == old(nItems) - 1
      ensures Cells() == Put(old(Cells()), x, Free)
    {
      bits[Wrap(size, x)] := false;
      nItems := nItems - 1;
    }

    /** The slot after the last one that a probe for `k` has to pass. */
    method FindPlace(k: Key, ghost stop: int) returns (displacement: nat, found: bool)
      requires Valid()
      requires k <= stop < k + size && At(Cells(), stop).Free?
      ensures k + displacement <= stop
      ensures found ==> At(Cells(), k + displacement).Full? && At(Cells(), k + displacement).k == k
      ensures forall j: nat :: j < displacement ==> Other(Cells(), k, j)
      ensures !found ==> At(Cells(), k + displacement).Free? || Dist(Cells(), k + displacement) < displacement
      ensures displacement > 0 ==>
                At(Cells(), k + displacement - 1).Full? &&
                Dist(Cells(), k + displacement - 1) >= displacement - 1
    {
      hide Wrap, Dist, Represents, Cells, Count, Other;
      displacement := 0;
      found := false;
      while !IsFree(k + displacement) && displacement < Distance(k + displacement)
        invariant k + displacement <= stop
        invariant forall j: nat :: j < displacement ==> Other(Cells(), k, j)
        invariant displacement > 0 ==>
                    At(Cells(), k + displacement - 1).Full? &&
                    Dist(Cells(), k + displacement - 1) >= displacement - 1
        decreases stop - displacement
      {
        DisplacedIsOther(Cells(), k, displacement);
        displacement := displacement + 1;
      }
      while !IsFree(k + displacement) && displacement == Distance(k + displacement)
        invariant k + displacement <= stop
        invariant forall j: nat :: j < displacement ==> Other(Cells(), k, j)
        invariant displacement > 0 ==>
                    At(Cells(), k + displacement - 1).Full? &&
                    Dist(Cells(), k + displacement - 1) >= displacement - 1
        invariant At(Cells(), k + displacement).Free? || Dist(Cells(), k + displacement) <= displacement
        decreases stop - displacement
      {
        if EntryAt(k + displacement).k == k {
          found := true;
          return;
        }
        IsOther(Cells(), k, displacement);
        assert Settled(Cells(), k + displacement + 1);
        assert k + displacement + 1 - 1 == k + displacement;
        displacement := displacement + 1;
      }
    }

    /** How many full slots there are from `idx` on. */
    method FullRun(idx: int) returns (slots: nat)
      requires Shape() && Count(Cells()) < size
      ensures At(Cells(), idx + slots).Free?
      ensures forall x :: idx <= x < idx + slots ==> At(Cells(), x).Full?
    {
      hide Wrap, Cells, Count;
      ghost var stop := FreeAhead(Cells(), idx);
      slots := 0;
      while !IsFree(idx + slots)
        invariant idx + slots <= stop
        invariant forall x :: idx <= x < idx + slots ==> At(Cells(), x).Full?
        decreases stop - idx - slots
      {
        slots := slots + 1;
      }
    }

    /** Opens the slot `idx` by moving it and the full slots after it one slot on. */
    method MakeRoom(idx: int, ghost m: map<Key, Value>, ghost home: int) returns (ghost h: Table)
      requires Shape() && RobinHood(Cells()) && Represents(Cells(), m)
      requires Count(Cells()) + 1 < size && nItems == Count(Cells())
      requires home <= idx < home + size
      requires forall x :: home <= x < idx ==> At(Cells(), x).Full?
      modifies data, bits, this`nItems
      ensures nItems == old(nItems) + 1
      ensures Shifting(Cells(), h, idx, m) && Count(h) == old(nItems)
      ensures idx > home ==> At(h, idx - 1) == old(At(Cells(), idx - 1))
      ensures At(h, idx + 1).Full? ==>
                Dist(h, idx + 1) == 0 ||
                (old(At(Cells(), idx)).Full? && Dist(h, idx + 1) == old(Dist(Cells(), idx)) + 1)
    {
      hide Wrap, Dist, Represents, Cells, Count, Other, Hole;
      ghost var t := Cells();
      var slotsToMove := FullRun(idx);
      ghost var top := idx + slotsToMove;
      ghost var f := FreeBehind(t, top);
      assert f < home;
      ghost var stale := Acquire(idx + slotsToMove);
      h := t;
      StartShift(t, top, stale, m);
      while slotsToMove > 0
        invariant 0 <= slotsToMove && idx + slotsToMove <= top
        invariant Shifting(Cells(), h, idx + slotsToMove, m)
        invariant |h| == |t| && Count(h) == Count(t)
        invariant f < home && At(h, f).Free? && top - |t| < f
        invariant forall x :: idx - 1 <= x < idx + slotsToMove && x >= home ==> At(h, x) == At(t, x)
        invariant if idx + slotsToMove == top then h == t
                  else At(h, idx + slotsToMove + 1).Full? && At(t, idx + slotsToMove).Full? &&
                       Dist(h, idx + slotsToMove + 1) == Dist(t, idx + slotsToMove) + 1
        invariant nItems == old(nItems) + 1
      {
        slotsToMove := slotsToMove - 1;
        ghost var s := idx + slotsToMove + 1;
        ghost var c := Cells();
        ShiftingAt(c, h, s, s - 1, m);
        ShiftBack(c, h, s, m, f);
        var from := idx + slotsToMove;
        Write(from + 1, EntryAt(from));
        MoveBackKeeps(h, s, idx, home);
        SameDist(h, t, s - 1);
        h := Move(h, s - 1, s);
      }
      if old(At(Cells(), idx)).Free? {
        assert Settled(t, idx + 1);
      }
    }

    method DoInsert(k: Key, v: Value)
      requires Valid() && nItems + size / 8 < size
      modifies data, bits, this`nItems, this`contents
      ensures Valid() && contents == old(contents)[k := v]
    {
      hide Wrap, Dist, Represents, Cells, Count, Other, RobinHood;
      ghost var t, m := Cells(), contents;
      ghost var stop := FreeAhead(t, k);
      var displacement, found := FindPlace(k, stop);
      contents := contents[k := v];
      if found {
        ReplaceEntry(t, k + displacement, v, m);
        Write(k + displacement, Entry(k, v));
      } else {
        AbsentKey(t, m, k, displacement);
        ProbedFull(t, k, displacement);
        ghost var h := MakeRoom(k + displacement, m, k);
        PlaceEntry(t, Cells(), h, k, v, displacement, m);
        Write(k + displacement, Entry(k, v));
      }
    }

    function ShouldGrow(): bool
      reads this
    {
      nItems >= size - size / 8
    }

    function ShouldShrink(): bool
      reads this
    {
      size > 8 && nItems <= size / 8
    }

    /** Fills an empty map with the entries of another. */
    method Populate(src: HashMap)
      requires Valid() && src.Valid() && contents == map[]
      requires src != this && src.data != data && src.bits != bits
      requires src.nItems + size / 8 < size
      modifies data, bits, this`nItems, this`contents
      ensures Valid() && contents == src.contents
    {
      hide Wrap, Dist, Represents, Cells, Count, RobinHood, At, PowerOf2;
      ghost var t, m := src.Cells(), src.contents;
      var i := 0;
      while i < src.size
        invariant i <= src.size && |t| == src.size
        invariant Valid() && contents == Upto(t, i)
        invariant src.Valid() && src.Cells() == t && src.contents == m
      {
        UptoSmall(t, m, i);
        ItemsAreContents();
        src.ItemsAreContents();
        src.CellHere(i);
        if !src.IsFree(i) {
          DoInsert(src.EntryAt(i).k, src.EntryAt(i).v);
        }
        i := i + 1;
      }
      UptoAll(t, m);
    }

    lemma CellHere(i: nat)
      requires Shape() && i < size
      ensures At(Cells(), i) == Cells()[i]
    {
      WrapSmall(size, i);
    }

    lemma ItemsAreContents()
      requires Valid()
      ensures nItems == |contents|
    {
      SizeIsCount(Cells(), contents);
    }

    /** Rebuilds the map in an array of another size. */
    method Resize(slots: nat)
      requires Valid() && slots >= 8 && PowerOf2(slots) && nItems + slots / 8 < slots
      modifies this
      ensures Valid() && contents == old(contents) && nItems == old(nItems) && size == slots
      ensures fresh(data) && fresh(bits)
    {
      hide Wrap, Dist, Represents, Count, RobinHood, At, PowerOf2, TableOf;
      var other := new HashMap(slots);
      other.Populate(this);
      ItemsAreContents();
      other.ItemsAreContents();
      data, bits, size, nItems := other.data, other.bits, other.size, other.nItems;
    }

    method Insert(k: Key, v: Value)
      requires Valid()
      modifies this, data, bits
      ensures Valid() && contents == old(contents)[k := v]
      ensures size == if old(ShouldGrow()) then 2 * old(size) else old(size)
      ensures (data == old(data) && bits == old(bits)) || (fresh(data) && fresh(bits))
    {
      hide Cells, RobinHood, Represents, Count;
      if ShouldGrow() {
        assert PowerOf2(2 * size);
        Resize(2 * size);
      }
      DoInsert(k, v);
    }

    /** Removing a key that is not there is a trap, after which nothing has changed. */
    method Remove(k: Key) returns (ok: bool)
      requires Valid()
      modifies this, data, bits
      ensures Valid()
      ensures ok <==> k in old(contents)
      ensures contents == old(contents) - {k}
      ensures size == if ok && old(size) > 8 && |contents| <= old(size) / 8 then old(size) / 2 else old(size)
      ensures (data == old(data) && bits == old(bits)) || (fresh(data) && fresh(bits))
    {
      hide Wrap, Dist, Represents, Cells, Count, Other, RobinHood, Hole, At;
      var slot;
      ghost var stop;
      slot, stop, ok := Locate(k);
      if !ok {
        return;
      }
      TakeKeeps(Cells(), slot, contents);
      contents := contents - {k};
      CloseUp(slot, stop, contents);
      Shrink();
    }

    /** The slot that holds a key, or the free one at which the walk from its home ends. */
    method Locate(k: Key) returns (slot: int, ghost stop: int, found: bool)
      requires Valid()
      ensures found <==> k in contents
      ensures found ==> At(Cells(), slot).Full? && At(Cells(), slot).k == k && slot < stop && At(Cells(), stop).Free?
    {
      hide Wrap, Dist, Represents, Cells, Count, Other, RobinHood, Hole;
      ghost var t := Cells();
      stop := FreeAhead(t, k);
      slot := k;
      while !IsFree(slot) && EntryAt(slot).k != k
        invariant k <= slot <= stop
        invariant forall j: nat :: j < slot - k ==> Other(t, k, j)
        decreases stop - slot
      {
        IsOther(t, k, slot - k);
        slot := slot + 1;
      }
      found := !IsFree(slot);
      if found {
        PresentKey(t, contents, slot);
      } else {
        AbsentKey(t, contents, k, slot - k);
      }
    }

    /** Halves the table if its items have become few. */
    method Shrink()
      requires Valid()
      modifies this
      ensures Valid() && contents == old(contents)
      ensures size == if old(size) > 8 && |contents| <= old(size) / 8 then old(size) / 2 else old(size)
      ensures (data == old(data) && bits == old(bits)) || (fresh(data) && fresh(bits))
    {
      hide Wrap, Dist, Represents, Cells, Count, RobinHood;
      ItemsAreContents();
      if ShouldShrink() {
        HalfPower(size);
        Resize(size / 2);
      }
    }

    method Contains(k: Key) returns (found: bool)
      requires Valid()
      ensures found <==> k in contents
    {
      var displacement := Probe(k);
      found := !IsFree(k + displacement) && EntryAt(k + displacement).k == k;
      if found {
        PresentKey(Cells(), contents, k + displacement);
      }
    }

    method Lookup(k: Key, default_: Value) returns (v: Value)
      requires Valid()
      ensures v == if k in contents then contents[k] else default_
    {
      v := default_;
      var displacement := Probe(k);
      if !IsFree(k + displacement) && EntryAt(k + displacement).k == k {
        PresentKey(Cells(), contents, k + displacement);
        v := EntryAt(k + displacement).v;
      }
    }

    /** The loop that looking a key up and asking for it share, with its early exit. */
    method Probe(k: Key) returns (displacement: nat)
      requires Valid()
      ensures k !in contents || (At(Cells(), k + displacement).Full? && At(Cells(), k + displacement).k == k)
    {
      hide Wrap, Dist, Represents, Cells, Count, Other, RobinHood;
      ghost var stop := FreeAhead(Cells(), k);
      displacement := 0;
      while !IsFree(k + displacement)
        invariant k + displacement <= stop
        invariant forall j: nat :: j < displacement ==> Other(Cells(), k, j)
        decreases stop - displacement
      {
        if EntryAt(k + displacement).k == k {
          return;
        }
        if Distance(k + displacement) < displacement {
          break;
        }
        IsOther(Cells(), k, displacement);
        displacement := displacement + 1;
      }
      AbsentKey(Cells(), contents, k, displacement);
    }

    method Clear()
      requires Valid()
      modifies bits, this`nItems, this`contents
      ensures Valid() && contents == map[]
    {
      forall i | 0 <= i < size {
        bits[i] := false;
      }
      nItems := 0;
      contents := map[];
      EmptyTable(Cells());
    }

    function Size(): nat
      reads this
    {
      nItems
    }

    /** The entries in the order in which a walk over the slots meets them. */
    method ForEach() returns (visited: seq<Entry>)
      requires Valid()
      ensures |visited| == |contents|
      ensures forall i, j :: 0 <= i < j < |visited| ==> visited[i].k != visited[j].k
      ensures forall e :: e in visited ==> e.k in contents && contents[e.k] == e.v
      ensures forall k :: k in contents ==> Entry(k, contents[k]) in visited
    {
      hide Wrap, Represents, Count, RobinHood, At, TableOf;
      ghost var t := Cells();
      visited := [];
      var i := 0;
      while i < size
        invariant i <= size
        invariant visited == Listed(t, i)
      {
        CellHere(i);
        if !IsFree(i) {
          visited := visited + [EntryAt(i)];
        }
        i := i + 1;
      }
      ListedAll(t, contents);
    }

    /** Takes the entry in `at` out, moving the entries after it back until one is at home. */
    method CloseUp(at: int, ghost stop: int, ghost m: map<Key, Value>)
      requires Shape() && RobinHood(Cells()) && nItems == Count(Cells())
      requires At(Cells(), at).Full? && at < stop && At(Cells(), stop).Free?
      requires Represents(Put(Cells(), at, Free), m)
      modifies data, bits, this`nItems
      ensures RobinHood(Cells()) && Represents(Cells(), m)
      ensures nItems == Count(Cells()) == old(nItems) - 1
    {
      hide Wrap, Dist, Represents, Cells, Count, Other, RobinHood, Hole;
      var slot := at;
      ghost var h := Put(Cells(), at, Free);
      OpenHole(Cells(), at);
      TakeCount(Cells(), at);
      while !IsFree(slot + 1) && Distance(slot + 1) != 0
        invariant at <= slot < stop
        invariant Shifting(Cells(), h, slot, m)
        invariant Count(h) + 1 == old(nItems)
        invariant At(Cells(), stop).Free?
        invariant nItems == old(nItems)
        decreases stop - slot
      {
        ghost var c := Cells();
        ShiftForward(c, h, slot, m);
        AtPut(c, slot, At(c, slot + 1), stop);
        SlotsDiffer(c, slot, stop);
        Write(slot, EntryAt(slot + 1));
        h := Move(h, slot + 1, slot);
        slot := slot + 1;
      }
      ghost var c := Cells();
      ShiftingAt(c, h, slot, slot + 1, m);
      SameDist(c, h, slot + 1);
      HoleIsFree(h, slot);
      Release(slot);
    }
  }

  lemma {:induction false} CountNone(t: seq<Cell>)
    requires forall i :: 0 <= i < |t| ==> t[i].Free?
    ensures Count(t) == 0
  {
    if t != [] {
      CountNone(t[..|t| - 1]);
    }
  }

  lemma EmptyTable(t: Table)
    requires forall i :: 0 <= i < |t| ==> t[i].Free?
    ensures RobinHood(t) && Represents(t, map[]) && Count(t) == 0
  {
    CountNone(t);
  }

  // ---------- The address map ----------

  type Address = bv64

  /** An address as a number. */
  function Num(a: Address): nat {
    a as nat
  }

  lemma NumBack(a: Address)
    ensures Num(a) < 0x1_0000_0000_0000_0000 && Num(a) as Address == a
  {}

  /** The key that an address has in the table. */
  function KeyOf(a: Address): Key {
    Num(A.Hash(a))
  }

  function AddressOf(k: Key): Address
    requires k < 0x1_0000_0000_0000_0000
  {
    A.Unhash(k as bv64)
  }

  lemma KeyBack(a: Address)
    ensures KeyOf(a) < 0x1_0000_0000_0000_0000 && AddressOf(KeyOf(a)) == a
  {
    hide A.Hash, A.Unhash;
    A.UnhashHash(a);
    NumBack(A.Hash(a));
    hide Num;
  }

  lemma SameNum(a: Address, b: Address)
    ensures Num(a) == Num(b) <==> a == b
    ensures KeyOf(a) == KeyOf(b) <==> a == b
  {
    hide Num, KeyOf, AddressOf;
    NumBack(a);
    NumBack(b);
    KeyBack(a);
    KeyBack(b);
  }

  datatype Binding = Binding(address: Address, v: Value)

  class AddressMap {
    const hashMap: HashMap
    /** By number of the address. */
    ghost var contents: map<nat, Value>

    ghost predicate Valid()
      reads this, hashMap, hashMap.data, hashMap.bits
    {
      hashMap.Valid() && Mirrors(contents, hashMap.contents)
    }

    constructor ()
      ensures Valid() && contents == map[]
      ensures fresh(hashMap) && fresh(hashMap.data) && fresh(hashMap.bits)
    {
      hashMap := new HashMap(8);
      contents := map[];
    }

    method Add(address: Address, v: Value)
      requires Valid()
      modifies this, hashMap, hashMap.data, hashMap.bits
      ensures Valid() && contents == old(contents)[Num(address) := v]
    {
      hide Num, KeyOf;
      MirrorAdd(contents, hashMap.contents, address, v);
      hashMap.Insert(KeyOf(address), v);
      contents := contents[Num(address) := v];
    }

    method Remove(address: Address) returns (ok: bool)
      requires Valid()
      modifies this, hashMap, hashMap.data, hashMap.bits
      ensures Valid()
      ensures ok <==> Num(address) in old(contents)
      ensures contents == old(contents) - {Num(address)}
    {
      hide Num, KeyOf;
      MirrorRemove(contents, hashMap.contents, address);
      ok := hashMap.Remove(KeyOf(address));
      contents := contents - {Num(address)};
    }

    method Contains(address: Address) returns (found: bool)
      requires Valid()
      ensures found <==> Num(address) in contents
    {
      hide Num, KeyOf;
      MirrorAt(contents, hashMap.contents, address);
      found := hashMap.Contains(KeyOf(address));
    }

    method Lookup(address: Address, default_: Value) returns (v: Value)
      requires Valid()
      ensures v == if Num(address) in contents then contents[Num(address)] else default_
    {
      hide Num, KeyOf;
      MirrorAt(contents, hashMap.contents, address);
      v := hashMap.Lookup(KeyOf(address), default_);
    }

    /** A walk yields the addresses that were added, each once, with what was last stored for it. */
    method ForEach() returns (visited: seq<Binding>)
      requires Valid()
      ensures forall i, j :: 0 <= i < j < |visited| ==> visited[i].address != visited[j].address
      ensures forall b :: b in visited ==> Num(b.address) in contents && contents[Num(b.address)] == b.v
      ensures forall a: Address :: Num(a) in contents ==> Binding(a, contents[Num(a)]) in visited
    {
      hide Num, KeyOf, AddressOf, IsKey;
      var entries := hashMap.ForEach();
      KeysAreWords(contents, hashMap.contents);
      visited := seq(|entries|, i requires 0 <= i < |entries| && entries[i].k < 0x1_0000_0000_0000_0000 =>
                                  Binding(AddressOf(entries[i].k), entries[i].v));
      WalkMirrors(contents, hashMap.contents, entries, visited);
    }
  }

  /** The table holds under the hashes what the map holds under the addresses, and nothing else. */
  ghost predicate Mirrors(c: map<nat, Value>, h: map<Key, Value>) {
    && (forall a: Address :: Num(a) in c <==> KeyOf(a) in h)
    && (forall a: Address :: Num(a) in c && KeyOf(a) in h ==> c[Num(a)] == h[KeyOf(a)])
    && (forall k :: k in h ==> IsKey(k))
  }

  ghost predicate IsKey(k: Key) {
    exists a: Address :: KeyOf(a) == k
  }

  lemma MirrorAt(c: map<nat, Value>, h: map<Key, Value>, a: Address)
    requires Mirrors(c, h)
    ensures Num(a) in c <==> KeyOf(a) in h
    ensures Num(a) in c ==> c[Num(a)] == h[KeyOf(a)]
  {}

  lemma MirrorAdd(c: map<nat, Value>, h: map<Key, Value>, a: Address, v: Value)
    requires Mirrors(c, h)
    ensures Mirrors(c[Num(a) := v], h[KeyOf(a) := v])
  {
    hide Num, KeyOf;
    forall b: Address ensures Num(a) == Num(b) <==> KeyOf(a) == KeyOf(b) {
      SameNum(a, b);
    }
  }

  lemma MirrorRemove(c: map<nat, Value>, h: map<Key, Value>, a: Address)
    requires Mirrors(c, h)
    ensures Mirrors(c - {Num(a)}, h - {KeyOf(a)})
    ensures Num(a) in c <==> KeyOf(a) in h
  {
    hide Num, KeyOf;
    forall b: Address ensures Num(a) == Num(b) <==> KeyOf(a) == KeyOf(b) {
      SameNum(a, b);
    }
  }

  lemma KeysAreWords(c: map<nat, Value>, h: map<Key, Value>)
    requires Mirrors(c, h)
    ensures forall k :: k in h ==> k < 0x1_0000_0000_0000_0000
  {
    hide Num, KeyOf;
    forall k | k in h ensures k < 0x1_0000_0000_0000_0000 {
      assert IsKey(k);
      var a: Address :| KeyOf(a) == k;
      KeyBack(a);
    }
  }

  /** Unhashing the keys of a walk gives back the addresses. */
  lemma WalkMirrors(c: map<nat, Value>, h: map<Key, Value>, entries: seq<Entry>, visited: seq<Binding>)
    requires Mirrors(c, h)
    requires |visited| == |entries|
    requires forall e :: e in entries ==> e.k in h && h[e.k] == e.v && e.k < 0x1_0000_0000_0000_0000
    requires forall k :: k in h ==> Entry(k, h[k]) in entries
    requires forall i, j :: 0 <= i < j < |entries| ==> entries[i].k != entries[j].k
    requires forall i :: 0 <= i < |entries| ==> visited[i] == Binding(AddressOf(entries[i].k), entries[i].v)
    ensures forall i, j :: 0 <= i < j < |visited| ==> visited[i].address != visited[j].address
    ensures forall b :: b in visited ==> Num(b.address) in c && c[Num(b.address)] == b.v
    ensures forall a: Address :: Num(a) in c ==> Binding(a, c[Num(a)]) in visited
  {
    hide Num, KeyOf, AddressOf;
    forall i | 0 <= i < |entries| ensures KeyOf(visited[i].address) == entries[i].k {
      assert entries[i] in entries;
      assert IsKey(entries[i].k);
      var a: Address :| KeyOf(a) == entries[i].k;
      KeyBack(a);
    }
    forall b | b in visited ensures Num(b.address) in c && c[Num(b.address)] == b.v {
      var i :| 0 <= i < |visited| && visited[i] == b;
      assert entries[i] in entries;
      MirrorAt(c, h, b.address);
    }
    forall a: Address | Num(a) in c ensures Binding(a, c[Num(a)]) in visited {
      MirrorAt(c, h, a);
      var e := Entry(KeyOf(a), h[KeyOf(a)]);
      assert e in entries;
      var i :| 0 <= i < |entries| && entries[i] == e;
      KeyBack(a);
      assert visited[i] == Binding(a, c[Num(a)]);
    }
  }
}
