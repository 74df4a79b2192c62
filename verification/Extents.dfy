/**
  The sorted table of address ranges of src/extents.h.
*/
module Extents {

  datatype Range = Range(lo: nat, hi: nat)

  /** Ranges in order, none of them at address 0, and none overlapping another. */
  ghost predicate Sorted(rs: seq<Range>) {
    && (forall i :: 0 <= i < |rs| ==> 0 < rs[i].lo < rs[i].hi)
    && (forall i, j :: 0 <= i < j < |rs| ==> rs[i].hi <= rs[j].lo)
  }

  ghost predicate Covered(rs: seq<Range>, x: int) {
    exists i :: 0 <= i < |rs| && rs[i].lo <= x < rs[i].hi
  }

  ghost predicate Outside(rs: seq<Range>, r: Range) {
    forall i :: 0 <= i < |rs| ==> rs[i].hi <= r.lo || r.hi <= rs[i].lo
  }

  function Inserted(rs: seq<Range>, i: nat, r: Range): seq<Range>
    requires i <= |rs|
  {
    rs[..i] + [r] + rs[i..]
  }

  /** A new range between those that end before it and those that begin after it. */
  lemma InsertedSorted(rs: seq<Range>, i: nat, r: Range)
    requires Sorted(rs) && i <= |rs| && 0 < r.lo < r.hi
    requires forall j :: 0 <= j < i ==> rs[j].hi <= r.lo
    requires forall j :: i <= j < |rs| ==> r.hi <= rs[j].lo
    ensures Sorted(Inserted(rs, i, r))
  {
    var rs' := Inserted(rs, i, r);
    forall a, b | 0 <= a < b < |rs'| ensures rs'[a].hi <= rs'[b].lo {
      var a0, b0 := if a <= i then a else a - 1, if b <= i then b else b - 1;
      assert a != i ==> rs'[a] == rs[a0];
      assert b != i ==> rs'[b] == rs[b0];
    }
  }

  lemma InsertedCovers(rs: seq<Range>, i: nat, r: Range, x: int)
    requires i <= |rs|
    ensures Covered(Inserted(rs, i, r), x) <==> Covered(rs, x) || r.lo <= x < r.hi
  {
    var rs' := Inserted(rs, i, r);
    if Covered(rs, x) {
      var j :| 0 <= j < |rs| && rs[j].lo <= x < rs[j].hi;
      assert rs'[if j < i then j else j + 1] == rs[j];
    }
    assert rs'[i] == r;
  }

  ghost predicate Touches(rs: seq<Range>, r: Range) {
    exists i :: 0 <= i < |rs| && (r.hi == rs[i].lo || r.lo == rs[i].hi)
  }

  /** A range that touches one of the table grows it. */
  lemma GrownCovers(rs: seq<Range>, i: nat, r: Range, grown: Range)
    requires Sorted(rs) && Outside(rs, r) && i < |rs| && 0 < r.lo < r.hi
    requires (r.hi == rs[i].lo && grown == Range(r.lo, rs[i].hi)) || (r.lo == rs[i].hi && grown == Range(rs[i].lo, r.hi))
    requires forall j :: 0 <= j < i ==> rs[j].hi <= r.lo
    ensures Sorted(rs[i := grown])
    ensures forall x :: Covered(rs[i := grown], x) <==> Covered(rs, x) || r.lo <= x < r.hi
  {
    var rs' := rs[i := grown];
    forall j | i < j < |rs| ensures grown.hi <= rs[j].lo {
      assert rs[i].hi <= rs[j].lo && (rs[j].hi <= r.lo || r.hi <= rs[j].lo);
    }
    forall x ensures Covered(rs', x) <==> Covered(rs, x) || r.lo <= x < r.hi {
      if Covered(rs, x) {
        var j :| 0 <= j < |rs| && rs[j].lo <= x < rs[j].hi;
        assert rs'[j].lo <= x < rs'[j].hi;
      }
      assert rs'[i] == grown;
    }
  }

  class Table {
    var ranges: array<Range>
    var size: nat

    ghost predicate Valid()
      reads this, ranges
    {
      size <= ranges.Length && Sorted(ranges[..size])
    }

    ghost function Contents(): seq<Range>
      reads this, ranges
      requires size <= ranges.Length
    {
      ranges[..size]
    }

    constructor (capacity: nat)
      ensures Valid() && Contents() == [] && fresh(ranges) && ranges.Length == capacity
    {
      ranges := new Range[capacity](_ => Range(0, 0));
      size := 0;
    }

    /** Binary search: the start of the range that holds an address, or 0 exactly if none does. */
    method ContainAddr(addr: nat) returns (r: nat)
      requires Valid()
      ensures r == 0 <==> !Covered(Contents(), addr)
      ensures r != 0 ==> exists i :: 0 <= i < size && ranges[i].lo == r && r <= addr < ranges[i].hi
    {
      var lo, hi := 0, size;
      while lo != hi
        invariant lo <= hi <= size
        invariant forall i :: 0 <= i < lo ==> ranges[i].hi <= addr
        invariant forall i :: hi <= i < size ==> addr < ranges[i].lo
        decreases hi - lo
      {
        var mid := (lo + hi) / 2;
        var range := ranges[mid];
        if addr < range.lo {
          hi := mid;
        } else if addr < range.hi {
          assert Contents()[mid] == range;
          return range.lo;
        } else {
          lo := mid + 1;
        }
      }
      return 0;
    }

    /** Room is made in place, or in a larger array if there is none. */
    method Insert(idx: nat, range: Range)
      requires size <= ranges.Length && idx <= size
      modifies this, ranges
      ensures size <= ranges.Length && Contents() == Inserted(old(Contents()), idx, range)
      ensures ranges == old(ranges) || (fresh(ranges) && ranges.Length == 2 * old(ranges.Length) + 1)
    {
      ghost var rs := Contents();
      if size < ranges.Length {
        forall i | idx <= i < size {
          ranges[i + 1] := ranges[i];
        }
        ranges[idx] := range;
      } else {
        var larger := new Range[2 * ranges.Length + 1](_ => Range(0, 0));
        forall i | 0 <= i < idx {
          larger[i] := ranges[i];
        }
        forall i | idx <= i < size {
          larger[i + 1] := ranges[i];
        }
        larger[idx] := range;
        ranges := larger;
      }
      size := size + 1;
      assert Contents() == Inserted(rs, idx, range);
    }

    /** Adds a range that overlaps none, growing a range that it touches if it finds one. */
    method Adjoin(lo: nat, bytes: nat)
      requires Valid() && lo > 0 && bytes > 0 && Outside(Contents(), Range(lo, lo + bytes))
      modifies this, ranges
      ensures Valid()
      ensures forall x :: Covered(Contents(), x) <==> Covered(old(Contents()), x) || lo <= x < lo + bytes
      ensures size == if Touches(old(Contents()), Range(lo, lo + bytes)) then old(size) else old(size) + 1
    {
      ghost var rs := Contents();
      var range := Range(lo, lo + bytes);
      var i := 0;
      while i < size
        invariant i <= size && Contents() == rs && ranges == old(ranges) && size == old(size)
        invariant forall j :: 0 <= j < i ==> rs[j].hi < range.lo
      {
        assert rs[i] == ranges[i];
        if range.hi < ranges[i].lo {
          break;
        } else if range.hi == ranges[i].lo {
          GrownCovers(rs, i, range, Range(range.lo, rs[i].hi));
          ranges[i] := Range(range.lo, ranges[i].hi);
          assert Contents() == rs[i := Range(range.lo, rs[i].hi)];
          return;
        } else if range.lo == ranges[i].hi {
          GrownCovers(rs, i, range, Range(rs[i].lo, range.hi));
          ranges[i] := Range(ranges[i].lo, range.hi);
          assert Contents() == rs[i := Range(rs[i].lo, range.hi)];
          return;
        }
        i := i + 1;
      }
      InsertedSorted(rs, i, range);
      forall x: int {
        InsertedCovers(rs, i, range, x);
      }
      Insert(i, range);
    }

    /** Adds a range after all the others, within the capacity that was prepared. */
    method Append(lo: nat, bytes: nat)
      requires Valid() && lo > 0 && bytes > 0 && size < ranges.Length && (size > 0 ==> ranges[size - 1].hi <= lo)
      modifies this, ranges
      ensures Valid() && ranges == old(ranges) && Contents() == old(Contents()) + [Range(lo, lo + bytes)]
    {
      ghost var rs := Contents();
      forall j | 0 <= j < |rs| ensures rs[j].hi <= lo {
        assert rs[j].hi <= rs[|rs| - 1].hi;
      }
      ranges[size] := Range(lo, lo + bytes);
      size := size + 1;
      assert Contents() == rs + [Range(lo, lo + bytes)];
    }

    /** Empties the table and sees to it that as many ranges as announced will fit. */
    method Prepare(n: nat)
      requires Valid()
      modifies this
      ensures Valid() && Contents() == [] && n <= ranges.Length
      ensures if n <= old(size) then ranges == old(ranges) else ranges.Length == if 2 * old(size) < n then n else 2 * old(size)
    {
      if n <= size {
        size := 0;
        return;
      }
      var capacity := size * 2;
      if capacity < n {
        capacity := n;
      }
      ranges := new Range[capacity](_ => Range(0, 0));
      size := 0;
    }
  }
}
