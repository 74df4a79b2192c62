/**
  The remembered set of src/field-set.h: edges collected in fixed-size buffers, one buffer in
  the hands of each mutator, the others on a list of full ones, a stack of partly full ones
  or a list of empty ones.
*/
module FieldSet {

  datatype Edge = Edge(obj: nat, field: nat)

  const Capacity: nat := 510  // GC_EDGE_BUFFER_CAPACITY

  type Buffer = seq<Edge>

  datatype Writer = NoBuffer | Writing(buf: Buffer)

  function Sum(bs: seq<Buffer>): multiset<Edge> {
    if bs == [] then multiset{} else Sum(bs[..|bs| - 1]) + multiset(bs[|bs| - 1])
  }

  function Held(w: Writer): multiset<Edge> {
    match w
    case NoBuffer => multiset{}
    case Writing(buf) => multiset(buf)
  }

  function AllHeld(ws: seq<Writer>): multiset<Edge> {
    if ws == [] then multiset{} else AllHeld(ws[..|ws| - 1]) + Held(ws[|ws| - 1])
  }

  lemma {:induction false} HeldUpdate(ws: seq<Writer>, i: nat, w: Writer, e: Edge)
    requires i < |ws|
    ensures AllHeld(ws[i := w])[e] + Held(ws[i])[e] == AllHeld(ws)[e] + Held(w)[e]
  {
    hide Held;
    var n := |ws| - 1;
    if i == n {
      assert ws[i := w][..n] == ws[..n];
    } else {
      HeldUpdate(ws[..n], i, w, e);
      assert ws[i := w][..n] == ws[..n][i := w] && ws[i := w][n] == ws[n] && ws[..n][i] == ws[i];
    }
  }

  lemma {:induction false} HeldWithout(ws: seq<Writer>, i: nat, w: Writer) returns (rest: multiset<Edge>)
    requires i < |ws|
    ensures AllHeld(ws) == rest + Held(ws[i]) && AllHeld(ws[i := w]) == rest + Held(w)
  {
    hide Held;
    var n := |ws| - 1;
    if i == n {
      assert ws[i := w][..n] == ws[..n];
      rest := AllHeld(ws[..n]);
    } else {
      rest := HeldWithout(ws[..n], i, w);
      assert ws[i := w][..n] == ws[..n][i := w];
      rest := rest + Held(ws[n]);
    }
  }

  lemma BufferFills(full: seq<Buffer>, partlyFull: seq<Buffer>, ws: seq<Writer>, w: nat, e: Edge)
    requires w < |ws| && ws[w].Writing?
    ensures Sum(full + [ws[w].buf + [e]]) + Sum(partlyFull) + AllHeld(ws[w := NoBuffer])
         == Sum(full) + Sum(partlyFull) + AllHeld(ws) + multiset{e}
  {
    hide Sum, AllHeld;
    SumPush(full, ws[w].buf + [e]);
    var rest := HeldWithout(ws, w, NoBuffer);
  }

  lemma BufferGrows(full: seq<Buffer>, partlyFull: seq<Buffer>, ws: seq<Writer>, w: nat, e: Edge)
    requires w < |ws| && ws[w].Writing?
    ensures Sum(full) + Sum(partlyFull) + AllHeld(ws[w := Writing(ws[w].buf + [e])])
         == Sum(full) + Sum(partlyFull) + AllHeld(ws) + multiset{e}
  {
    hide Sum, AllHeld;
    var rest := HeldWithout(ws, w, Writing(ws[w].buf + [e]));
  }

  lemma {:induction false} NothingHeld(ws: seq<Writer>)
    requires forall i :: 0 <= i < |ws| ==> ws[i].NoBuffer?
    ensures AllHeld(ws) == multiset{}
  {
    if ws != [] { NothingHeld(ws[..|ws| - 1]); }
  }

  lemma SumPush(bs: seq<Buffer>, b: Buffer)
    ensures Sum(bs + [b]) == Sum(bs) + multiset(b)
  {
    assert (bs + [b])[..|bs|] == bs;
  }

  lemma NoBuffers()
    ensures Sum([]) == multiset{}
  {
  }

  lemma MoveLast(to: seq<Buffer>, from: seq<Buffer>)
    requires from != []
    ensures Sum(to + [from[|from| - 1]]) + Sum(from[..|from| - 1]) == Sum(to) + Sum(from)
  {
    SumPush(to, from[|from| - 1]);
  }

  lemma {:induction false} SumConcat(a: seq<Buffer>, b: seq<Buffer>)
    ensures Sum(a + b) == Sum(a) + Sum(b)
  {
    if b == [] {
      assert a + b == a;
    } else {
      SumConcat(a, b[..|b| - 1]);
      assert (a + b)[..|a + b| - 1] == a + b[..|b| - 1];
    }
  }

  /** How many mutators hold a buffer. */
  function Holders(ws: seq<Writer>): nat {
    if ws == [] then 0 else Holders(ws[..|ws| - 1]) + if ws[|ws| - 1].Writing? then 1 else 0
  }

  lemma {:induction false} HoldersUpdate(ws: seq<Writer>, i: nat, w: Writer)
    requires i < |ws|
    ensures Holders(ws[i := w]) + (if ws[i].Writing? then 1 else 0) == Holders(ws) + if w.Writing? then 1 else 0
  {
    var n := |ws| - 1;
    if i == n {
      assert ws[i := w][..n] == ws[..n];
    } else {
      HoldersUpdate(ws[..n], i, w);
      assert ws[i := w][..n] == ws[..n][i := w] && ws[i := w][n] == ws[n] && ws[..n][i] == ws[i];
    }
  }

  class RememberedSet {
    var full: seq<Buffer>
    var partlyFull: seq<Buffer>
    var empty: nat              // buffers on the empty list
    var writers: seq<Writer>    // one per mutator

    ghost predicate Valid()
      reads this
    {
      && (forall i :: 0 <= i < |full| ==> |full[i]| == Capacity)
      && (forall i :: 0 <= i < |partlyFull| ==> |partlyFull[i]| < Capacity)
      && (forall i :: 0 <= i < |writers| ==> writers[i].Writing? ==> |writers[i].buf| < Capacity)
    }

    /** Every edge remembered, wherever it is. */
    ghost function Contents(): multiset<Edge>
      reads this
    {
      Sum(full) + Sum(partlyFull) + AllHeld(writers)
    }

    /** Every buffer of the set, wherever it is. */
    ghost function Buffers(): nat
      reads this
    {
      |full| + |partlyFull| + empty + Holders(writers)
    }

    /** There is a buffer to be had without allocating one. */
    ghost predicate Spare()
      reads this
    {
      empty > 0 || partlyFull != []
    }

    constructor (mutators: nat)
      ensures Valid() && Contents() == multiset{} && |writers| == mutators && empty == 0
      ensures full == [] && partlyFull == []
    {
      full, partlyFull, empty, writers := [], [], 0, seq(mutators, _ => NoBuffer);
      new;
      NothingHeld(writers);
    }

    /** gc_field_set_acquire_buffer: an empty buffer, or a partly full one, or a new one. */
    method Acquire() returns (buf: Buffer)
      requires Valid()
      modifies this
      ensures Valid() && |buf| < Capacity && writers == old(writers) && full == old(full)
      ensures Sum(partlyFull) + multiset(buf) == Sum(old(partlyFull))
      ensures |partlyFull| + empty == old(|partlyFull| + empty) - if old(Spare()) then 1 else 0
    {
      if empty > 0 {
        empty := empty - 1;
        buf := [];
      } else if |partlyFull| > 0 {
        buf := partlyFull[|partlyFull| - 1];
        partlyFull := partlyFull[..|partlyFull| - 1];
      } else {
        buf := [];
      }
    }

    /** The writer gets a buffer if it has none. */
    method EnsureBuffer(w: nat)
      requires Valid() && w < |writers|
      modifies this
      ensures Valid() && |writers| == |old(writers)| && writers[w].Writing?
      ensures Contents() == old(Contents())
      ensures Buffers() == old(Buffers()) + if old(writers[w].NoBuffer? && !Spare()) then 1 else 0
    {
      hide Sum;
      if writers[w].NoBuffer? {
        ghost var before, ws := Contents(), writers;
        var buf := Acquire();
        writers := writers[w := Writing(buf)];
        HoldersUpdate(ws, w, Writing(buf));
        forall x ensures Contents()[x] == before[x] { HeldUpdate(ws, w, Writing(buf), x); }
      }
    }

    /** gc_field_set_writer_add_edge */
    method AddEdge(w: nat, e: Edge)
      requires Valid() && w < |writers|
      modifies this
      ensures Valid() && |writers| == |old(writers)|
      ensures Contents() == old(Contents()) + multiset{e}
      ensures Buffers() == old(Buffers()) + if old(writers[w].NoBuffer? && !Spare()) then 1 else 0
    {
      hide Sum, AllHeld, Held, Holders;
      EnsureBuffer(w);
      ghost var full0, ws := full, writers;
      var buf := writers[w].buf + [e];
      if |buf| == Capacity {
        full := full + [buf];
        writers := writers[w := NoBuffer];
        HoldersUpdate(ws, w, NoBuffer);
        BufferFills(full0, partlyFull, ws, w, e);
      } else {
        writers := writers[w := Writing(buf)];
        HoldersUpdate(ws, w, Writing(buf));
        BufferGrows(full0, partlyFull, ws, w, e);
      }
    }

    /** gc_field_set_release_buffer */
    method Release(buf: Buffer)
      requires Valid() && |buf| <= Capacity
      modifies this
      ensures Valid() && writers == old(writers)
      ensures Sum(full) + Sum(partlyFull) == old(Sum(full) + Sum(partlyFull)) + multiset(buf)
      ensures Contents() == old(Contents()) + multiset(buf) && Buffers() == old(Buffers()) + 1
    {
      if |buf| == Capacity {
        SumPush(full, buf);
        full := full + [buf];
      } else {
        SumPush(partlyFull, buf);
        partlyFull := partlyFull + [buf];
      }
    }

    /** gc_field_set_writer_release_buffer, as every mutator does before it stops. */
    method ReleaseWriter(w: nat)
      requires Valid() && w < |writers|
      modifies this
      ensures Valid() && writers == old(writers)[w := NoBuffer] && Contents() == old(Contents())
      ensures Buffers() == old(Buffers())
    {
      hide Sum, AllHeld, Holders;
      ghost var before, ws := Contents(), writers;
      match writers[w]
      case NoBuffer => assert writers[w := NoBuffer] == writers;
      case Writing(buf) =>
        Release(buf);
        writers := writers[w := NoBuffer];
        HoldersUpdate(ws, w, NoBuffer);
        forall x ensures Contents()[x] == before[x] { HeldUpdate(ws, w, NoBuffer, x); }
    }

    method ReleaseAll()
      requires Valid()
      modifies this
      ensures Valid() && |writers| == |old(writers)| && Contents() == old(Contents()) && Buffers() == old(Buffers())
      ensures forall i :: 0 <= i < |writers| ==> writers[i].NoBuffer?
      ensures Sum(full) + Sum(partlyFull) == Contents()
    {
      var w := 0;
      while w < |writers|
        invariant Valid() && w <= |writers| == |old(writers)| && Contents() == old(Contents()) && Buffers() == old(Buffers())
        invariant forall i :: 0 <= i < w ==> writers[i].NoBuffer?
      {
        ReleaseWriter(w);
        w := w + 1;
      }
      NothingHeld(writers);
    }

    /** gc_field_set_add_roots: hand the tracer every buffer of the set. */
    method AddRoots() returns (roots: seq<Buffer>)
      requires Valid()
      modifies this
      ensures Valid() && full == [] && partlyFull == [] && writers == old(writers)
      ensures Sum(roots) == old(Sum(full) + Sum(partlyFull)) && forall b :: b in roots ==> |b| <= Capacity
      ensures Buffers() + |roots| == old(Buffers())
    {
      hide Sum;
      roots := [];
      ghost var full0, partly0 := full, partlyFull;
      NoBuffers();
      while |partlyFull| > 0
        invariant Valid() && full == full0 && writers == old(writers) && Buffers() + |roots| == old(Buffers())
        invariant Sum(roots) + Sum(partlyFull) == Sum(partly0) && forall b :: b in roots ==> |b| <= Capacity
        decreases |partlyFull|
      {
        MoveLast(roots, partlyFull);
        roots := roots + [partlyFull[|partlyFull| - 1]];
        partlyFull := partlyFull[..|partlyFull| - 1];
      }
      assert Sum(roots) == Sum(partly0);
      while |full| > 0
        invariant Valid() && partlyFull == [] && writers == old(writers) && Buffers() + |roots| == old(Buffers())
        invariant Sum(roots) + Sum(full) == Sum(full0) + Sum(partly0) && forall b :: b in roots ==> |b| <= Capacity
        decreases |full|
      {
        MoveLast(roots, full);
        roots := roots + [full[|full| - 1]];
        full := full[..|full| - 1];
      }
    }

    /** gc_field_set_visit_edge_buffer: edges that `keep` rejects are overwritten by the last one; then
        the buffer goes back to the set. */
    method VisitBuffer(buf0: Buffer, keep: Edge -> bool)
      requires Valid() && |buf0| <= Capacity
      modifies this
      ensures Valid() && writers == old(writers) && Buffers() == old(Buffers()) + 1
      ensures forall e :: Contents()[e] == old(Contents())[e] + if keep(e) then multiset(buf0)[e] else 0
    {
      var buf := buf0;
      var i := 0;
      while i < |buf|
        invariant i <= |buf| <= Capacity
        invariant forall k :: 0 <= k < i ==> keep(buf[k])
        invariant forall e :: keep(e) ==> multiset(buf)[e] == multiset(buf0)[e]
        decreases |buf| - i
        modifies {}
      {
        if keep(buf[i]) {
          i := i + 1;
        } else {
          DropLast(buf, i);
          buf := buf[i := buf[|buf| - 1]][..|buf| - 1];
        }
      }
      forall e | !keep(e) ensures multiset(buf)[e] == 0 {
        assert e !in buf;
      }
      Release(buf);
    }

    /** gc_field_set_clear: everything is forgotten, and the buffers kept for later. */
    method Clear() returns (forgotten: seq<Buffer>)
      requires Valid() && forall i :: 0 <= i < |writers| ==> writers[i].NoBuffer?
      modifies this
      ensures Valid() && Contents() == multiset{} && writers == old(writers)
      ensures Sum(forgotten) == old(Contents())
      ensures full == [] && partlyFull == [] && Buffers() == old(Buffers())
    {
      forgotten := partlyFull + full;
      SumConcat(partlyFull, full);
      NothingHeld(writers);
      empty := empty + |partlyFull| + |full|;
      full, partlyFull := [], [];
    }
  }

  /** Overwriting an element with the last one and shortening the buffer removes it, once. */
  lemma DropLast(buf: Buffer, i: nat)
    requires i < |buf|
    ensures multiset(buf[i := buf[|buf| - 1]][..|buf| - 1]) == multiset(buf) - multiset{buf[i]}
  {
    var n := |buf| - 1;
    assert buf == buf[..n] + [buf[n]];
    if i < n {
      var front := buf[..n];
      assert buf[i := buf[n]][..n] == front[i := buf[n]];
      assert multiset(front[i := buf[n]]) == multiset(front) - multiset{front[i]} + multiset{buf[n]};
    } else {
      assert buf[i := buf[n]][..n] == buf[..n];
    }
  }
}
