/**
  How src/semi.c pays for large objects: semi_space_steal_pages takes half their pages from
  each semi-space, semi_space_finish_gc and reset_heap_limits settle the account after a
  collection, under a fixed heap size.

  Addresses are offsets from the base of the active space.  `large` is what no variable of
  the program holds between collections: the pages in use by large objects.
*/
module PageStealing {

  datatype Pages = Pages(
    hp: nat, limit: nat,    // of the active space
    active: nat,            // active_size of both regions
    stolen: nat,            // stolen_pages
    large: nat)             // pages that large objects occupy

  /** Page size and the size of one region, as reset_heap_limits computes it. */
  datatype Config = Config(pageSize: nat, region: nat)

  ghost predicate ConfigOk(c: Config) {
    c.pageSize > 0 && c.pageSize % 2 == 0 && c.region % c.pageSize == 0
  }

  /** align_up(n, 2) / 2: the share of each region. */
  function HalfUp(n: nat): nat {
    (n + 1) / 2
  }

  function Share(c: Config, n: nat): nat {
    HalfUp(n) * c.pageSize
  }

  // ---------- The operations ----------

  function NewlyStolen(c: Config, p: Pages, npages: nat): int {
    Share(c, p.stolen + npages) - Share(c, p.stolen)
  }

  predicate CanSteal(c: Config, p: Pages, npages: nat) {
    p.limit - p.hp >= NewlyStolen(c, p, npages)
  }

  /** The assertions of reset_heap_limits. */
  predicate ResetOk(c: Config, hp: nat, stolen: nat) {
    c.region > Share(c, stolen) && hp <= c.region - Share(c, stolen)
  }

  /** The account a collection leaves that finds `live` bytes of small objects and `livePages`
      pages of large ones. */
  function AfterGc(c: Config, live: nat, livePages: nat): Pages {
    var share := Share(c, livePages);
    var active := if share <= c.region then c.region - share else 0;
    Pages(live, active, active, livePages, livePages)
  }

  /** Every page of a large object has been paid for. */
  ghost predicate Funded(c: Config, p: Pages) {
    p.hp <= p.limit == p.active && p.limit + Share(c, p.stolen) == c.region && p.large <= p.stolen
  }

  lemma ShareMonotone(c: Config, m: nat, n: nat)
    requires m <= n
    ensures Share(c, m) <= Share(c, n)
  {
    assert HalfUp(m) <= HalfUp(n);
    MulMonotone(HalfUp(m), HalfUp(n), c.pageSize);
  }

  lemma MulMonotone(a: nat, b: nat, n: nat)
    requires a <= b
    ensures a * n <= b * n
  {
    assert b * n == a * n + (b - a) * n;
    assert (b - a) * n >= 0;
  }

  class Space {
    const c: Config
    var p: Pages

    constructor (c: Config)
      requires ConfigOk(c)
      ensures this.c == c && p == Pages(0, c.region, c.region, 0, 0) && Funded(c, p)
    {
      this.c := c;
      p := Pages(0, c.region, c.region, 0, 0);
    }

    /** semi_space_steal_pages */
    method StealPages(npages: nat) returns (ok: bool)
      requires p.hp <= p.limit <= p.active
      modifies this
      ensures ok == CanSteal(c, old(p), npages)
      ensures !ok ==> p == old(p)
      ensures ok ==> p == old(p).(stolen := old(p).stolen + npages,
                                  limit := old(p).limit - NewlyStolen(c, old(p), npages),
                                  active := old(p).active - NewlyStolen(c, old(p), npages))
    {
      var newPages := HalfUp(p.stolen + npages) - HalfUp(p.stolen);
      var bytes := newPages * c.pageSize;
      assert bytes == NewlyStolen(c, p, npages) by { Distribute(HalfUp(p.stolen + npages), HalfUp(p.stolen), c.pageSize); }
      ShareMonotone(c, p.stolen, p.stolen + npages);
      if p.limit - p.hp < bytes {
        return false;
      }
      p := p.(stolen := p.stolen + npages);
      if bytes == 0 {
        return true;
      }
      p := p.(limit := p.limit - bytes, active := p.active - bytes);
      return true;
    }

    /** The bookkeeping of collect: semi_space_finish_gc, then reset_heap_limits.  Returns whether
        the latter's assertions hold. */
    method FinishCollection(live: nat, livePages: nat) returns (ok: bool)
      modifies this
      ensures ok == ResetOk(c, live, livePages)
      ensures ok ==> p == AfterGc(c, live, livePages)
    {
      p := p.(hp := live, stolen := livePages, large := livePages, limit := 0);
      var stolenBytes := HalfUp(p.stolen) * 2 * c.pageSize;
      assert stolenBytes / 2 == Share(c, p.stolen) by { HalfOfDouble(HalfUp(p.stolen), c.pageSize); }
      if !(c.region > stolenBytes / 2) {
        return false;
      }
      var newActive := c.region - stolenBytes / 2;
      p := p.(active := newActive);
      if p.hp > newActive {
        return false;
      }
      p := p.(limit := newActive);
      return true;
    }

    /** allocate_large: steal the pages, or else collect.  `live` and `livePages` are what a collection
        would find.  Returns whether there is room, whether the pages were stolen, and whether
        the assertions along the way held. */
    method AllocateLarge(npages: nat, live: nat, livePages: nat) returns (room: bool, stole: bool, ok: bool)
      requires p.hp <= p.limit <= p.active
      modifies this
      ensures stole == CanSteal(c, old(p), npages)
      ensures stole ==> room && ok
      ensures stole ==> p == old(p).(stolen := old(p).stolen + npages, large := old(p).large + npages,
                                     limit := old(p).limit - NewlyStolen(c, old(p), npages),
                                     active := old(p).active - NewlyStolen(c, old(p), npages))
      ensures !stole ==> ok == ResetOk(c, live, livePages)
      ensures !stole && ok ==>
        var q := AfterGc(c, live, livePages);
        room == (npages * c.pageSize / 2 <= q.limit - q.hp) && p == (if room then q.(large := livePages + npages) else q)
    {
      room, ok := true, true;
      stole := StealPages(npages);
      if !stole {
        ok := FinishCollection(live, livePages);
        if !ok {
          return false, stole, ok;
        }
        room := npages * c.pageSize / 2 <= p.limit - p.hp;
      }
      if room {
        p := p.(large := p.large + npages);
      }
    }
  }

  lemma Distribute(a: nat, b: nat, n: nat)
    ensures (a - b) * n == a * n - b * n
  {
  }

  lemma HalfOfDouble(a: nat, n: nat)
    ensures a * 2 * n / 2 == a * n
  {
    assert a * 2 * n == 2 * (a * n);
  }

  // ---------- What funding is worth ----------

  /** On a funded heap the two regions and the large objects together stay within the size of the heap, and
      the regions go short of it by no more than one page. */
  lemma WithinHeapSize(c: Config, p: Pages)
    requires Funded(c, p)
    ensures 2 * p.active + p.large * c.pageSize <= 2 * c.region
    ensures 2 * p.active + (p.stolen + 1) * c.pageSize >= 2 * c.region
  {
    var n := HalfUp(p.stolen);
    assert 2 * (n * c.pageSize) == (2 * n) * c.pageSize;
    assert p.stolen <= 2 * n <= p.stolen + 1;
    MulMonotone(p.large, 2 * n, c.pageSize);
    MulMonotone(2 * n, p.stolen + 1, c.pageSize);
  }

  /** Pages paid for stay paid for when more are stolen. */
  lemma StealKeepsFunds(c: Config, p: Pages, npages: nat)
    requires Funded(c, p) && CanSteal(c, p, npages)
    ensures NewlyStolen(c, p, npages) >= 0
    ensures Funded(c, p.(stolen := p.stolen + npages, large := p.large + npages,
                         limit := p.limit - NewlyStolen(c, p, npages), active := p.active - NewlyStolen(c, p, npages)))
  {
    ShareMonotone(c, p.stolen, p.stolen + npages);
  }

  /** On a funded heap, whatever a collection finds alive fits in the space it leaves itself; the
      assertions hold just when the survivors do not take up a whole region in large pages. */
  lemma FundedCollectionFits(c: Config, p: Pages, live: nat, livePages: nat)
    requires Funded(c, p) && live <= p.hp && livePages <= p.large
    ensures live <= c.region - Share(c, livePages)
    ensures ResetOk(c, live, livePages) <==> Share(c, livePages) < c.region
    ensures ResetOk(c, live, livePages) ==> Funded(c, AfterGc(c, live, livePages))
  {
    ShareMonotone(c, livePages, p.stolen);
  }

  /** The corner that is left: an empty heap lets all of its pages be stolen, and the collection
      after that fails the first assertion if the large object is still alive. */
  lemma WholeRegionStolen(c: Config)
    requires ConfigOk(c)
    ensures var n := 2 * (c.region / c.pageSize); var p := Pages(0, c.region, c.region, 0, 0);
      Funded(c, p) && CanSteal(c, p, n) && !ResetOk(c, 0, n)
  {
    var n := c.region / c.pageSize;
    assert HalfUp(2 * n) == n;
    assert n * c.pageSize == c.region;
    assert HalfUp(0) == 0;
  }

  /** The account after a large allocation that had to collect first: the new pages are nobody's.
      The heap is funded afterwards just when the pages were stolen, or there were none. */
  lemma LargeAllocationFunds(c: Config, p: Pages, npages: nat, live: nat, livePages: nat)
    requires Funded(c, p) && live <= p.hp && livePages <= p.large
    requires !CanSteal(c, p, npages) ==> ResetOk(c, live, livePages)
    requires !CanSteal(c, p, npages) ==> npages * c.pageSize / 2 <= c.region - Share(c, livePages) - live
    ensures var p' := if CanSteal(c, p, npages)
        then var n := NewlyStolen(c, p, npages);
          ShareMonotone(c, p.stolen, p.stolen + npages);
          p.(stolen := p.stolen + npages, large := p.large + npages, limit := p.limit - n, active := p.active - n)
        else AfterGc(c, live, livePages).(large := livePages + npages);
      Funded(c, p') <==> CanSteal(c, p, npages) || npages == 0
  {
    if CanSteal(c, p, npages) {
      StealKeepsFunds(c, p, npages);
    } else {
      FundedCollectionFits(c, p, live, livePages);
    }
  }

  /** A large allocation of `npages` that has to collect and then succeeds, and a later collection, with
      `live` bytes of small objects allocated and alive, that fails its assertions. */
  ghost predicate EndsBadly(c: Config, p: Pages, npages: nat, survivors: nat, live: nat) {
    && Funded(c, p) && !CanSteal(c, p, npages) && survivors <= p.hp && ResetOk(c, survivors, 0)
    && var q := AfterGc(c, survivors, 0);
    && npages * c.pageSize / 2 <= q.limit - q.hp && survivors <= live <= q.limit && !ResetOk(c, live, npages)
  }

  /** Such a program, with 4096-byte pages and 100 pages a region.  It holds 61 pages of small objects, 60
      of them for good, and asks for a large object of 80 pages.  That is too much to steal; a
      collection finds that 60 pages of small objects leave room, and the object is allocated.
      39 more pages of small objects fit below the limit, which nobody has lowered; then the
      next collection has 60 pages for 99 pages of survivors. */
  lemma UnfundedLargeObject(c: Config, page: nat)
    requires page == c.pageSize == 4096 && c.region == 100 * page
    ensures EndsBadly(c, Pages(61 * page, 100 * page, 100 * page, 0, 0), 80, 60 * page, 99 * page)
  {
    assert HalfUp(80) == 40 && HalfUp(0) == 0;
    assert Share(c, 80) == 40 * page && Share(c, 0) == 0;
  }
}
