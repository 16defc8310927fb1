/** The region allocator of one vm area on values: a first-fit free list, the symbol table, and the break.

    `Tiled` counts, for every address, the free regions and live symbol-table entries that contain it: one below
    `vmEnd`, none at or above it. That one equation says that regions are pairwise disjoint and lose no byte. */
module Regions {
  import opened PageEntry

  const MAX_SYMTBL := 30

  datatype Region = Region(start: int, end: int)

  /** `live` is the set of region ids that are allocated and not yet freed. The code keeps no such record (`__free`
      leaves the table entry in place); it is what a caller must know to use each id once. */
  datatype Area = Area(free: seq<Region>, sym: seq<Region>, live: set<int>, vmEnd: int, sbrk: int)

  function Has(r: Region, a: int): nat {
    if r.start <= a < r.end then 1 else 0
  }

  function Cover(rs: seq<Region>, a: int): nat {
    if rs == [] then 0 else Has(rs[0], a) + Cover(rs[1..], a)
  }

  /** How many live entries among the first `n` contain `a`. */
  function LiveCover(sym: seq<Region>, live: set<int>, n: nat, a: int): nat
    requires n <= |sym|
  {
    if n == 0 then 0 else (if n - 1 in live then Has(sym[n - 1], a) else 0) + LiveCover(sym, live, n - 1, a)
  }

  function Owners(m: Area, a: int): nat
    requires |m.sym| == MAX_SYMTBL
  {
    Cover(m.free, a) + LiveCover(m.sym, m.live, MAX_SYMTBL, a)
  }

  predicate AreaOk(m: Area) {
    && |m.sym| == MAX_SYMTBL
    && 0 <= m.vmEnd && m.vmEnd % PAGESZ == 0 && m.sbrk == m.vmEnd
    && (forall k :: 0 <= k < |m.free| ==> m.free[k].start <= m.free[k].end)
    && (forall i :: i in m.live ==> 0 <= i < MAX_SYMTBL && m.sym[i].start <= m.sym[i].end)
  }

  ghost predicate Tiled(m: Area)
    requires |m.sym| == MAX_SYMTBL
  {
    forall a :: Owners(m, a) == if 0 <= a < m.vmEnd then 1 else 0
  }

  /** `init_mm`: an empty area whose free list holds one empty region. */
  function InitArea(): Area {
    Area([Region(0, 0)], seq(MAX_SYMTBL, _ => Region(0, 0)), {}, 0, 0)
  }

  lemma {:induction false} NothingLive(sym: seq<Region>, n: nat, a: int)
    requires n <= |sym|
    ensures LiveCover(sym, {}, n, a) == 0
  {
    if n > 0 {
      NothingLive(sym, n - 1, a);
    }
  }

  lemma InitAreaTiled()
    ensures AreaOk(InitArea()) && Tiled(InitArea())
  {
    forall a ensures Owners(InitArea(), a) == 0 {
      NothingLive(InitArea().sym, MAX_SYMTBL, a);
      assert Cover([Region(0, 0)], a) == Has(Region(0, 0), a) + Cover([], a);
    }
  }

  // ---------------------------------------------------------------------------------------------------------
  // First fit
  // ---------------------------------------------------------------------------------------------------------

  datatype Fit = NoFit | Fit(rg: Region, rest: seq<Region>)

  /** `get_free_vmrg_area`: an exact fit is unlinked, a larger region gives up its first `size` bytes. */
  function GetFree(rs: seq<Region>, size: int): Fit {
    if rs == [] then NoFit
    else if rs[0].start + size == rs[0].end then Fit(rs[0], rs[1..])
    else if rs[0].start + size < rs[0].end then
      Fit(Region(rs[0].start, rs[0].start + size), [Region(rs[0].start + size, rs[0].end)] + rs[1..])
    else
      match GetFree(rs[1..], size)
      case NoFit => NoFit
      case Fit(rg, rest) => Fit(rg, [rs[0]] + rest)
  }

  lemma {:induction false} GetFreeCover(rs: seq<Region>, size: int, a: int)
    requires size >= 0 && GetFree(rs, size).Fit?
    ensures var fit := GetFree(rs, size); Has(fit.rg, a) + Cover(fit.rest, a) == Cover(rs, a)
  {
    if rs[0].start + size > rs[0].end {
      GetFreeCover(rs[1..], size, a);
      assert ([rs[0]] + GetFree(rs[1..], size).rest)[1..] == GetFree(rs[1..], size).rest;
    } else if rs[0].start + size < rs[0].end {
      assert ([Region(rs[0].start + size, rs[0].end)] + rs[1..])[1..] == rs[1..];
    }
  }

  lemma {:induction false} GetFreeShape(rs: seq<Region>, size: int)
    requires size >= 0 && GetFree(rs, size).Fit? && forall k :: 0 <= k < |rs| ==> rs[k].start <= rs[k].end
    ensures var fit := GetFree(rs, size);
      && fit.rg.end == fit.rg.start + size
      && forall k :: 0 <= k < |fit.rest| ==> fit.rest[k].start <= fit.rest[k].end
  {
    if rs[0].start + size > rs[0].end {
      GetFreeShape(rs[1..], size);
    }
  }

  predicate TooShort(rg: Region, size: int) {
    rg.end - rg.start < size
  }

  /** Region `k` is the first one that is long enough: its first bytes are taken, and it shrinks in its place, or is
      unlinked if nothing remains of it. */
  ghost predicate FirstFitAt(rs: seq<Region>, size: int, k: int, fit: Fit) {
    && 0 <= k < |rs| && (forall j :: 0 <= j < k ==> TooShort(rs[j], size)) && !TooShort(rs[k], size)
    && fit == Fit(Region(rs[k].start, rs[k].start + size),
                  if rs[k].end - rs[k].start == size then rs[..k] + rs[k + 1..]
                  else rs[k := Region(rs[k].start + size, rs[k].end)])
  }

  lemma FirstFitNext(rs: seq<Region>, size: int, k: int, fit: Fit)
    requires rs != [] && TooShort(rs[0], size) && FirstFitAt(rs[1..], size, k, fit)
    ensures FirstFitAt(rs, size, k + 1, Fit(fit.rg, [rs[0]] + fit.rest))
  {
    var t := rs[1..];
    assert rs == [rs[0]] + t;
    forall j | 0 <= j < k + 1 ensures TooShort(rs[j], size) {
      assert j > 0 ==> rs[j] == t[j - 1];
    }
    if t[k].end - t[k].start == size {
      assert [rs[0]] + (t[..k] + t[k + 1..]) == rs[..k + 1] + rs[k + 2..];
    } else {
      var rg := Region(t[k].start + size, t[k].end);
      assert [rs[0]] + t[k := rg] == rs[k + 1 := rg];
    }
  }

  /** Nothing fits exactly when every region is too short; otherwise the first fit is found, and its remainder stays where
      the region was. */
  lemma {:induction false} GetFreeIsFirstFit(rs: seq<Region>, size: int)
    ensures GetFree(rs, size).NoFit? <==> forall k :: 0 <= k < |rs| ==> TooShort(rs[k], size)
    ensures GetFree(rs, size).Fit? ==> exists k :: FirstFitAt(rs, size, k, GetFree(rs, size))
  {
    if rs != [] && TooShort(rs[0], size) {
      GetFreeIsFirstFit(rs[1..], size);
      assert forall k :: 0 < k < |rs| ==> rs[k] == rs[1..][k - 1];
      if GetFree(rs[1..], size).Fit? {
        var k :| FirstFitAt(rs[1..], size, k, GetFree(rs[1..], size));
        FirstFitNext(rs, size, k, GetFree(rs[1..], size));
      }
    } else if rs != [] {
      assert FirstFitAt(rs, size, 0, GetFree(rs, size));
    }
  }

  // ---------------------------------------------------------------------------------------------------------
  // Operations on the area
  // ---------------------------------------------------------------------------------------------------------

  function Align(size: int): int {
    (size + PAGESZ - 1) / PAGESZ * PAGESZ
  }

  /** The successful half of `__alloc`: the region becomes the entry of `rgid`. */
  function Claim(m: Area, rgid: int, fit: Fit): Area
    requires 0 <= rgid < |m.sym| && fit.Fit?
  {
    m.(free := fit.rest, sym := m.sym[rgid := fit.rg], live := m.live + {rgid})
  }

  /** The part of `inc_vma_limit` that follows a successful mapping. */
  function Grow(m: Area, amount: int): Area {
    m.(vmEnd := m.vmEnd + amount, sbrk := m.sbrk + amount, free := [Region(m.vmEnd, m.vmEnd + amount)] + m.free)
  }

  /** `__free`: the entry's region heads the free list, unless it is empty. The entry itself stays. */
  function Release(m: Area, rgid: int): Area
    requires 0 <= rgid < |m.sym|
  {
    var rg := m.sym[rgid];
    m.(free := if rg.start >= rg.end then m.free else [rg] + m.free, live := m.live - {rgid})
  }

  lemma {:induction false} LiveCoverClaim(sym: seq<Region>, live: set<int>, i: int, rg: Region, n: nat, a: int)
    requires n <= |sym| && 0 <= i < |sym| && i !in live
    ensures LiveCover(sym[i := rg], live + {i}, n, a) == LiveCover(sym, live, n, a) + if i < n then Has(rg, a) else 0
  {
    if n > 0 {
      LiveCoverClaim(sym, live, i, rg, n - 1, a);
    }
  }

  lemma {:induction false} LiveCoverRelease(sym: seq<Region>, live: set<int>, i: int, n: nat, a: int)
    requires n <= |sym| && 0 <= i < |sym| && i in live
    ensures LiveCover(sym, live, n, a) == LiveCover(sym, live - {i}, n, a) + if i < n then Has(sym[i], a) else 0
  {
    if n > 0 {
      LiveCoverRelease(sym, live, i, n - 1, a);
    }
  }

  lemma {:induction false} LiveCoverReplace(sym: seq<Region>, live: set<int>, i: int, rg: Region, n: nat, a: int)
    requires n <= |sym| && 0 <= i < |sym| && i in live
    ensures LiveCover(sym[i := rg], live, n, a) + (if i < n then Has(sym[i], a) else 0)
         == LiveCover(sym, live, n, a) + (if i < n then Has(rg, a) else 0)
  {
    if n > 0 {
      LiveCoverReplace(sym, live, i, rg, n - 1, a);
    }
  }

  lemma ClaimOwners(m: Area, rgid: int, size: int, a: int)
    requires AreaOk(m) && 0 <= rgid < MAX_SYMTBL && size >= 0 && GetFree(m.free, size).Fit?
    ensures Owners(Claim(m, rgid, GetFree(m.free, size)), a) + (if rgid in m.live then Has(m.sym[rgid], a) else 0)
         == Owners(m, a)
  {
    var fit := GetFree(m.free, size);
    GetFreeCover(m.free, size, a);
    if rgid in m.live {
      assert m.live + {rgid} == m.live;
      LiveCoverReplace(m.sym, m.live, rgid, fit.rg, MAX_SYMTBL, a);
    } else {
      LiveCoverClaim(m.sym, m.live, rgid, fit.rg, MAX_SYMTBL, a);
    }
  }

  predicate Empty(rg: Region) {
    rg.start >= rg.end
  }

  /** Allocating under an id keeps the tiling exactly when the id is not live with a non-empty region: the bytes of
      a region whose entry is overwritten belong to nobody. */
  lemma ClaimTiledIff(m: Area, rgid: int, size: int)
    requires AreaOk(m) && Tiled(m) && 0 <= rgid < MAX_SYMTBL && size >= 0 && GetFree(m.free, size).Fit?
    ensures AreaOk(Claim(m, rgid, GetFree(m.free, size)))
    ensures Tiled(Claim(m, rgid, GetFree(m.free, size))) <==> rgid !in m.live || Empty(m.sym[rgid])
  {
    var m' := Claim(m, rgid, GetFree(m.free, size));
    GetFreeShape(m.free, size);
    forall a ensures Owners(m', a) + (if rgid in m.live then Has(m.sym[rgid], a) else 0) == Owners(m, a) {
      ClaimOwners(m, rgid, size, a);
    }
    if rgid in m.live && !Empty(m.sym[rgid]) {
      LiveCoverAtLeast(m.sym, m.live, rgid, MAX_SYMTBL, m.sym[rgid].start);
      assert Owners(m', m.sym[rgid].start) == 0;
    }
  }

  /** Freeing an id keeps the tiling exactly when the id is live or its entry is empty: because the entry outlives
      the region, a second free puts the same bytes on the free list again. */
  lemma ReleaseTiledIff(m: Area, rgid: int)
    requires AreaOk(m) && Tiled(m) && 0 <= rgid < MAX_SYMTBL
    ensures AreaOk(Release(m, rgid))
    ensures Tiled(Release(m, rgid)) <==> rgid in m.live || Empty(m.sym[rgid])
  {
    var m' := Release(m, rgid);
    forall a ensures Owners(m', a) == Owners(m, a) + if rgid in m.live then 0 else Has(m.sym[rgid], a) {
      if rgid in m.live {
        LiveCoverRelease(m.sym, m.live, rgid, MAX_SYMTBL, a);
      } else {
        assert m.live - {rgid} == m.live;
      }
    }
    if rgid !in m.live && !Empty(m.sym[rgid]) {
      var a := m.sym[rgid].start;
      assert Owners(m', a) == Owners(m, a) + 1;
    }
  }

  /** A second free in a row of a live, non-empty id breaks the tiling, and then two allocations of its size get the
      same bytes. */
  lemma DoubleFreeOverlaps(m: Area, rgid: int)
    requires AreaOk(m) && Tiled(m) && rgid in m.live && !Empty(m.sym[rgid])
    ensures var once := Release(m, rgid); var twice := Release(once, rgid);
      var size := m.sym[rgid].end - m.sym[rgid].start;
      && Tiled(once) && !Tiled(twice)
      && GetFree(twice.free, size) == Fit(m.sym[rgid], once.free)
      && GetFree(once.free, size) == Fit(m.sym[rgid], m.free)
  {
    ReleaseTiledIff(m, rgid);
    ReleaseTiledIff(Release(m, rgid), rgid);
  }

  lemma AlignLaw(size: int)
    requires size >= 0
    ensures Align(size) % PAGESZ == 0 && size <= Align(size) < size + PAGESZ && (Align(size) == 0 <==> size == 0)
  {
  }

  lemma GrowTiled(m: Area, amount: int)
    requires AreaOk(m) && Tiled(m) && amount >= 0 && amount % PAGESZ == 0
    ensures AreaOk(Grow(m, amount)) && Tiled(Grow(m, amount))
  {
    forall a ensures Owners(Grow(m, amount), a) == Owners(m, a) + Has(Region(m.vmEnd, m.vmEnd + amount), a) {
    }
  }

  /** After growth the retry in `__alloc` cannot fail and returns the old end of the area. */
  lemma GrowThenFit(m: Area, size: int)
    requires size >= 0
    ensures var fit := GetFree(Grow(m, Align(size)).free, size);
      fit.Fit? && fit.rg == Region(m.vmEnd, m.vmEnd + size)
  {
    AlignLaw(size);
  }

  // ---------------------------------------------------------------------------------------------------------
  // What tiling gives a user of the memory
  // ---------------------------------------------------------------------------------------------------------

  lemma {:induction false} LiveCoverAtLeast(sym: seq<Region>, live: set<int>, i: int, n: nat, a: int)
    requires n <= |sym| && 0 <= i < n && i in live
    ensures LiveCover(sym, live, n, a) >= Has(sym[i], a)
    ensures forall j :: 0 <= j < n && j in live && j != i ==>
                          LiveCover(sym, live, n, a) >= Has(sym[i], a) + Has(sym[j], a)
  {
    if i < n - 1 {
      LiveCoverAtLeast(sym, live, i, n - 1, a);
    } else {
      forall j | 0 <= j < n && j in live && j != i
        ensures LiveCover(sym, live, n, a) >= Has(sym[i], a) + Has(sym[j], a)
      {
        LiveCoverAtLeast(sym, live, j, n - 1, a);
      }
    }
  }

  /** Live variables lie below the break and never overlap. */
  lemma LiveRegionsDisjoint(m: Area, i: int, j: int, a: int)
    requires AreaOk(m) && Tiled(m) && i in m.live && j in m.live && m.sym[i].start <= a < m.sym[i].end
    ensures 0 <= a < m.vmEnd
    ensures i != j ==> !(m.sym[j].start <= a < m.sym[j].end)
  {
    LiveCoverAtLeast(m.sym, m.live, i, MAX_SYMTBL, a);
    assert Owners(m, a) >= 1;
  }
}
