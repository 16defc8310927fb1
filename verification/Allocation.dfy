/** `__alloc`, `inc_vma_limit`, `__free`, `__read` and `__write` of one process on values: the region allocator on
    top of the paging operations. */
module Allocation {
  import opened Seqs
  import opened PageEntry
  import opened Paging
  import opened Access
  import opened Regions

  /** Every page below the break is mapped and none above it. */
  predicate MappedBelow(c: Ctx, m: Area) {
    && |c.pt| == MAX_PGN && 0 <= m.vmEnd <= MAX_PGN * PAGESZ
    && forall p :: 0 <= p < MAX_PGN ==> (c.pt[p].Unmapped? <==> p * PAGESZ >= m.vmEnd)
  }

  /** The invariant of one process next to the devices. */
  ghost predicate ProcOk(c: Ctx, m: Area) {
    CtxOk(c) && AreaOk(m) && Tiled(m) && MappedBelow(c, m)
  }

  /** The logical byte at virtual address `a`. */
  function ByteAt(c: Ctx, a: int): Option<Byte>
    requires 0 <= a < |c.pt| * PAGESZ
  {
    match PageOf(c.pt[a / PAGESZ], c.ram, c.swap)
    case None => None
    case Some(page) => Some(page[a % PAGESZ])
  }

  /** All bytes below `end` read the same before and after. */
  ghost predicate BytesKept(c: Ctx, c': Ctx, end: int) {
    && |c'.pt| == |c.pt|
    && forall a :: 0 <= a < end && a < |c.pt| * PAGESZ ==> ByteAt(c', a) == ByteAt(c, a)
  }

  lemma OwnKeptBytes(c: Ctx, c': Ctx, end: int)
    requires OwnKept(c, c')
    ensures BytesKept(c, c', end)
  {
  }

  // ---------------------------------------------------------------------------------------------------------
  // Growth
  // ---------------------------------------------------------------------------------------------------------

  datatype Growth = Growth(c: Ctx, m: Area, ok: bool)

  function IncVmaLimit(c: Ctx, m: Area, size: int): Growth
    requires CtxOk(c) && 0 <= m.vmEnd && 0 <= size && m.vmEnd + Align(size) <= |c.pt| * PAGESZ
  {
    var amount := Align(size);
    if m.sbrk >= m.sbrk + amount || amount / PAGESZ > |c.ram.frames| then Growth(c, m, false)
    else match AllocPages(c, amount / PAGESZ, [])
      case OutOfMemory(c') => Growth(c', m, false)
      case Granted(c', frames) => Growth(MapPages(c', m.vmEnd / PAGESZ, frames), Grow(m, amount), true)
  }

  predicate CanGrow(c: Ctx, size: int) {
    0 < Align(size) / PAGESZ <= |c.ram.frames| && Align(size) / PAGESZ <= Takeable(c)
  }

  lemma NoneHeld(c: Ctx)
    requires Exclusive(c)
    ensures ExclusiveWith(c, []) && forall x :: Account(c, [], x) == RamCount(c, x)
  {
  }

  lemma QuietIsLawful(c: Ctx, c': Ctx)
    requires Quiet(c, c') && forall x :: RamCount(c', x) == RamCount(c, x)
    ensures Lawful(c, c')
  {
    QuietKeepsForeign(c, c');
  }

  lemma QuietKeepsMapping(c: Ctx, c': Ctx, m: Area)
    requires CtxOk(c) && Quiet(c, c') && MappedBelow(c, m)
    ensures MappedBelow(c', m)
  {
    forall p | 0 <= p < MAX_PGN ensures c'.pt[p].Unmapped? <==> c.pt[p].Unmapped? {
      assert PageOf(c'.pt[p], c'.ram, c'.swap) == PageOf(c.pt[p], c.ram, c.swap);
    }
  }

  /** What growth does to the pages: nothing below the old break, and one fresh page per granted frame above it. */
  lemma GrantAndMap(c: Ctx, m: Area, c1: Ctx, frames: seq<int>)
    requires ProcOk(c, m) && Quiet(c, c1) && ExclusiveWith(c1, frames)
    requires m.vmEnd + |frames| * PAGESZ <= MAX_PGN * PAGESZ
    requires forall x :: Account(c1, frames, x) == RamCount(c, x)
    ensures var c2 := MapPages(c1, m.vmEnd / PAGESZ, frames);
      && Lawful(c, c2) && MappedBelow(c2, Grow(m, |frames| * PAGESZ)) && BytesKept(c, c2, m.vmEnd)
  {
    var pgn := m.vmEnd / PAGESZ;
    var c2 := MapPages(c1, pgn, frames);
    QuietKeepsMapping(c, c1, m);
    QuietKeepsForeign(c, c1);
    MapPagesLaw(c1, pgn, frames);
    MapPagesMaps(c1, pgn, frames);
    assert forall x :: RamCount(c2, x) == Account(c1, frames, x) == RamCount(c, x);
    assert forall x :: SwapCount(c2, x) == SwapCount(c1, x) == SwapCount(c, x);
    GrownMapping(c1, m, frames, c2);
    OwnKeptBytes(c, c1, m.vmEnd);
    forall a | 0 <= a < m.vmEnd ensures ByteAt(c2, a) == ByteAt(c, a) {
      assert ByteAt(c1, a) == ByteAt(c, a);
      assert c2.pt[a / PAGESZ] == c1.pt[a / PAGESZ];
    }
  }

  lemma GrownMapping(c1: Ctx, m: Area, frames: seq<int>, c2: Ctx)
    requires AreaOk(m) && MappedBelow(c1, m) && m.vmEnd + |frames| * PAGESZ <= MAX_PGN * PAGESZ
    requires Mapped(c1, m.vmEnd / PAGESZ, frames, c2)
    ensures MappedBelow(c2, Grow(m, |frames| * PAGESZ))
  {
  }

  ghost predicate GrowthLaw(c: Ctx, m: Area, size: int, r: Growth) {
    && Lawful(c, r.c) && BytesKept(c, r.c, m.vmEnd) && ProcOk(r.c, r.m)
    && r.m == (if r.ok then Grow(m, Align(size)) else m)
    && (r.ok <==> CanGrow(c, size))
  }

  lemma IncVmaLimitLaw(c: Ctx, m: Area, size: int)
    requires ProcOk(c, m) && Exclusive(c) && 0 <= size && m.vmEnd + Align(size) <= MAX_PGN * PAGESZ
    ensures GrowthLaw(c, m, size, IncVmaLimit(c, m, size))
  {
    AlignLaw(size);
    var k := Align(size) / PAGESZ;
    if 0 < k <= |c.ram.frames| {
      NoneHeld(c);
      AllocPagesLaw(c, k, []);
      AllocPagesGrantedIff(c, k, []);
      var g := AllocPages(c, k, []);
      match g
      case Granted(c1, frames) =>
        GrantAndMap(c, m, c1, frames);
        GrowTiled(m, Align(size));
      case OutOfMemory(c1) =>
        QuietIsLawful(c, c1);
        QuietKeepsMapping(c, c1, m);
        OwnKeptBytes(c, c1, m.vmEnd);
    }
  }

  /** Growth by `k` pages from page `first` on: `d` is the state in which the oldest pages have made room. The new pages
      get the frames last taken first, and become the youngest tracked ones, the last page first. */
  ghost predicate GrownBy(c: Ctx, first: int, k: int, d: Ctx, c': Ctx)
    requires CtxOk(c) && 0 <= k <= Takeable(c) && 0 <= first && first + k <= |c.pt|
  {
    && EvictedOldest(c, d) && |c.fifo| - |d.fifo| == (if k <= |c.ram.free| then 0 else k - |c.ram.free|)
    && |c'.pt| == |c.pt| && c'.swap == d.swap
    && c'.ram.free == (if k <= |c.ram.free| then c.ram.free[k..] else [])
    && (forall p :: 0 <= p < |c.pt| ==>
          c'.pt[p] == if first <= p < first + k then Resident(TurnFrame(c, first + k - 1 - p)) else d.pt[p])
    && |c'.fifo| == k + |d.fifo| && c'.fifo[k..] == d.fifo
    && forall j :: 0 <= j < k ==> c'.fifo[j] == first + k - 1 - j
  }

  /** What becomes of pages and lists when the area is to grow by `size` bytes, or when it cannot for want of frames. */
  ghost predicate GrowsAs(c: Ctx, m: Area, size: int, c': Ctx)
    requires CtxOk(c) && 0 <= m.vmEnd && 0 <= size && m.vmEnd + Align(size) <= |c.pt| * PAGESZ
  {
    var k := Align(size) / PAGESZ;
    if !(0 < k <= |c.ram.frames|) then c' == c
    else if CanGrow(c, size) then exists d :: GrownBy(c, m.vmEnd / PAGESZ, k, d, c')
    else LeftOver(c, c') && FramesAre(c, k, [], OutOfMemory(c'))
  }

  lemma GrowthExactly(c: Ctx, m: Area, size: int)
    requires CtxOk(c) && 0 <= m.vmEnd && 0 <= size && m.vmEnd + Align(size) <= |c.pt| * PAGESZ
    ensures GrowsAs(c, m, size, IncVmaLimit(c, m, size).c)
  {
    var k := Align(size) / PAGESZ;
    AlignLaw(size);
    AllocPagesGrantedIff(c, k, []);
    AllocFrames(c, k, []);
    if 0 < k <= |c.ram.frames| {
      match AllocPages(c, k, [])
      case Granted(d, frames) =>
        EvictsOldestFirst(c, k, []);
        MapPagesMaps(d, m.vmEnd / PAGESZ, frames);
        assert GrownBy(c, m.vmEnd / PAGESZ, k, d, IncVmaLimit(c, m, size).c);
      case OutOfMemory(d) =>
        RefusalTracking(c, k, []);
    }
  }

  // ---------------------------------------------------------------------------------------------------------
  // __alloc and __free
  // ---------------------------------------------------------------------------------------------------------

  datatype Allocated = Allocated(c: Ctx, m: Area, addr: Option<int>)

  /** The range test of the code lets id 30 pass, one past the table: callers must not use it. */
  predicate Rejected(rgid: int) {
    rgid < 0 || rgid > MAX_SYMTBL
  }

  predicate AllocReady(c: Ctx, m: Area, rgid: int, size: int) {
    && CtxOk(c) && |m.sym| == MAX_SYMTBL && rgid != MAX_SYMTBL && 0 <= size && 0 <= m.vmEnd
    && (GetFree(m.free, size).Fit? || m.vmEnd + Align(size) <= |c.pt| * PAGESZ)
  }

  /** The allocation grows the area, and on the way calls `find_victim_page` on a list of one element. */
  predicate WalksOffList(c: Ctx, m: Area, rgid: int, size: int) {
    && !Rejected(rgid) && GetFree(m.free, size).NoFit?
    && var k := Align(size) / PAGESZ; 0 < k <= |c.ram.frames| && TakesAll(c, k)
  }

  /** `__alloc`: first fit, then growth and a retry. */
  function Alloc(c: Ctx, m: Area, rgid: int, size: int): Allocated
    requires AllocReady(c, m, rgid, size)
  {
    if Rejected(rgid) then Allocated(c, m, None)
    else match GetFree(m.free, size)
      case Fit(rg, rest) => Allocated(c, Claim(m, rgid, Fit(rg, rest)), Some(rg.start))
      case NoFit =>
        var r := IncVmaLimit(c, m, size);
        match GetFree(r.m.free, size)
        case Fit(rg, rest) => Allocated(r.c, Claim(r.m, rgid, Fit(rg, rest)), Some(rg.start))
        case NoFit => Allocated(r.c, r.m, None)
  }

  /** What a caller gets from `__alloc`: success exactly when the id is in range and a free region is long enough or
      the area can grow; the first fit is taken without touching any page, and otherwise the region lies at the old end
      of the area, and pages and lists are as `GrowsAs` says; on failure the area is as before; other bytes and other
      processes are never disturbed. */
  ghost predicate AllocLaw(c: Ctx, m: Area, rgid: int, size: int, r: Allocated)
    requires AllocReady(c, m, rgid, size)
  {
    && Lawful(c, r.c) && BytesKept(c, r.c, m.vmEnd) && ProcOk(r.c, r.m) && r.m.vmEnd >= m.vmEnd
    && (r.addr.Some? <==> !Rejected(rgid) && (GetFree(m.free, size).Fit? || CanGrow(c, size)))
    && (r.addr.None? ==> r.m == m)
    && (0 <= rgid < |m.sym| && GetFree(m.free, size).Fit? ==>
          r.c == c && r.m == Claim(m, rgid, GetFree(m.free, size)))
    && (!Rejected(rgid) && GetFree(m.free, size).NoFit? ==> GrowsAs(c, m, size, r.c))
    && (Rejected(rgid) ==> r.c == c)
    && (r.addr.Some? ==>
          && 0 <= rgid < MAX_SYMTBL && r.m.live == m.live + {rgid} && |r.m.sym| == |m.sym|
          && r.m.sym[rgid] == Region(r.addr.value, r.addr.value + size)
          && (GetFree(m.free, size).NoFit? ==> r.addr.value == m.vmEnd)
          && forall i :: 0 <= i < |m.sym| && i != rgid ==> r.m.sym[i] == m.sym[i])
  }

  lemma AllocIsLawful(c: Ctx, m: Area, rgid: int, size: int)
    requires ProcOk(c, m) && Exclusive(c) && AllocReady(c, m, rgid, size)
    requires 0 <= rgid < MAX_SYMTBL ==> rgid !in m.live
    ensures AllocLaw(c, m, rgid, size, Alloc(c, m, rgid, size))
  {
    if !Rejected(rgid) {
      if GetFree(m.free, size).Fit? {
        GetFreeShape(m.free, size);
        ClaimTiledIff(m, rgid, size);
      } else {
        var r := IncVmaLimit(c, m, size);
        IncVmaLimitLaw(c, m, size);
        GrowthExactly(c, m, size);
        AlignLaw(size);
        if r.ok {
          GrowThenFit(m, size);
          ClaimTiledIff(r.m, rgid, size);
        }
      }
    }
  }

  /** `__free`: refused for an id out of range and for an empty entry. */
  function Free(m: Area, rgid: int): (Area, bool)
    requires |m.sym| == MAX_SYMTBL && rgid != MAX_SYMTBL
  {
    if Rejected(rgid) || Empty(m.sym[rgid]) then (m, false) else (Release(m, rgid), true)
  }

  /** A free succeeds exactly for an id in range with a non-empty region; then the id is not live, its bytes are free
      once more than before, and no other id or byte changes hands; otherwise nothing changes. The process invariant is
      kept exactly by a disciplined one. */
  lemma FreeLaw(c: Ctx, m: Area, rgid: int)
    requires ProcOk(c, m) && rgid != MAX_SYMTBL
    ensures var (m', ok) := Free(m, rgid);
      && (ProcOk(c, m') <==> (0 <= rgid < MAX_SYMTBL ==> rgid in m.live || Empty(m.sym[rgid])))
      && (ok <==> 0 <= rgid < MAX_SYMTBL && !Empty(m.sym[rgid])) && (!ok ==> m' == m)
      && (ok ==> m'.live == m.live - {rgid} && m'.sym == m.sym && m'.vmEnd == m.vmEnd)
      && (ok ==> forall a :: Cover(m'.free, a) == Cover(m.free, a) + Has(m.sym[rgid], a))
  {
    if !Rejected(rgid) {
      ReleaseTiledIff(m, rgid);
      forall a ensures Cover([m.sym[rgid]] + m.free, a) == Has(m.sym[rgid], a) + Cover(m.free, a) {
      }
    }
  }

  /** Round trip: allocating as much as was just freed, under the same id, gives the same bytes back and restores the
      area exactly, without touching pages or devices. */
  lemma FreeThenAlloc(c: Ctx, m: Area, rgid: int)
    requires ProcOk(c, m) && rgid in m.live && !Empty(m.sym[rgid])
    ensures var (m', ok) := Free(m, rgid); var size := m.sym[rgid].end - m.sym[rgid].start;
      && ok && AllocReady(c, m', rgid, size)
      && Alloc(c, m', rgid, size) == Allocated(c, m, Some(m.sym[rgid].start))
  {
    var m', rg := Free(m, rgid).0, m.sym[rgid];
    assert GetFree(m'.free, rg.end - rg.start) == Fit(rg, m.free);
    assert m.live - {rgid} + {rgid} == m.live;
    assert m.sym[rgid := rg] == m.sym;
  }

  // ---------------------------------------------------------------------------------------------------------
  // __read and __write
  // ---------------------------------------------------------------------------------------------------------

  /** The address of a byte of a live variable. */
  predicate InRegion(m: Area, rgid: int, off: int) {
    0 <= rgid < |m.sym| && rgid in m.live && 0 <= off && m.sym[rgid].start + off < m.sym[rgid].end
  }

  function Address(m: Area, rgid: int, off: int): int
    requires 0 <= rgid < |m.sym|
  {
    m.sym[rgid].start + off
  }

  lemma AddressMapped(c: Ctx, m: Area, rgid: int, off: int)
    requires ProcOk(c, m) && InRegion(m, rgid, off)
    ensures 0 <= Address(m, rgid, off) < m.vmEnd && !c.pt[Address(m, rgid, off) / PAGESZ].Unmapped?
  {
    LiveRegionsDisjoint(m, rgid, rgid, Address(m, rgid, off));
  }

  /** `pg_getval`: no data when no frame can be had for the page. */
  function GetVal(c: Ctx, a: int, g: Guard): (Ctx, Option<Byte>)
    requires CtxOk(c) && Exclusive(c) && 0 <= a < |c.pt| * PAGESZ && Touchable(c, a / PAGESZ, g)
  {
    GetPageLaw(c, a / PAGESZ, g);
    var (c', f) := GetPage(c, a / PAGESZ, g);
    (c', if f.Some? then Some(c'.ram.frames[f.value][a % PAGESZ]) else None)
  }

  /** `pg_setval`: nothing is stored when no frame can be had for the page. */
  function SetVal(c: Ctx, a: int, v: Byte, g: Guard): (Ctx, bool)
    requires CtxOk(c) && Exclusive(c) && 0 <= a < |c.pt| * PAGESZ && Touchable(c, a / PAGESZ, g)
  {
    GetPageLaw(c, a / PAGESZ, g);
    var (c', f) := GetPage(c, a / PAGESZ, g);
    if f.Some? then (Store(c', f.value, a % PAGESZ, v), true) else (c', false)
  }

  /** Whether an access can be served: the page is in RAM, or some page can make room for it. */
  predicate Served(c: Ctx, a: int)
    requires 0 <= a < |c.pt| * PAGESZ
  {
    c.pt[a / PAGESZ].Resident? || c.fifo != []
  }

  /** `data` is the logical byte at `a`, provided the access can be served. */
  predicate Reads(c: Ctx, a: int, data: Byte) {
    0 <= a < |c.pt| * PAGESZ && (Served(c, a) ==> ByteAt(c, a) == Some(data))
  }

  /** A read of address `a`: every byte of this process, every page of the others and all accounts are kept. */
  ghost predicate ReadLaw(c: Ctx, c': Ctx, m: Area, a: int, data: Byte) {
    && Lawful(c, c') && ProcOk(c', m) && |c'.pt| == |c.pt| && Reads(c, a, data)
    && forall b :: 0 <= b < m.vmEnd && b < |c.pt| * PAGESZ ==> ByteAt(c', b) == ByteAt(c, b)
  }

  lemma GetValReads(c: Ctx, c': Ctx, m: Area, a: int, g: Guard, d: Option<Byte>, data: Byte)
    requires ProcOk(c, m) && Exclusive(c) && 0 <= a < m.vmEnd && Accessible(c, a / PAGESZ, g)
    requires GetVal(c, a, g) == (c', d) && (d.Some? ==> d.value == data)
    ensures ReadLaw(c, c', m, a, data)
  {
    GetValLaw(c, m, a, g);
  }

  /** A write of address `a`: that byte changes if the access can be served, and nothing else. */
  ghost predicate WriteLaw(c: Ctx, c': Ctx, m: Area, a: int, value: Byte) {
    && Lawful(c, c') && ProcOk(c', m) && |c'.pt| == |c.pt|
    && forall b :: 0 <= b < m.vmEnd && b < |c.pt| * PAGESZ ==> ByteAt(c', b) == Stores(c, a, value, b)
  }

  lemma SetValWrites(c: Ctx, c': Ctx, m: Area, a: int, v: Byte, g: Guard)
    requires ProcOk(c, m) && Exclusive(c) && 0 <= a < m.vmEnd && Accessible(c, a / PAGESZ, g)
    requires c' == SetVal(c, a, v, g).0
    ensures WriteLaw(c, c', m, a, v)
  {
    SetValLaw(c, m, a, v, g);
  }

  /** What byte `b` is after storing `value` at `a`. */
  function Stores(c: Ctx, a: int, value: Byte, b: int): Option<Byte>
    requires 0 <= b < |c.pt| * PAGESZ
  {
    if b == a && Served(c, b) then Some(value) else ByteAt(c, b)
  }

  lemma GetPageKeeps(c: Ctx, m: Area, pgn: int, g: Guard)
    requires ProcOk(c, m) && Exclusive(c) && Loadable(c, pgn, g)
    ensures var c' := GetPage(c, pgn, g).0; ProcOk(c', m) && BytesKept(c, c', m.vmEnd) && Exclusive(c')
  {
    var c' := GetPage(c, pgn, g).0;
    GetPageLaw(c, pgn, g);
    OwnKeptBytes(c, c', m.vmEnd);
    forall p | 0 <= p < MAX_PGN ensures c'.pt[p].Unmapped? <==> c.pt[p].Unmapped? {
      assert PageOf(c'.pt[p], c'.ram, c'.swap) == PageOf(c.pt[p], c.ram, c.swap);
    }
  }

  /** A read keeps every byte and account in every case. Under the intended test it is answered exactly if it can be
      served, and under the as-written test always; the answer is the byte unless the latter was asked about a
      swapped-out page. */
  lemma GetValLaw(c: Ctx, m: Area, a: int, g: Guard)
    requires ProcOk(c, m) && Exclusive(c) && 0 <= a < m.vmEnd && Touchable(c, a / PAGESZ, g)
    ensures var (c', d) := GetVal(c, a, g);
      && Lawful(c, c') && ProcOk(c', m) && BytesKept(c, c', m.vmEnd)
      && (d.Some? <==> g.AsWritten? || Served(c, a))
      && (d.Some? && Accessible(c, a / PAGESZ, g) ==> d == ByteAt(c, a))
  {
    GetPageLaw(c, a / PAGESZ, g);
    GetPageKeeps(c, m, a / PAGESZ, g);
    var (c', d) := GetVal(c, a, g);
    assert ByteAt(c', a) == ByteAt(c, a);
  }

  /** Under the as-written test an access that callers may make is always served, and a read of this kind returns the
      logical byte and changes nothing. */
  lemma AsWrittenIsServed(c: Ctx, a: int)
    requires CtxOk(c) && Exclusive(c) && 0 <= a < |c.pt| * PAGESZ && Accessible(c, a / PAGESZ, AsWritten)
    ensures Served(c, a) && GetVal(c, a, AsWritten) == (c, ByteAt(c, a))
  {
    assert EntryOk(c.pt[a / PAGESZ], c.ram, c.swap);
  }

  lemma StoreBytes(c: Ctx, m: Area, a: int, v: Byte)
    requires ProcOk(c, m) && Exclusive(c) && 0 <= a < m.vmEnd && c.pt[a / PAGESZ].Resident?
    ensures var c' := Store(c, c.pt[a / PAGESZ].fpn, a % PAGESZ, v);
      && Lawful(c, c') && ProcOk(c', m)
      && forall b :: 0 <= b < m.vmEnd ==> ByteAt(c', b) == if b == a then Some(v) else ByteAt(c, b)
  {
    StoreLaw(c, a / PAGESZ, a % PAGESZ, v);
    var c' := Store(c, c.pt[a / PAGESZ].fpn, a % PAGESZ, v);
    forall b | 0 <= b < m.vmEnd ensures ByteAt(c', b) == if b == a then Some(v) else ByteAt(c, b) {
      if b / PAGESZ == a / PAGESZ {
        assert b == a <==> b % PAGESZ == a % PAGESZ;
      }
    }
  }

  lemma SetValLaw(c: Ctx, m: Area, a: int, v: Byte, g: Guard)
    requires ProcOk(c, m) && Exclusive(c) && 0 <= a < m.vmEnd && Accessible(c, a / PAGESZ, g)
    ensures var (c', done) := SetVal(c, a, v, g);
      && Lawful(c, c') && ProcOk(c', m) && (done <==> Served(c, a))
      && forall b :: 0 <= b < m.vmEnd ==> ByteAt(c', b) == if b == a && done then Some(v) else ByteAt(c, b)
  {
    var (c1, f) := GetPage(c, a / PAGESZ, g);
    GetPageLaw(c, a / PAGESZ, g);
    GetPageKeeps(c, m, a / PAGESZ, g);
    if f.Some? {
      StoreBytes(c1, m, a, v);
    }
  }
}
