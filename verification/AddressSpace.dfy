/** One process's memory management as it updates its structures in place: `mm.c`, `mm-vm.c` and `libmem.c`.

    Every method is proved against the value-level function of the same operation: the state after it is that
    function of the state before. The laws of those functions are in `Paging`, `Access`, `Regions` and `Allocation`. */
module AddressSpace {
  import opened Seqs
  import opened PageEntry
  import opened Paging
  import opened Access
  import opened Regions
  import Allocation
  import Pte
  import opened Memphy
  import opened PageTable

  class Mm {
    const table: PageTable
    const sym: array<Region>
    var freeRg: seq<Region>
    var fifo: seq<int>
    var vmEnd: int
    var sbrk: int
    /** The ids that are allocated and not yet freed: known to the caller, not to the code. */
    ghost var live: set<int>

    ghost predicate Valid()
      reads this, table, table.pgd, sym
    {
      table.Valid() && sym.Length == MAX_SYMTBL
    }

    /** This process and the two devices are separate objects of the sizes the entry layout allows. */
    ghost predicate Ready(ram: Memphy, swap: Memphy)
      reads this, table, table.pgd, sym, ram, ram.storage, swap, swap.storage
    {
      && Valid() && ram.Valid() && swap.Valid()
      && ram != swap && ram.storage != swap.storage
      && table.pgd as object != ram.storage && table.pgd as object != swap.storage
      && sym as object != table.pgd && sym as object != ram.storage && sym as object != swap.storage
      && |ram.frames| <= MAX_FRAMES && |swap.frames| <= MAX_SWAP_FRAMES
    }

    /** The translation state next to the devices, as a value. */
    ghost function View(ram: Memphy, swap: Memphy): Ctx
      reads this, table, ram, swap
    {
      Ctx(table.entries, fifo, ram.Dev(), swap.Dev())
    }

    ghost function TheArea(): Area
      reads this, sym
    {
      Area(freeRg, sym[..], live, vmEnd, sbrk)
    }

    /** `init_mm`. */
    constructor ()
      ensures Valid() && fresh(this) && fresh(table) && fresh(table.pgd) && fresh(sym)
      ensures table.entries == seq(MAX_PGN, _ => Unmapped) && fifo == [] && TheArea() == InitArea()
    {
      table := new PageTable();
      sym := new Region[MAX_SYMTBL](_ => Region(0, 0));
      freeRg := [Region(0, 0)];
      fifo := [];
      vmEnd, sbrk := 0, 0;
      live := {};
      new;
      assert sym[..] == InitArea().sym;
    }

    // -------------------------------------------------------------------------------------------------------
    // Frames and pages
    // -------------------------------------------------------------------------------------------------------

    /** `find_victim_page`: walk to the end of the FIFO list and unlink the last page. */
    method FindVictimPage() returns (pgn: int, ok: bool)
      modifies this`fifo
      ensures ok == (old(fifo) != [])
      ensures ok ==> pgn == old(fifo)[|old(fifo)| - 1] && fifo == old(fifo)[..|old(fifo)| - 1]
      ensures !ok ==> fifo == old(fifo)
    {
      if fifo == [] {
        return -1, false;
      }
      var pg := 0;
      while pg + 1 < |fifo|
        invariant 0 <= pg < |fifo|
      {
        pg := pg + 1;
      }
      pgn := fifo[pg];
      fifo := fifo[..pg];
      ok := true;
    }

    /** `enlist_pgn_node`. */
    method EnlistPgn(pgn: int)
      modifies this`fifo
      ensures fifo == [pgn] + old(fifo)
    {
      fifo := [pgn] + fifo;
    }

    /** The rollback loop of `alloc_pages_range`: give every frame of the list back. */
    method GiveBackFrames(ram: Memphy, frames: seq<int>)
      modifies ram`freeFp
      ensures ram.freeFp == Reverse(frames) + old(ram.freeFp)
    {
      var list := frames;
      while list != []
        invariant Reverse(list) + ram.freeFp == Reverse(frames) + old(ram.freeFp)
        decreases |list|
      {
        assert Reverse(list) + ram.freeFp == Reverse(list[1..]) + ([list[0]] + ram.freeFp);
        ram.PutFreefp(list[0]);
        list := list[1..];
      }
    }

    /** Move the victim's bytes to swap frame `swpfpn` and mark its entry: the eviction step of
        `alloc_pages_range`, after the victim was unlinked and the swap frame taken. */
    method SwapOut(ram: Memphy, swap: Memphy, vicpgn: int, swpfpn: int) returns (vicfpn: int)
      requires Ready(ram, swap) && 0 <= vicpgn < MAX_PGN && table.entries[vicpgn].Resident?
      requires 0 <= table.entries[vicpgn].fpn < |ram.frames| && 0 <= swpfpn < |swap.frames|
      modifies table, table.pgd, swap`frames, swap.storage
      ensures Ready(ram, swap) && vicfpn == old(table.entries)[vicpgn].fpn
      ensures table.entries == old(table.entries)[vicpgn := Swapped(swpfpn)]
      ensures swap.frames == old(swap.frames)[swpfpn := ram.frames[vicfpn]]
    {
      vicfpn := table.GetFpn(vicpgn);
      ram.CopyPageTo(vicfpn, swap, swpfpn);
      table.SetSwap(vicpgn, swpfpn);
    }

    /** One turn of the loop of `alloc_pages_range`: a free frame, or else the victim's. */
    method ObtainFrame(ram: Memphy, swap: Memphy) returns (fpn: int, ok: bool)
      requires Ready(ram, swap) && CtxOk(View(ram, swap))
      modifies this`fifo, table, table.pgd, ram`freeFp, swap, swap.storage
      ensures Ready(ram, swap) && CtxOk(View(ram, swap)) && ok == CanTake(old(View(ram, swap)))
      ensures ok ==> (View(ram, swap), fpn) == NextFrame(old(View(ram, swap)))
      ensures !ok && old(fifo) == [] ==> View(ram, swap) == old(View(ram, swap))
      ensures !ok && old(fifo) != [] ==> View(ram, swap) == DropVictim(old(View(ram, swap)))
    {
      ghost var c := View(ram, swap);
      fpn, ok := ram.GetFreefp();
      if !ok {
        var vicpgn, found := FindVictimPage();
        if !found {
          return;
        }
        var swpfpn;
        swpfpn, ok := swap.GetFreefp();
        if !ok {
          return;
        }
        EvictOk(c);
        fpn := SwapOut(ram, swap, vicpgn, swpfpn);
      }
    }

    /** `alloc_pages_range`: 0 with the frames, -1 for a request larger than RAM, -3000 when frames ran out. */
    method AllocPagesRange(ram: Memphy, swap: Memphy, reqPgnum: int) returns (frames: seq<int>, ret: int)
      requires Ready(ram, swap) && CtxOk(View(ram, swap)) && 0 <= reqPgnum
      modifies this`fifo, table, table.pgd, ram`freeFp, swap, swap.storage
      ensures Ready(ram, swap) && CtxOk(View(ram, swap))
      ensures ret == -1 <==> reqPgnum > |ram.frames|
      ensures ret == -1 ==> View(ram, swap) == old(View(ram, swap))
      ensures ret == 0 ==> AllocPages(old(View(ram, swap)), reqPgnum, []) == Granted(View(ram, swap), frames)
      ensures ret == 0 ==> forall k :: 0 <= k < |frames| ==> 0 <= frames[k] < MAX_FRAMES
      ensures ret == -3000 ==> AllocPages(old(View(ram, swap)), reqPgnum, []) == OutOfMemory(View(ram, swap))
      ensures ret == 0 || ret == -1 || ret == -3000
    {
      frames := [];
      if reqPgnum > ram.storage.Length / PAGESZ {
        return [], -1;
      }
      ghost var goal := AllocPages(View(ram, swap), reqPgnum, []);
      var pgit := 0;
      while pgit < reqPgnum
        invariant 0 <= pgit <= reqPgnum && Ready(ram, swap) && CtxOk(View(ram, swap))
        invariant forall k :: 0 <= k < |frames| ==> 0 <= frames[k] < |ram.frames|
        invariant AllocPages(View(ram, swap), reqPgnum - pgit, frames) == goal
      {
        ghost var c := View(ram, swap);
        var fpn, ok := ObtainFrame(ram, swap);
        if !ok {
          GiveBackFrames(ram, frames);
          assert goal == Refuse(c, frames);
          GiveBackOk(if c.fifo == [] then c else DropVictim(c), frames);
          return [], -3000;
        }
        frames := [fpn] + frames;
        pgit := pgit + 1;
      }
      ret := 0;
    }

    /** `vmap_page_range`. */
    method VmapPageRange(addr: int, frames: seq<int>, ghost ram: Memphy, ghost swap: Memphy)
      requires Ready(ram, swap) && 0 <= addr && addr % PAGESZ == 0 && addr / PAGESZ + |frames| <= MAX_PGN
      requires forall k :: 0 <= k < |frames| ==> 0 <= frames[k] < MAX_FRAMES
      modifies this`fifo, table, table.pgd
      ensures Ready(ram, swap)
      ensures View(ram, swap) == MapPages(old(View(ram, swap)), addr / PAGESZ, frames)
    {
      var pgn, pgit := addr / PAGESZ, 0;
      ghost var goal := MapPages(View(ram, swap), pgn, frames);
      while pgit < |frames|
        invariant 0 <= pgit <= |frames| && Ready(ram, swap)
        invariant MapPages(View(ram, swap), pgn + pgit, frames[pgit..]) == goal
      {
        ghost var c := View(ram, swap);
        table.SetFpn(pgn + pgit, frames[pgit]);
        EnlistPgn(pgn + pgit);
        assert View(ram, swap) == MapOne(c, pgn + pgit, frames[pgit..][0]);
        assert frames[pgit..][1..] == frames[pgit + 1..];
        pgit := pgit + 1;
      }
    }

    // -------------------------------------------------------------------------------------------------------
    // Regions
    // -------------------------------------------------------------------------------------------------------

    /** `get_free_vmrg_area`: walk the free list to the first region that is long enough. */
    method GetFreeVmrgArea(size: int) returns (newrg: Region, ok: bool)
      requires 0 <= size
      modifies this`freeRg
      ensures ok == GetFree(old(freeRg), size).Fit?
      ensures ok ==> GetFree(old(freeRg), size) == Fit(newrg, freeRg)
      ensures !ok ==> freeRg == old(freeRg)
    {
      var it := 0;
      newrg := Region(0, 0);
      while it < |freeRg|
        invariant 0 <= it <= |freeRg| && freeRg == old(freeRg)
        invariant GetFree(freeRg, size) == Skip(freeRg[..it], GetFree(freeRg[it..], size))
      {
        var rg := freeRg[it];
        ScanStep(freeRg, it, size);
        if rg.start + size == rg.end {
          freeRg := freeRg[..it] + freeRg[it + 1..];
          return rg, true;
        }
        if rg.start + size < rg.end {
          freeRg := freeRg[it := Region(rg.start + size, rg.end)];
          return Region(rg.start, rg.start + size), true;
        }
        it := it + 1;
      }
      ok := false;
    }

    /** `enlist_vm_freerg_list` and `enlist_vm_rg_node`: put a region at the head of the free list. */
    method EnlistRegion(rg: Region)
      modifies this`freeRg
      ensures freeRg == [rg] + old(freeRg)
    {
      freeRg := [rg] + freeRg;
    }

    /** `vm_map_ram`: frames for the pages from `mapstart` on, or nothing. */
    method VmMapRam(ram: Memphy, swap: Memphy, mapstart: int, incpgnum: int) returns (ok: bool)
      requires Ready(ram, swap) && CtxOk(View(ram, swap)) && 0 <= incpgnum
      requires 0 <= mapstart && mapstart % PAGESZ == 0 && mapstart / PAGESZ + incpgnum <= MAX_PGN
      modifies this`fifo, table, table.pgd, ram`freeFp, swap, swap.storage
      ensures Ready(ram, swap)
      ensures incpgnum > |ram.frames| ==> !ok && View(ram, swap) == old(View(ram, swap))
      ensures incpgnum <= |ram.frames| ==>
                match AllocPages(old(View(ram, swap)), incpgnum, [])
                case OutOfMemory(c) => !ok && View(ram, swap) == c
                case Granted(c, frames) => ok && View(ram, swap) == MapPages(c, mapstart / PAGESZ, frames)
    {
      var frames, ret := AllocPagesRange(ram, swap, incpgnum);
      if ret == -1 || ret == -3000 {
        return false;
      }
      VmapPageRange(mapstart, frames, ram, swap);
      ok := true;
    }

    /** `inc_vma_limit`. The overlap test reduces to the emptiness test, as there is only one area. */
    method IncVmaLimit(ram: Memphy, swap: Memphy, incSz: int) returns (ok: bool)
      requires Ready(ram, swap) && CtxOk(View(ram, swap)) && 0 <= incSz
      requires 0 <= vmEnd && vmEnd % PAGESZ == 0 && vmEnd + Align(incSz) <= MAX_PGN * PAGESZ
      modifies this`vmEnd, this`sbrk, this`freeRg, this`fifo, table, table.pgd, ram`freeFp, swap, swap.storage
      ensures Ready(ram, swap)
      ensures Allocation.Growth(View(ram, swap), TheArea(), ok)
           == Allocation.IncVmaLimit(old(View(ram, swap)), old(TheArea()), incSz)
    {
      var incAmt := Align(incSz);
      var incnumpage := incAmt / PAGESZ;
      var oldEnd := vmEnd;
      if sbrk >= sbrk + incAmt {
        return false;
      }
      ok := VmMapRam(ram, swap, oldEnd, incnumpage);
      if !ok {
        return;
      }
      vmEnd := vmEnd + incAmt;
      sbrk := sbrk + incAmt;
      EnlistRegion(Region(oldEnd, oldEnd + incnumpage * PAGESZ));
    }

    // -------------------------------------------------------------------------------------------------------
    // __alloc and __free
    // -------------------------------------------------------------------------------------------------------

    /** `__alloc`: 0 with the address, or -1. */
    method Alloc(ram: Memphy, swap: Memphy, rgid: int, size: int) returns (ret: int, addr: int)
      requires Ready(ram, swap) && CtxOk(View(ram, swap)) && AreaOk(TheArea())
      requires Allocation.AllocReady(View(ram, swap), TheArea(), rgid, size)
      modifies this, sym, table, table.pgd, ram`freeFp, swap, swap.storage
      ensures Ready(ram, swap) && (ret == 0 || ret == -1)
      ensures Allocation.Allocated(View(ram, swap), TheArea(), if ret == 0 then Some(addr) else None)
           == Allocation.Alloc(old(View(ram, swap)), old(TheArea()), rgid, size)
    {
      if rgid < 0 || rgid > MAX_SYMTBL {
        return -1, 0;
      }
      var rgnode, ok := GetFreeVmrgArea(size);
      if ok {
        Commit(rgid, rgnode);
        return 0, rgnode.start;
      }
      var grown := IncVmaLimit(ram, swap, size);
      rgnode, ok := GetFreeVmrgArea(size);
      if ok {
        Commit(rgid, rgnode);
        return 0, rgnode.start;
      }
      return -1, 0;
    }

    /** Enter a region under an id. */
    method Commit(rgid: int, rg: Region)
      requires 0 <= rgid < sym.Length
      modifies this`live, sym
      ensures sym[..] == old(sym[..])[rgid := rg] && live == old(live) + {rgid}
    {
      sym[rgid] := rg;
      live := live + {rgid};
    }

    /** `__free`: 0, or -1 for an id out of range or an empty entry. The entry stays in the table. */
    method Free(rgid: int) returns (ret: int)
      requires sym.Length == MAX_SYMTBL && rgid != MAX_SYMTBL
      modifies this`freeRg, this`live
      ensures (TheArea(), ret == 0) == Allocation.Free(old(TheArea()), rgid) && (ret == 0 || ret == -1)
    {
      if rgid < 0 || rgid > MAX_SYMTBL {
        return -1;
      }
      var rgnode := sym[rgid];
      if rgnode.start >= rgnode.end {
        return -1;
      }
      EnlistRegion(rgnode);
      live := live - {rgid};
      return 0;
    }

    // -------------------------------------------------------------------------------------------------------
    // Access
    // -------------------------------------------------------------------------------------------------------

    /** The second half of a swap-in: the wanted page is copied from its swap frame into the victim's RAM frame, its
        entry is set and it becomes the youngest tracked page. */
    method PlacePage(ram: Memphy, swap: Memphy, pgn: int, tgtfpn: int, vicfpn: int)
      requires Ready(ram, swap) && 0 <= pgn < MAX_PGN && 0 <= tgtfpn < |swap.frames| && 0 <= vicfpn < |ram.frames|
      modifies this`fifo, table, table.pgd, ram`frames, ram.storage
      ensures Ready(ram, swap)
      ensures View(ram, swap) == Place(old(View(ram, swap)), pgn, tgtfpn, vicfpn)
    {
      swap.CopyPageTo(tgtfpn, ram, vicfpn);
      table.SetFpn(pgn, vicfpn);
      EnlistPgn(pgn);
    }

    method FetchByte(ram: Memphy, fpn: int, off: int) returns (data: Byte)
      requires ram.Valid() && 0 <= fpn < |ram.frames| && 0 <= off < PAGESZ
      ensures data == ram.frames[fpn][off]
    {
      data := ram.ReadCell(fpn * PAGESZ + off);
    }

    method PutByte(ram: Memphy, swap: Memphy, fpn: int, off: int, value: Byte)
      requires Ready(ram, swap) && 0 <= fpn < |ram.frames| && 0 <= off < PAGESZ
      modifies ram`frames, ram.storage
      ensures Ready(ram, swap) && View(ram, swap) == Store(old(View(ram, swap)), fpn, off, value)
    {
      ram.WriteCell(fpn * PAGESZ + off, value);
    }

    /** The branch of `pg_getpage` that brings page `pgn` in: refused when there is no victim. */
    method SwapInPage(ram: Memphy, swap: Memphy, pgn: int) returns (ok: bool)
      requires Ready(ram, swap) && CtxOk(View(ram, swap)) && 0 <= pgn < MAX_PGN && table.entries[pgn].Swapped?
      requires fifo != [] ==> swap.freeFp != []
      modifies this`fifo, table, table.pgd, ram`frames, ram.storage, swap, swap.storage
      ensures Ready(ram, swap) && ok == (old(fifo) != [])
      ensures View(ram, swap) == if ok then SwapIn(old(View(ram, swap)), pgn) else old(View(ram, swap))
    {
      var tgtfpn := table.GetSwp(pgn);
      var vicpgn, found := FindVictimPage();
      if !found {
        return false;
      }
      var swpfpn, room := swap.GetFreefp();
      var vicfpn := SwapOut(ram, swap, vicpgn, swpfpn);
      assert View(ram, swap) == Evict(old(View(ram, swap)));
      PlacePage(ram, swap, pgn, tgtfpn, vicfpn);
      ok := true;
    }

    /** `pg_getpage`, under the test `g` for a page that must be brought in. */
    method GetPage(ram: Memphy, swap: Memphy, pgn: int, g: Guard) returns (fpn: int, ok: bool)
      requires Ready(ram, swap) && CtxOk(View(ram, swap)) && Loadable(View(ram, swap), pgn, g)
      modifies this`fifo, table, table.pgd, ram`frames, ram.storage, swap, swap.storage
      ensures Ready(ram, swap)
      ensures (View(ram, swap), if ok then Some(fpn) else None) == Access.GetPage(old(View(ram, swap)), pgn, g)
    {
      var present := table.IsPresent(pgn);
      var swapped := table.IsSwapped(pgn);
      if !present || (g.Residency? && swapped) {
        ok := SwapInPage(ram, swap, pgn);
        if !ok {
          return -1, false;
        }
      }
      fpn := table.GetFpn(pgn);
      ok := true;
    }

    /** `PAGING_PGN` and `PAGING_OFFST` of an address, by the bit fields. */
    method SplitAddress(addr: int) returns (pgn: int, off: int)
      requires 0 <= addr < MAX_PGN * PAGESZ
      ensures pgn == addr / PAGESZ && off == addr % PAGESZ
    {
      Pte.SplitIsDivMod(addr);
      pgn, off := Pte.Pgn(addr as bv32) as int, Pte.Offst(addr as bv32) as int;
    }

    /** `pg_getval`. */
    method GetVal(ram: Memphy, swap: Memphy, addr: int, g: Guard) returns (data: Byte, ok: bool)
      requires Ready(ram, swap) && CtxOk(View(ram, swap)) && Exclusive(View(ram, swap))
      requires 0 <= addr < MAX_PGN * PAGESZ && Touchable(View(ram, swap), addr / PAGESZ, g)
      modifies this`fifo, table, table.pgd, ram`frames, ram.storage, swap, swap.storage
      ensures Ready(ram, swap)
      ensures (View(ram, swap), if ok then Some(data) else None) == Allocation.GetVal(old(View(ram, swap)), addr, g)
    {
      data := 0;
      var pgn, off := SplitAddress(addr);
      GetPageLaw(View(ram, swap), pgn, g);
      var fpn;
      fpn, ok := GetPage(ram, swap, pgn, g);
      if ok {
        data := FetchByte(ram, fpn, off);
      }
    }

    /** `pg_setval`. */
    method SetVal(ram: Memphy, swap: Memphy, addr: int, value: Byte, g: Guard) returns (ok: bool)
      requires Ready(ram, swap) && CtxOk(View(ram, swap)) && Exclusive(View(ram, swap))
      requires 0 <= addr < MAX_PGN * PAGESZ && Touchable(View(ram, swap), addr / PAGESZ, g)
      modifies this`fifo, table, table.pgd, ram`frames, ram.storage, swap, swap.storage
      ensures Ready(ram, swap)
      ensures (View(ram, swap), ok) == Allocation.SetVal(old(View(ram, swap)), addr, value, g)
    {
      var pgn, off := SplitAddress(addr);
      GetPageLaw(View(ram, swap), pgn, g);
      var fpn;
      fpn, ok := GetPage(ram, swap, pgn, g);
      if ok {
        PutByte(ram, swap, fpn, off, value);
      }
    }

    /** What `__read` and `__write` ask of their caller for an id in range: an offset inside the live region, and a
        page that can be accessed. */
    ghost predicate MayTouch(ram: Memphy, swap: Memphy, rgid: int, offset: int, g: Guard)
      reads this, table, table.pgd, sym, ram, ram.storage, swap, swap.storage
    {
      && Ready(ram, swap) && Allocation.ProcOk(View(ram, swap), TheArea()) && Exclusive(View(ram, swap))
      && rgid != MAX_SYMTBL
      && (0 <= rgid < MAX_SYMTBL ==>
            && Allocation.InRegion(TheArea(), rgid, offset)
            && Accessible(View(ram, swap), Allocation.Address(TheArea(), rgid, offset) / PAGESZ, g))
    }

    /** `pg_getval` by what it means; its return code is dropped by `__read`. */
    method ReadAt(ram: Memphy, swap: Memphy, addr: int, g: Guard) returns (data: Byte)
      requires Ready(ram, swap) && Allocation.ProcOk(View(ram, swap), TheArea()) && Exclusive(View(ram, swap))
      requires 0 <= addr < vmEnd && Accessible(View(ram, swap), addr / PAGESZ, g)
      modifies this`fifo, table, table.pgd, ram`frames, ram.storage, swap, swap.storage
      ensures Ready(ram, swap)
      ensures Allocation.ReadLaw(old(View(ram, swap)), View(ram, swap), TheArea(), addr, data)
    {
      ghost var c := View(ram, swap);
      var ok;
      data, ok := GetVal(ram, swap, addr, g);
      Allocation.GetValReads(c, View(ram, swap), TheArea(), addr, g, if ok then Some(data) else None, data);
    }

    /** `pg_setval` by what it means; its return code is dropped by `__write`. */
    method WriteAt(ram: Memphy, swap: Memphy, addr: int, value: Byte, g: Guard)
      requires Ready(ram, swap) && Allocation.ProcOk(View(ram, swap), TheArea()) && Exclusive(View(ram, swap))
      requires 0 <= addr < vmEnd && Accessible(View(ram, swap), addr / PAGESZ, g)
      modifies this`fifo, table, table.pgd, ram`frames, ram.storage, swap, swap.storage
      ensures Ready(ram, swap)
      ensures Allocation.WriteLaw(old(View(ram, swap)), View(ram, swap), TheArea(), addr, value)
    {
      ghost var c := View(ram, swap);
      var ok := SetVal(ram, swap, addr, value, g);
      Allocation.SetValWrites(c, View(ram, swap), TheArea(), addr, value, g);
    }

    /** `__read`: the return code only says whether the id was in range. The byte is right when the access can be
        served; otherwise the call still returns 0 and `data` means nothing. */
    method Read(ram: Memphy, swap: Memphy, rgid: int, offset: int, g: Guard) returns (ret: int, data: Byte)
      requires MayTouch(ram, swap, rgid, offset, g)
      modifies this`fifo, table, table.pgd, ram`frames, ram.storage, swap, swap.storage
      ensures Ready(ram, swap) && ret == if 0 <= rgid < MAX_SYMTBL then 0 else -1
      ensures ret == -1 ==> View(ram, swap) == old(View(ram, swap))
      ensures ret == 0 ==>
                Allocation.ReadLaw(old(View(ram, swap)), View(ram, swap), TheArea(), sym[rgid].start + offset, data)
    {
      if rgid < 0 || rgid > MAX_SYMTBL {
        return -1, 0;
      }
      Allocation.AddressMapped(View(ram, swap), TheArea(), rgid, offset);
      var addr := sym[rgid].start + offset;
      data := ReadAt(ram, swap, addr, g);
      assert sym[rgid].start + offset == addr;
      ret := 0;
    }

    /** `__write`: the return code only says whether the id was in range. The byte is stored when the access can be
        served; otherwise the call still returns 0 and nothing is stored. */
    method Write(ram: Memphy, swap: Memphy, rgid: int, offset: int, value: Byte, g: Guard) returns (ret: int)
      requires MayTouch(ram, swap, rgid, offset, g)
      modifies this`fifo, table, table.pgd, ram`frames, ram.storage, swap, swap.storage
      ensures Ready(ram, swap) && ret == if 0 <= rgid < MAX_SYMTBL then 0 else -1
      ensures ret == -1 ==> View(ram, swap) == old(View(ram, swap))
      ensures ret == 0 ==>
                Allocation.WriteLaw(old(View(ram, swap)), View(ram, swap), TheArea(), sym[rgid].start + offset, value)
    {
      if rgid < 0 || rgid > MAX_SYMTBL {
        return -1;
      }
      Allocation.AddressMapped(View(ram, swap), TheArea(), rgid, offset);
      var addr := sym[rgid].start + offset;
      WriteAt(ram, swap, addr, value, g);
      ret := 0;
    }
  }

  /** A fit found behind a prefix of regions that are too short. */
  function Skip(prefix: seq<Region>, fit: Fit): Fit {
    if fit.NoFit? then NoFit else Fit(fit.rg, prefix + fit.rest)
  }

  /** What the region at `it` decides, when all before it were too short. */
  function Decided(rs: seq<Region>, it: int, size: int): Fit
    requires 0 <= it < |rs|
  {
    var rg := rs[it];
    if rg.start + size == rg.end then Fit(rg, rs[..it] + rs[it + 1..])
    else if rg.start + size < rg.end then
      Fit(Region(rg.start, rg.start + size), rs[it := Region(rg.start + size, rg.end)])
    else Skip(rs[..it + 1], GetFree(rs[it + 1..], size))
  }

  lemma ScanStep(rs: seq<Region>, it: int, size: int)
    requires 0 <= it < |rs|
    ensures Skip(rs[..it], GetFree(rs[it..], size)) == Decided(rs, it, size)
  {
    var rg, here, tail := rs[it], rs[it..], rs[it + 1..];
    assert here != [] && here[0] == rg && here[1..] == tail;
    var fit := GetFree(tail, size);
    if rg.start + size < rg.end {
      assert rs[..it] + ([Region(rg.start + size, rg.end)] + tail) == rs[it := Region(rg.start + size, rg.end)];
    } else if rg.start + size > rg.end && fit.Fit? {
      assert GetFree(here, size) == Fit(fit.rg, [rg] + fit.rest);
      assert rs[..it] + ([rg] + fit.rest) == rs[..it + 1] + fit.rest;
    }
  }
}
