/** The account of swap frames over runs. A page that is brought back leaves its swap frame to nobody, so each
    swap-in costs one frame for good: free frames, swapped-out pages and swap-ins so far add up to the device. */
module Budget {
  import opened PageEntry
  import opened Paging
  import opened Access
  import opened Regions
  import opened Allocation
  import opened Memory

  function SwappedPages(pt: seq<Entry>): nat {
    if pt == [] then 0 else (if pt[0].Swapped? then 1 else 0) + SwappedPages(pt[1..])
  }

  /** Swapped-out pages of all processes. */
  function AllSwapped(procs: seq<Mm>): nat {
    if procs == [] then 0 else SwappedPages(procs[0].pt) + AllSwapped(procs[1..])
  }

  /** The swap frames one process can see: the free ones and its own. */
  function Usable(c: Ctx): nat {
    |c.swap.free| + SwappedPages(c.pt)
  }

  /** The swap frames that are not lost. */
  function AllUsable(s: System): nat {
    |s.swap.free| + AllSwapped(s.procs)
  }

  lemma {:induction false} SwappedUpdate(pt: seq<Entry>, i: int, e: Entry)
    requires 0 <= i < |pt|
    ensures SwappedPages(pt[i := e]) + (if pt[i].Swapped? then 1 else 0) == SwappedPages(pt) + if e.Swapped? then 1 else 0
  {
    if i == 0 {
      assert pt[i := e][1..] == pt[1..];
    } else {
      assert pt[i := e][1..] == pt[1..][i - 1 := e];
      SwappedUpdate(pt[1..], i - 1, e);
    }
  }

  lemma {:induction false} AllSwappedUpdate(procs: seq<Mm>, i: int, mm: Mm)
    requires 0 <= i < |procs|
    ensures AllSwapped(procs[i := mm]) + SwappedPages(procs[i].pt) == AllSwapped(procs) + SwappedPages(mm.pt)
  {
    if i == 0 {
      assert procs[i := mm][1..] == procs[1..];
    } else {
      assert procs[i := mm][1..] == procs[1..][i - 1 := mm];
      AllSwappedUpdate(procs[1..], i - 1, mm);
    }
  }

  lemma {:induction false} AllSwappedAppend(procs: seq<Mm>, mm: Mm)
    ensures AllSwapped(procs + [mm]) == AllSwapped(procs) + SwappedPages(mm.pt)
  {
    if procs == [] {
      assert ([mm])[1..] == [];
    } else {
      assert (procs + [mm])[1..] == procs[1..] + [mm];
      AllSwappedAppend(procs[1..], mm);
    }
  }

  lemma {:induction false} NoneSwapped(pt: seq<Entry>)
    requires forall p :: 0 <= p < |pt| ==> pt[p] == Unmapped
    ensures SwappedPages(pt) == 0
  {
    if pt != [] {
      NoneSwapped(pt[1..]);
    }
  }

  // ---------------------------------------------------------------------------------------------------------
  // One operation
  // ---------------------------------------------------------------------------------------------------------

  /** Eviction turns a free swap frame into a page. */
  lemma EvictUsable(c: Ctx)
    requires CtxOk(c) && c.fifo != [] && c.swap.free != []
    ensures Usable(Evict(c)) == Usable(c)
  {
    SwappedUpdate(c.pt, Victim(c), Swapped(c.swap.free[0]));
  }

  lemma {:induction false} AllocPagesUsable(c: Ctx, k: nat, held: seq<int>)
    requires CtxOk(c)
    ensures Usable(AllocPages(c, k, held).c) == Usable(c)
    decreases k
  {
    if k > 0 && CanTake(c) {
      var (c', f) := NextFrame(c);
      AllocPagesUsable(c', k - 1, [f] + held);
      if c.ram.free == [] {
        EvictUsable(c);
      }
    }
  }

  lemma {:induction false} MapPagesUsable(c: Ctx, pgn: int, frames: seq<int>)
    requires 0 <= pgn && pgn + |frames| <= |c.pt|
    requires forall p :: pgn <= p < pgn + |frames| ==> c.pt[p] == Unmapped
    ensures Usable(MapPages(c, pgn, frames)) == Usable(c)
    decreases |frames|
  {
    if frames != [] {
      SwappedUpdate(c.pt, pgn, Resident(frames[0]));
      MapPagesUsable(MapOne(c, pgn, frames[0]), pgn + 1, frames[1..]);
    }
  }

  lemma GrowthUsable(c: Ctx, m: Area, size: int)
    requires ProcOk(c, m) && Exclusive(c) && 0 <= size && m.vmEnd + Align(size) <= MAX_PGN * PAGESZ
    ensures Usable(IncVmaLimit(c, m, size).c) == Usable(c)
  {
    AlignLaw(size);
    var k := Align(size) / PAGESZ;
    if 0 < k <= |c.ram.frames| {
      AllocPagesUsable(c, k, []);
      NoneHeld(c);
      AllocPagesLaw(c, k, []);
      var g := AllocPages(c, k, []);
      if g.Granted? {
        QuietKeepsMapping(c, g.c, m);
        MapPagesUsable(g.c, m.vmEnd / PAGESZ, g.frames);
      }
    }
  }

  /** Bringing a page back costs a frame for good. */
  lemma SwapInUsable(c: Ctx, pgn: int)
    requires CtxOk(c) && 0 <= pgn < |c.pt| && c.pt[pgn].Swapped? && c.fifo != [] && c.swap.free != []
    ensures Usable(SwapIn(c, pgn)) + 1 == Usable(c)
  {
    EvictUsable(c);
    SwappedUpdate(Evict(c).pt, pgn, Resident(c.pt[Victim(c)].fpn));
  }

  /** The operation brings a swapped-out page back. */
  predicate BringsIn(s: System, op: Op, g: Guard)
    requires Disciplined(s, op, g)
  {
    (op.Read? || op.Write?) &&
    var c := View(s, op.proc); Absent(g, c.pt[Touched(s, op) / PAGESZ]) && c.fifo != []
  }

  lemma UpdateUsable(s: System, i: int, c: Ctx, m: Area)
    requires 0 <= i < |s.procs|
    ensures AllUsable(Update(s, i, c, m)) + Usable(View(s, i)) == AllUsable(s) + Usable(c)
  {
    AllSwappedUpdate(s.procs, i, Mm(c.pt, c.fifo, m));
  }

  lemma StepUsable(s: System, op: Op, g: Guard)
    requires SysOk(s) && Disciplined(s, op, g)
    ensures AllUsable(Exec(s, op, g).0) + (if BringsIn(s, op, g) then 1 else 0) == AllUsable(s)
  {
    match op
    case Spawn =>
      AllSwappedAppend(s.procs, NewMm());
      NoneSwapped(NewMm().pt);
    case Alloc(i, rgid, size) =>
      var c, m := View(s, i), s.procs[i].area;
      ViewExclusive(s, i);
      assert ProcOk(c, m);
      if !Rejected(rgid) && GetFree(m.free, size).NoFit? {
        GrowthUsable(c, m, size);
      }
      var r := Allocation.Alloc(c, m, rgid, size);
      UpdateUsable(s, i, r.c, r.m);
    case Free(i, rgid) => UpdateUsable(s, i, View(s, i), Allocation.Free(s.procs[i].area, rgid).0);
    case _ =>
      TouchedMapped(s, op, g);
      var c, pgn := View(s, op.proc), Touched(s, op) / PAGESZ;
      if BringsIn(s, op, g) {
        SwapInUsable(c, pgn);
      }
      UpdateUsable(s, op.proc, View(Exec(s, op, g).0, op.proc), s.procs[op.proc].area);
  }

  // ---------------------------------------------------------------------------------------------------------
  // Runs
  // ---------------------------------------------------------------------------------------------------------

  /** How many operations of a run bring a page back. */
  function SwapIns(s: System, ops: seq<Op>, g: Guard): nat
    requires SysOk(s) && Legal(s, ops, g)
    decreases |ops|
  {
    if ops == [] then 0
    else
      ExecOk(s, ops[0], g);
      (if BringsIn(s, ops[0], g) then 1 else 0) + SwapIns(Exec(s, ops[0], g).0, ops[1..], g)
  }

  lemma {:induction false} RunUsable(s: System, ops: seq<Op>, g: Guard)
    requires SysOk(s) && Legal(s, ops, g)
    ensures AllUsable(Final(s, ops, g)) + SwapIns(s, ops, g) == AllUsable(s)
    decreases |ops|
  {
    if ops != [] {
      ExecOk(s, ops[0], g);
      StepUsable(s, ops[0], g);
      RunUsable(Exec(s, ops[0], g).0, ops[1..], g);
    }
  }

  /** Over every run from boot: free swap frames, swapped-out pages and swap-ins so far add up to the device. So there
      are never more swap-ins than swap frames, and with none left nothing can be evicted any more. */
  lemma SwapBudget(ramFrames: nat, swapFrames: nat, ops: seq<Op>, g: Guard)
    requires Legal(Boot(ramFrames, swapFrames), ops, g)
    ensures var s := Final(Boot(ramFrames, swapFrames), ops, g);
      |s.swap.free| + AllSwapped(s.procs) + SwapIns(Boot(ramFrames, swapFrames), ops, g) == swapFrames
  {
    RunUsable(Boot(ramFrames, swapFrames), ops, g);
    UpToOcc(swapFrames, 0);
  }
}
