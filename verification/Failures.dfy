/** Runs on which the memory management does not do what it is meant to: legal runs from boot, each of a few operations
    of one process on two frames of RAM. None of those under `AsWritten` meets a FIFO list of one element. */
module Failures {
  import opened Seqs
  import opened PageEntry
  import opened Paging
  import opened Access
  import opened Regions
  import opened Allocation
  import opened Memory
  import opened Fifo
  import opened Budget

  // ---------------------------------------------------------------------------------------------------------
  // One page at a time
  // ---------------------------------------------------------------------------------------------------------

  /** Allocation of a page when no free region is long enough. */
  lemma AllocPage(c: Ctx, m: Area, rgid: int)
    requires ProcOk(c, m) && CanTake(c) && |c.ram.frames| >= 1 && m.vmEnd + PAGESZ <= MAX_PGN * PAGESZ
    requires GetFree(m.free, PAGESZ).NoFit? && 0 <= rgid < MAX_SYMTBL
    ensures AllocReady(c, m, rgid, PAGESZ)
    ensures var (d, f) := NextFrame(c); var r := Allocation.Alloc(c, m, rgid, PAGESZ);
      && r.c == MapOne(d, m.vmEnd / PAGESZ, f) && r.m.free == m.free && r.m.vmEnd == m.vmEnd + PAGESZ
      && r.m.sym == m.sym[rgid := Region(m.vmEnd, m.vmEnd + PAGESZ)] && r.m.live == m.live + {rgid}
  {
    var (d, f) := NextFrame(c);
    assert AllocPages(d, 0, [f] + []) == Granted(d, [f]);
    assert AllocPages(c, 1, []) == Granted(d, [f]);
    var pgn := m.vmEnd / PAGESZ;
    assert MapPages(d, pgn, [f]) == MapPages(MapOne(d, pgn, f), pgn + 1, []);
    GrowThenFit(m, PAGESZ);
  }

  /** `n` page-sized variables: id k on page k. */
  ghost predicate AreaIs(m: Area, n: int) {
    && 0 <= n <= 8 && m.vmEnd == n * PAGESZ && GetFree(m.free, PAGESZ).NoFit? && |m.sym| == MAX_SYMTBL
    && (forall k :: k in m.live <==> 0 <= k < n)
    && (forall k :: 0 <= k < n ==> m.sym[k] == Region(k * PAGESZ, (k + 1) * PAGESZ))
  }

  predicate TableIs(t: seq<Entry>, pt: seq<Entry>) {
    |t| == MAX_PGN && |pt| <= 8 && forall k :: 0 <= k < |pt| ==> t[k] == pt[k]
  }

  /** One process with a variable on each of its pages, what its entries and its list say, and the two free lists. */
  ghost predicate Is(s: System, pt: seq<Entry>, fifo: seq<int>, ramFree: seq<int>, swapFree: seq<int>) {
    && |s.procs| == 1 && |s.ram.frames| == 2 && s.ram.free == ramFree && s.swap.free == swapFree
    && TableIs(s.procs[0].pt, pt) && s.procs[0].fifo == fifo && AreaIs(s.procs[0].area, |pt|)
  }

  /** Allocation of the next variable by eviction of the oldest tracked page. */
  lemma AllocEvict(s: System, pt: seq<Entry>, fifo: seq<int>, swapFree: seq<int>, g: Guard)
    requires SysOk(s) && Is(s, pt, fifo, [], swapFree) && swapFree != [] && |pt| < 8 && |fifo| >= 2
    requires 0 <= fifo[|fifo| - 1] < |pt|
    ensures Disciplined(s, Op.Alloc(0, |pt|, PAGESZ), g)
    ensures var v := fifo[|fifo| - 1];
      && pt[v].Resident?
      && Is(Exec(s, Op.Alloc(0, |pt|, PAGESZ), g).0,
            pt[v := Swapped(swapFree[0])] + [Resident(pt[v].fpn)], [|pt|] + fifo[..|fifo| - 1], [], swapFree[1..])
  {
    var c, m := View(s, 0), s.procs[0].area;
    assert ProcOk(c, m);
    AllocPage(c, m, |pt|);
  }

  // ---------------------------------------------------------------------------------------------------------
  // Runs
  // ---------------------------------------------------------------------------------------------------------

  /** The run `ops` from `s0` is legal, ends in `s`, and has written `fl`. */
  ghost predicate Leads(s0: System, ops: seq<Op>, g: Guard, s: System, fl: Flat) {
    && SysOk(s0) && s0.procs == [] && Legal(s0, ops, g) && s == Final(s0, ops, g) && SysOk(s)
    && fl == Written(s0, [], ops, g) && |fl| == |s.procs|
  }

  /** One more operation. */
  lemma Step(s0: System, ops: seq<Op>, g: Guard, s: System, fl: Flat, op: Op)
    requires Leads(s0, ops, g, s, fl) && Disciplined(s, op, g)
    ensures var (s', answer) := Exec(s, op, g); Leads(s0, ops + [op], g, s', FlatExec(fl, s, op, answer))
  {
    Extend(s0, [], ops, op, g);
    ExecOk(s, op, g);
  }

  /** The next variable, with a free frame at hand. */
  lemma Add(s0: System, ops: seq<Op>, g: Guard, s: System, fl: Flat,
            pt: seq<Entry>, fifo: seq<int>, ramFree: seq<int>, swapFree: seq<int>) returns (ops': seq<Op>, s': System)
    requires Leads(s0, ops, g, s, fl) && Is(s, pt, fifo, ramFree, swapFree) && ramFree != [] && |pt| < 8
    ensures Leads(s0, ops', g, s', fl)
    ensures Is(s', pt + [Resident(ramFree[0])], [|pt|] + fifo, ramFree[1..], swapFree)
  {
    var op := Op.Alloc(0, |pt|, PAGESZ);
    var c, m := View(s, 0), s.procs[0].area;
    assert ProcOk(c, m);
    AllocPage(c, m, |pt|);
    Step(s0, ops, g, s, fl, op);
    ops', s' := ops + [op], Exec(s, op, g).0;
  }

  /** One variable, which holds a 7. */
  lemma Half(s0: System, swapFrames: nat, g: Guard) returns (ops: seq<Op>, s: System)
    requires s0 == Boot(2, swapFrames)
    ensures Leads(s0, ops, g, s, [map[0 := 7]]) && Is(s, [Resident(0)], [0], [1], UpTo(swapFrames))
  {
    assert GetFree(InitArea().free, PAGESZ) == NoFit;
    assert UpTo(1) == [0] && UpTo(2) == [0, 1];
    UpToOcc(2, 0);
    UpToOcc(swapFrames, 0);
    ExecOk(s0, Spawn, g);
    assert Leads(s0, [], g, s0, []);
    Step(s0, [], g, s0, [], Spawn);
    s := Exec(s0, Spawn, g).0;
    assert FlatExec([], s0, Spawn, Exec(s0, Spawn, g).1) == [map[]];
    ops, s := Add(s0, [] + [Spawn], g, s, [map[]], [], [], [0, 1], UpTo(swapFrames));
    ops, s := Put(s0, ops, g, s, map[], [Resident(0)], [0], [1], UpTo(swapFrames), 0, 7);
  }

  /** A write to variable `k`. */
  lemma Put(s0: System, ops: seq<Op>, g: Guard, s: System, bytes: map<int, Byte>, pt: seq<Entry>, fifo: seq<int>,
            ramFree: seq<int>, swapFree: seq<int>, k: int, v: Byte) returns (ops': seq<Op>, s': System)
    requires Leads(s0, ops, g, s, [bytes]) && Is(s, pt, fifo, ramFree, swapFree)
    requires 0 <= k < |pt| && pt[k].Resident?
    ensures Leads(s0, ops', g, s', [bytes[k * PAGESZ := v]]) && Is(s', pt, fifo, ramFree, swapFree)
  {
    var op := Write(0, k, 0, v);
    TouchedMapped(s, Write(0, k, 0, v), g);
    Step(s0, ops, g, s, [bytes], op);
    assert FlatExec([bytes], s, op, Stored(true)) == [bytes[k * PAGESZ := v]];
    ops', s' := ops + [op], Exec(s, op, g).0;
  }

  /** An allocation that is refused. */
  lemma Drop(s0: System, ops: seq<Op>, g: Guard, s: System, fl: Flat, pt: seq<Entry>, fifo: seq<int>)
    returns (ops': seq<Op>, s': System)
    requires Leads(s0, ops, g, s, fl) && Is(s, pt, fifo, [], []) && |pt| < 8 && fifo != []
    requires g.AsWritten? ==> |fifo| >= 2
    ensures Leads(s0, ops', g, s', fl) && Is(s', pt, fifo[..|fifo| - 1], [], [])
  {
    var op := Op.Alloc(0, |pt|, PAGESZ);
    var c, m := View(s, 0), s.procs[0].area;
    assert ProcOk(c, m);
    assert Reverse<int>([]) == [];
    assert AllocPages(c, 1, []) == Refuse(c, []);
    assert GiveBack(DropVictim(c), []) == DropVictim(c);
    assert IncVmaLimit(c, m, PAGESZ) == Growth(DropVictim(c), m, false);
    Step(s0, ops, g, s, fl, op);
    ops', s' := ops + [op], Exec(s, op, g).0;
  }

  /** Two variables fill RAM; the first one holds a 7. */
  lemma Full(s0: System, swapFrames: nat, g: Guard) returns (ops: seq<Op>, s: System)
    requires s0 == Boot(2, swapFrames)
    ensures Leads(s0, ops, g, s, [map[0 := 7]])
    ensures Is(s, [Resident(0), Resident(1)], [1, 0], [], UpTo(swapFrames))
  {
    ops, s := Half(s0, swapFrames, g);
    ops, s := Add(s0, ops, g, s, [map[0 := 7]], [Resident(0)], [0], [1], UpTo(swapFrames));
  }

  /** The third variable sends the first one's page to swap and gets its frame. */
  lemma Evicted(s0: System, swapFrames: nat, g: Guard) returns (ops: seq<Op>, s: System)
    requires s0 == Boot(2, swapFrames) && swapFrames >= 1
    ensures Leads(s0, ops, g, s, [map[0 := 7]])
    ensures Is(s, [Swapped(0), Resident(1), Resident(0)], [2, 1], [], UpTo(swapFrames)[1..])
  {
    UpToOcc(swapFrames, 0);
    ops, s := Full(s0, swapFrames, g);
    var op := Op.Alloc(0, 2, PAGESZ);
    AllocEvict(s, [Resident(0), Resident(1)], [1, 0], UpTo(swapFrames), g);
    Step(s0, ops, g, s, [map[0 := 7]], op);
    ops, s := ops + [op], Exec(s, op, g).0;
  }

  // ---------------------------------------------------------------------------------------------------------
  // The failures
  // ---------------------------------------------------------------------------------------------------------

  /** The page of address 0 is in swap, and address 2 * 256 holds a 9. */
  lemma WrongByte(s: System, bytes: map<int, Byte>)
    requires SysOk(s) && Is(s, [Swapped(0), Resident(1), Resident(0)], [2, 1], [], [])
    requires Agrees(s, [bytes]) && 2 * PAGESZ in bytes && bytes[2 * PAGESZ] == 9
    ensures Exclusive(View(s, 0)) && Touchable(View(s, 0), 0, AsWritten)
    ensures GetVal(View(s, 0), 0, AsWritten).1 == Some(9)
  {
    ViewExclusive(s, 0);
    assert AgreesOn(View(s, 0), s.procs[0].area, bytes);
    assert ByteAt(View(s, 0), 2 * PAGESZ) == Some(9);
  }

  /** Under the as-written test a run of six operations after which the process has written 7 at address 0 and a read of
      that address, whose page is in swap, answers with the 9 written to another page. */
  lemma AsWrittenLosesWrite(s0: System) returns (ops: seq<Op>)
    requires s0 == Boot(2, 1)
    ensures Legal(s0, ops, AsWritten)
    ensures var s := Final(s0, ops, AsWritten);
      && |s.procs| == 1 && Exclusive(View(s, 0)) && Touchable(View(s, 0), 0, AsWritten)
      && (var fl := Written(s0, [], ops, AsWritten)[0]; 0 in fl && fl[0] == 7)
      && GetVal(View(s, 0), 0, AsWritten).1 == Some(9)
  {
    var s;
    ops, s := Evicted(s0, 1, AsWritten);
    assert UpTo(1) == [0];
    ops, s := Put(s0, ops, AsWritten, s, map[0 := 7], [Swapped(0), Resident(1), Resident(0)], [2, 1], [], [], 2, 9);
    RunRefinesFlat(s0, [], ops, AsWritten);
    WrongByte(s, map[0 := 7][2 * PAGESZ := 9]);
  }

  /** A run after which a legitimate allocation of two pages makes `find_victim_page` meet a list of one element, where
      the code as written faults. */
  lemma WalksOff(s0: System) returns (ops: seq<Op>)
    requires s0 == Boot(2, 1)
    ensures Legal(s0, ops, AsWritten)
    ensures var s := Final(s0, ops, AsWritten);
      && |s.procs| == 1
      && var c, m := View(s, 0), s.procs[0].area;
         && AllocReady(c, m, 1, 2 * PAGESZ) && 1 !in m.live && WalksOffList(c, m, 1, 2 * PAGESZ)
         && CtxOk(c) && MeetsOneElement(c, 2)
  {
    var s;
    ops, s := Half(s0, 1, AsWritten);
    var c, m := View(s, 0), s.procs[0].area;
    assert ProcOk(c, m);
    assert UpTo(1) == [0];
    MeetsOneElementIff(c, 2);
    GetFreeIsFirstFit(m.free, PAGESZ);
    GetFreeIsFirstFit(m.free, 2 * PAGESZ);
  }

  /** A refused allocation untracks a page, which then is stuck in its frame whatever legal operations follow. */
  lemma RefusalSticks(s0: System) returns (ops: seq<Op>)
    requires s0 == Boot(2, 0)
    ensures Legal(s0, ops, AsWritten)
    ensures var s := Final(s0, ops, AsWritten);
      && Stuck(s, 0, 0, 0)
      && forall more :: Legal(s, more, AsWritten) ==> Stuck(Final(s, more, AsWritten), 0, 0, 0)
  {
    var s;
    ops, s := Full(s0, 0, AsWritten);
    ops, s := Drop(s0, ops, AsWritten, s, [map[0 := 7]], [Resident(0), Resident(1)], [1, 0]);
    forall more | Legal(s, more, AsWritten) ensures Stuck(Final(s, more, AsWritten), 0, 0, 0) {
      StuckForEver(s, more, AsWritten, 0, 0, 0);
    }
  }

  /** Under the intended test a run after which nothing can be evicted any more and a swapped-out page cannot be read:
      `pg_getval` has no answer, while `__read` still returns 0; nor can it be written. */
  lemma ReadUnserved(s0: System) returns (ops: seq<Op>)
    requires s0 == Boot(2, 1)
    ensures Legal(s0, ops, Residency) && Written(s0, [], ops, Residency) == [map[0 := 7]]
    ensures var s := Final(s0, ops, Residency);
      && Disciplined(s, Read(0, 0, 0), Residency) && Exec(s, Read(0, 0, 0), Residency).1 == Data(None)
      && Disciplined(s, Write(0, 0, 0, 5), Residency) && Exec(s, Write(0, 0, 0, 5), Residency).1 == Stored(false)
  {
    var s;
    var pt := [Swapped(0), Resident(1), Resident(0)];
    ops, s := Evicted(s0, 1, Residency);
    assert UpTo(1) == [0];
    ops, s := Drop(s0, ops, Residency, s, [map[0 := 7]], pt, [2, 1]);
    ops, s := Drop(s0, ops, Residency, s, [map[0 := 7]], pt, [2]);
  }

  /** Bringing page 0 back from swap frame 0. */
  lemma FrameLost(s: System, pt: seq<Entry>, fifo: seq<int>, swapFree: seq<int>)
    requires SysOk(s) && Is(s, pt, fifo, [], swapFree) && |pt| > 0 && pt[0] == Swapped(0)
    requires fifo != [] && swapFree != [] && Disciplined(s, Read(0, 0, 0), Residency)
    ensures SwapOwners(Exec(s, Read(0, 0, 0), Residency).0, 0) == 0
  {
    var s' := Exec(s, Read(0, 0, 0), Residency).0;
    assert SwapOwners(s, 0) <= 1;
    TouchedMapped(s, Read(0, 0, 0), Residency);
    SwapInCounts(View(s, 0), 0, 0);
  }

  /** A read that brings a page back loses its swap frame: afterwards frame 0 is neither free nor under any page. */
  lemma SwapFrameLost(s0: System) returns (ops: seq<Op>)
    requires s0 == Boot(2, 2)
    ensures Legal(s0, ops, Residency) && SwapIns(s0, ops, Residency) > 0
    ensures SwapOwners(Final(s0, ops, Residency), 0) == 0
  {
    var s;
    ops, s := Evicted(s0, 2, Residency);
    assert UpTo(1) == [0] && UpTo(2) == [0, 1];
    var op, pt := Read(0, 0, 0), [Swapped(0), Resident(1), Resident(0)];
    TouchedMapped(s, Read(0, 0, 0), Residency);
    FrameLost(s, pt, [2, 1], [1]);
    Step(s0, ops, Residency, s, [map[0 := 7]], op);
    RunUsable(s0, ops, Residency);
    StepUsable(s, op, Residency);
    ops := ops + [op];
    RunUsable(s0, ops, Residency);
  }

  /** The two ways to break the tiling, for a process that has allocated variables 0 and 1: freeing one twice, and
      allocating under a live id. */
  lemma TilingBroken(s0: System) returns (ops: seq<Op>)
    requires s0 == Boot(2, 0)
    ensures Legal(s0, ops, AsWritten)
    ensures var s := Final(s0, ops, AsWritten);
      && |s.procs| == 1
      && var c, m := View(s, 0), s.procs[0].area;
         && AreaOk(m) && Tiled(m) && {0, 1} <= m.live
         && var freed := Allocation.Free(m, 0).0;
            && Tiled(freed) && !Tiled(Allocation.Free(freed, 0).0)
            && AllocReady(c, freed, 1, PAGESZ) && 1 in freed.live && !Tiled(Allocation.Alloc(c, freed, 1, PAGESZ).m)
  {
    var s;
    ops, s := Full(s0, 0, AsWritten);
    var c, m := View(s, 0), s.procs[0].area;
    assert ProcOk(c, m);
    var freed := Allocation.Free(m, 0).0;
    DoubleFreeOverlaps(m, 0);
    assert GetFree(freed.free, PAGESZ) == Fit(m.sym[0], m.free);
    ClaimTiledIff(freed, 1, PAGESZ);
  }
}
