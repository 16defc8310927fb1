/** All processes over one RAM and one swap device, and runs of memory operations by any of them.

    The two results about runs: RAM frames are conserved across processes, and every process sees a private flat
    memory in which a byte keeps the last value its own process wrote there. */
module Memory {
  import opened Seqs
  import opened PageEntry
  import opened Paging
  import opened Access
  import opened Regions
  import opened Allocation

  /** The memory side of one process: page table, FIFO list, vm area. */
  datatype Mm = Mm(pt: seq<Entry>, fifo: seq<int>, area: Area)

  datatype System = System(ram: Device, swap: Device, procs: seq<Mm>)

  /** The system as process `i` meets it. */
  function View(s: System, i: int): Ctx
    requires 0 <= i < |s.procs|
  {
    Ctx(s.procs[i].pt, s.procs[i].fifo, s.ram, s.swap)
  }

  /** The system after process `i` went from its view to `c` and `m`. */
  function Update(s: System, i: int, c: Ctx, m: Area): System
    requires 0 <= i < |s.procs|
  {
    System(c.ram, c.swap, s.procs[i := Mm(c.pt, c.fifo, m)])
  }

  // ---------------------------------------------------------------------------------------------------------
  // Conservation
  // ---------------------------------------------------------------------------------------------------------

  /** How many page-table entries of all processes are `e`. */
  function Holders(procs: seq<Mm>, e: Entry): nat {
    if procs == [] then 0 else Occ(procs[0].pt, e) + Holders(procs[1..], e)
  }

  function RamOwners(s: System, f: int): nat {
    Occ(s.ram.free, f) + Holders(s.procs, Resident(f))
  }

  function SwapOwners(s: System, x: int): nat {
    Occ(s.swap.free, x) + Holders(s.procs, Swapped(x))
  }

  /** Every RAM frame is on the free list or under exactly one resident page of one process, and there are no other
      frames. */
  ghost predicate RamConserved(s: System) {
    forall f :: RamOwners(s, f) == if 0 <= f < |s.ram.frames| then 1 else 0
  }

  /** No swap frame is used twice. Frames a page came back from are in nobody's hands. */
  ghost predicate SwapExclusive(s: System) {
    forall x :: SwapOwners(s, x) <= if 0 <= x < |s.swap.frames| then 1 else 0
  }

  ghost predicate SysOk(s: System) {
    && RamConserved(s) && SwapExclusive(s)
    && forall i :: 0 <= i < |s.procs| ==> ProcOk(View(s, i), s.procs[i].area)
  }

  lemma {:induction false} HoldersUpdate(procs: seq<Mm>, i: int, mm: Mm, e: Entry)
    requires 0 <= i < |procs|
    ensures Holders(procs[i := mm], e) + Occ(procs[i].pt, e) == Holders(procs, e) + Occ(mm.pt, e)
  {
    if i == 0 {
      assert procs[i := mm][1..] == procs[1..];
    } else {
      assert procs[i := mm][1..] == procs[1..][i - 1 := mm];
      HoldersUpdate(procs[1..], i - 1, mm, e);
    }
  }

  lemma {:induction false} HoldersAtLeast(procs: seq<Mm>, i: int, j: int, e: Entry)
    requires 0 <= i < |procs| && 0 <= j < |procs|
    ensures Holders(procs, e) >= Occ(procs[i].pt, e) + if i == j then 0 else Occ(procs[j].pt, e)
  {
    if i > 0 && j > 0 {
      HoldersAtLeast(procs[1..], i - 1, j - 1, e);
    } else if i > 0 {
      HoldersAtLeast(procs[1..], i - 1, i - 1, e);
    } else if j > 0 {
      HoldersAtLeast(procs[1..], j - 1, j - 1, e);
    }
  }

  lemma {:induction false} HoldersAppend(procs: seq<Mm>, mm: Mm, e: Entry)
    ensures Holders(procs + [mm], e) == Holders(procs, e) + Occ(mm.pt, e)
  {
    if procs == [] {
      assert ([mm])[1..] == [];
    } else {
      assert (procs + [mm])[1..] == procs[1..] + [mm];
      HoldersAppend(procs[1..], mm, e);
    }
  }

  /** What no process owns twice, one process does not own twice. */
  lemma ViewExclusive(s: System, i: int)
    requires SysOk(s) && 0 <= i < |s.procs|
    ensures Exclusive(View(s, i))
  {
    forall x: int ensures RamCount(View(s, i), x) <= 1 && SwapCount(View(s, i), x) <= 1 {
      HoldersAtLeast(s.procs, i, i, Resident(x));
      HoldersAtLeast(s.procs, i, i, Swapped(x));
      assert RamOwners(s, x) <= 1 && SwapOwners(s, x) <= 1;
    }
  }

  /** A mapped page of one process is foreign to every other one. */
  lemma OthersAreForeign(s: System, i: int, j: int, p: int)
    requires SysOk(s) && 0 <= i < |s.procs| && 0 <= j < |s.procs| && i != j && 0 <= p < MAX_PGN
    ensures Foreign(View(s, i), s.procs[j].pt[p])
  {
    var e := s.procs[j].pt[p];
    assert e in s.procs[j].pt;
    assert EntryOk(View(s, j).pt[p], s.ram, s.swap);
    HoldersAtLeast(s.procs, i, j, e);
    if e.Resident? {
      assert RamOwners(s, e.fpn) <= 1;
    } else if e.Swapped? {
      assert SwapOwners(s, e.off) <= 1;
    }
  }

  /** Process `j`'s memory reads the same in both systems. */
  ghost predicate SameBytes(s: System, s': System, j: int)
    requires 0 <= j < |s.procs| && 0 <= j < |s'.procs|
  {
    s'.procs[j].area == s.procs[j].area && BytesKept(View(s, j), View(s', j), s.procs[j].area.vmEnd)
  }

  lemma LiftOwners(s: System, i: int, c: Ctx, m: Area)
    requires SysOk(s) && 0 <= i < |s.procs| && Lawful(View(s, i), c)
    ensures RamConserved(Update(s, i, c, m)) && SwapExclusive(Update(s, i, c, m))
  {
    var s' := Update(s, i, c, m);
    forall f ensures RamOwners(s', f) == RamOwners(s, f) {
      HoldersUpdate(s.procs, i, Mm(c.pt, c.fifo, m), Resident(f));
      assert RamCount(c, f) == RamCount(View(s, i), f);
    }
    forall x ensures SwapOwners(s', x) <= SwapOwners(s, x) {
      HoldersUpdate(s.procs, i, Mm(c.pt, c.fifo, m), Swapped(x));
      assert SwapCount(c, x) <= SwapCount(View(s, i), x);
    }
  }

  lemma LiftOther(s: System, i: int, c: Ctx, m: Area, j: int)
    requires SysOk(s) && 0 <= i < |s.procs| && Lawful(View(s, i), c) && DeviceOk(c.ram) && DeviceOk(c.swap)
    requires 0 <= j < |s.procs| && j != i
    ensures ProcOk(View(Update(s, i, c, m), j), s.procs[j].area) && SameBytes(s, Update(s, i, c, m), j)
  {
    var s' := Update(s, i, c, m);
    var v, v' := View(s, j), View(s', j);
    assert ProcOk(v, s.procs[j].area);
    forall p | 0 <= p < MAX_PGN
      ensures PageOf(v'.pt[p], v'.ram, v'.swap) == PageOf(v.pt[p], v.ram, v.swap)
    {
      OthersAreForeign(s, i, j, p);
    }
    OwnKeptBytes(v, v', s.procs[j].area.vmEnd);
  }

  /** Whatever lawful thing one process does, the system invariant holds afterwards and no other process can tell. */
  lemma Lift(s: System, i: int, c: Ctx, m: Area)
    requires SysOk(s) && 0 <= i < |s.procs| && Lawful(View(s, i), c) && ProcOk(c, m)
    ensures SysOk(Update(s, i, c, m))
    ensures forall j :: 0 <= j < |s.procs| && j != i ==> SameBytes(s, Update(s, i, c, m), j)
  {
    var s' := Update(s, i, c, m);
    LiftOwners(s, i, c, m);
    forall j | 0 <= j < |s.procs|
      ensures ProcOk(View(s', j), s'.procs[j].area) && (j != i ==> SameBytes(s, s', j))
    {
      if j == i {
        assert View(s', i) == c;
      } else {
        LiftOther(s, i, c, m, j);
      }
    }
  }

  /** Distinct bytes, of one process or of two, have distinct physical addresses inside RAM. */
  lemma TranslationInjective(s: System, i: int, a: int, j: int, b: int)
    requires SysOk(s) && 0 <= i < |s.procs| && 0 <= j < |s.procs| && (i != j || a != b)
    requires 0 <= a < MAX_PGN * PAGESZ && s.procs[i].pt[a / PAGESZ].Resident?
    requires 0 <= b < MAX_PGN * PAGESZ && s.procs[j].pt[b / PAGESZ].Resident?
    ensures var pa := s.procs[i].pt[a / PAGESZ].fpn * PAGESZ + a % PAGESZ;
      var pb := s.procs[j].pt[b / PAGESZ].fpn * PAGESZ + b % PAGESZ;
      pa != pb && 0 <= pa < |s.ram.frames| * PAGESZ
  {
    var p, q := a / PAGESZ, b / PAGESZ;
    assert ProcOk(View(s, i), s.procs[i].area);
    assert EntryOk(View(s, i).pt[p], s.ram, s.swap);
    if i == j {
      ViewExclusive(s, i);
      if p != q {
        OwnDistinct(View(s, i), p, q);
      }
    } else {
      OthersAreForeign(s, i, j, q);
      assert s.procs[i].pt[p] in s.procs[i].pt;
    }
  }

  /** What a store to a swapped-out page does under the as-written test: the byte goes to whatever page of whatever
      process holds the frame its FPN field happens to name, and to no other page, in particular not to its own. */
  lemma StrayStore(s: System, i: int, a: int, v: Byte, j: int, b: int)
    requires SysOk(s) && 0 <= i < |s.procs| && 0 <= j < |s.procs|
    requires 0 <= a < MAX_PGN * PAGESZ && 0 <= b < MAX_PGN * PAGESZ
    requires s.procs[i].pt[a / PAGESZ].Swapped? && FrameField(s.procs[i].pt[a / PAGESZ]) < |s.ram.frames|
    ensures Exclusive(View(s, i))
    ensures var f := FrameField(s.procs[i].pt[a / PAGESZ]);
      var s' := Update(s, i, SetVal(View(s, i), a, v, AsWritten).0, s.procs[i].area);
      |s'.procs[j].pt| == MAX_PGN
      && ByteAt(View(s', j), b) == if s.procs[j].pt[b / PAGESZ] == Resident(f) && b % PAGESZ == a % PAGESZ then Some(v)
                                  else ByteAt(View(s, j), b)
  {
    ViewExclusive(s, i);
    assert ProcOk(View(s, i), s.procs[i].area) && ProcOk(View(s, j), s.procs[j].area);
  }

  // ---------------------------------------------------------------------------------------------------------
  // Booting and operations
  // ---------------------------------------------------------------------------------------------------------

  function Boot(ramFrames: nat, swapFrames: nat): (s: System)
    ensures SysOk(s)
  {
    FormattedOk(ramFrames);
    FormattedOk(swapFrames);
    System(Formatted(ramFrames), Formatted(swapFrames), [])
  }

  /** `init_mm`. */
  function NewMm(): Mm {
    Mm(seq(MAX_PGN, _ => Unmapped), [], InitArea())
  }

  datatype Op =
    | Spawn
    | Alloc(proc: int, rgid: int, size: int)
    | Free(proc: int, rgid: int)
    | Read(proc: int, rgid: int, off: int)
    | Write(proc: int, rgid: int, off: int, value: Byte)

  /** What an operation answers: nothing, a return code, an address, or the outcome of an access. */
  datatype Answer = Started | Freed(ok: bool) | At(addr: Option<int>) | Data(value: Option<Byte>) | Stored(done: bool)

  /** What callers of the memory owe it: each region id is allocated when not live and freed once, accesses stay
      inside a live region, the area stays within the 22-bit address space, and `Accessible`. Under `AsWritten` an
      allocation must moreover keep `find_victim_page` away from one-element lists, where the code faults; under
      `Residency` that function is taken as repaired. */
  predicate Disciplined(s: System, op: Op, g: Guard) {
    op.Spawn? ||
    (0 <= op.proc < |s.procs| &&
     var c, m := View(s, op.proc), s.procs[op.proc].area;
     match op
     case Alloc(_, rgid, size) => AllocReady(c, m, rgid, size) && (0 <= rgid < MAX_SYMTBL ==> rgid !in m.live)
       && (g.AsWritten? ==> !WalksOffList(c, m, rgid, size))
     case Free(_, rgid) => |m.sym| == MAX_SYMTBL && rgid != MAX_SYMTBL
       && (0 <= rgid < MAX_SYMTBL ==> rgid in m.live || Empty(m.sym[rgid]))
     case Read(_, rgid, off) => InRegion(m, rgid, off) && Accessible(c, Address(m, rgid, off) / PAGESZ, g)
     case Write(_, rgid, off, _) => InRegion(m, rgid, off) && Accessible(c, Address(m, rgid, off) / PAGESZ, g))
  }

  /** The address a read or write is about. */
  function Touched(s: System, op: Op): int
    requires (op.Read? || op.Write?) && 0 <= op.proc < |s.procs|
    requires InRegion(s.procs[op.proc].area, op.rgid, op.off)
  {
    Address(s.procs[op.proc].area, op.rgid, op.off)
  }

  lemma TouchedMapped(s: System, op: Op, g: Guard)
    requires SysOk(s) && Disciplined(s, op, g) && (op.Read? || op.Write?)
    ensures 0 <= Touched(s, op) < s.procs[op.proc].area.vmEnd <= |View(s, op.proc).pt| * PAGESZ
    ensures Exclusive(View(s, op.proc))
  {
    AddressMapped(View(s, op.proc), s.procs[op.proc].area, op.rgid, op.off);
    ViewExclusive(s, op.proc);
  }

  function Exec(s: System, op: Op, g: Guard): (System, Answer)
    requires SysOk(s) && Disciplined(s, op, g)
  {
    match op
    case Spawn => (s.(procs := s.procs + [NewMm()]), Started)
    case Alloc(i, rgid, size) =>
      var r := Allocation.Alloc(View(s, i), s.procs[i].area, rgid, size);
      (Update(s, i, r.c, r.m), At(r.addr))
    case Free(i, rgid) =>
      var (m, ok) := Allocation.Free(s.procs[i].area, rgid);
      (Update(s, i, View(s, i), m), Freed(ok))
    case Read(i, rgid, off) =>
      TouchedMapped(s, op, g);
      var (c, d) := GetVal(View(s, i), Touched(s, op), g);
      (Update(s, i, c, s.procs[i].area), Data(d))
    case Write(i, rgid, off, v) =>
      TouchedMapped(s, op, g);
      var (c, done) := SetVal(View(s, i), Touched(s, op), v, g);
      (Update(s, i, c, s.procs[i].area), Stored(done))
  }

  // ---------------------------------------------------------------------------------------------------------
  // One operation against the flat memory
  // ---------------------------------------------------------------------------------------------------------

  /** One byte map per process: the addresses the process has written, with what it wrote last. */
  type Flat = seq<map<int, Byte>>

  function FlatExec(fl: Flat, s: System, op: Op, answer: Answer): Flat
    requires |fl| == |s.procs|
    requires op.Write? ==> 0 <= op.proc < |s.procs| && InRegion(s.procs[op.proc].area, op.rgid, op.off)
  {
    match op
    case Spawn => fl + [map[]]
    case Write(i, _, _, v) =>
      if answer == Stored(true) then
        var bytes: map<int, Byte> := fl[i][Touched(s, op) := v];
        fl[i := bytes]
      else fl
    case _ => fl
  }

  /** What the flat memory knows, the paged memory says. */
  ghost predicate Agrees(s: System, fl: Flat) {
    |fl| == |s.procs| && forall i :: 0 <= i < |fl| ==> AgreesOn(View(s, i), s.procs[i].area, fl[i])
  }

  ghost predicate AgreesOn(c: Ctx, m: Area, bytes: map<int, Byte>) {
    forall a :: a in bytes ==> 0 <= a < m.vmEnd && a < |c.pt| * PAGESZ && ByteAt(c, a) == Some(bytes[a])
  }

  /** The law every operation meets: the invariant holds again, and the flat memory still agrees. */
  ghost predicate StepLaw(s: System, op: Op, g: Guard, fl: Flat)
    requires SysOk(s) && Disciplined(s, op, g) && Agrees(s, fl)
  {
    var (s', answer) := Exec(s, op, g);
    SysOk(s') && SameDevices(s, s') && Agrees(s', FlatExec(fl, s, op, answer))
  }

  predicate SameDevices(s: System, s': System) {
    |s'.ram.frames| == |s.ram.frames| && |s'.swap.frames| == |s.swap.frames|
  }

  /** An operation of process `i` that keeps its own bytes keeps agreement for everybody. */
  lemma LiftAgrees(s: System, i: int, c: Ctx, m: Area, fl: Flat, bytes: map<int, Byte>)
    requires SysOk(s) && Agrees(s, fl) && 0 <= i < |s.procs| && Lawful(View(s, i), c) && ProcOk(c, m)
    requires AgreesOn(c, m, bytes)
    ensures SysOk(Update(s, i, c, m)) && SameDevices(s, Update(s, i, c, m))
    ensures Agrees(Update(s, i, c, m), fl[i := bytes])
  {
    var s' := Update(s, i, c, m);
    Lift(s, i, c, m);
    forall j | 0 <= j < |fl| ensures AgreesOn(View(s', j), s'.procs[j].area, fl[i := bytes][j]) {
      if j == i {
        assert View(s', i) == c;
      } else {
        assert SameBytes(s, s', j);
      }
    }
  }

  lemma SpawnLaw(s: System, g: Guard, fl: Flat)
    requires SysOk(s) && Agrees(s, fl)
    ensures StepLaw(s, Spawn, g, fl)
  {
    var s' := Exec(s, Spawn, g).0;
    forall x ensures RamOwners(s', x) == RamOwners(s, x) && SwapOwners(s', x) == SwapOwners(s, x) {
      HoldersAppend(s.procs, NewMm(), Resident(x));
      HoldersAppend(s.procs, NewMm(), Swapped(x));
    }
    InitAreaTiled();
    forall i | 0 <= i < |s'.procs| ensures ProcOk(View(s', i), s'.procs[i].area) {
      if i < |s.procs| {
        assert View(s', i) == View(s, i);
      } else {
        DevicesOk(s);
      }
    }
    forall i | 0 <= i < |s.procs| ensures AgreesOn(View(s', i), s'.procs[i].area, fl[i]) {
      assert View(s', i) == View(s, i);
    }
  }

  lemma DevicesOk(s: System)
    requires RamConserved(s) && SwapExclusive(s)
    ensures DeviceOk(s.ram) && DeviceOk(s.swap)
  {
    forall k | 0 <= k < |s.ram.free| ensures 0 <= s.ram.free[k] < |s.ram.frames| {
      assert s.ram.free[k] in s.ram.free;
      assert RamOwners(s, s.ram.free[k]) >= 1;
    }
    forall k | 0 <= k < |s.swap.free| ensures 0 <= s.swap.free[k] < |s.swap.frames| {
      assert s.swap.free[k] in s.swap.free;
      assert SwapOwners(s, s.swap.free[k]) >= 1;
    }
  }

  lemma ReadLifts(s: System, op: Op, g: Guard, fl: Flat)
    requires SysOk(s) && Agrees(s, fl) && op.Read? && Disciplined(s, op, g)
    ensures StepLaw(s, op, g, fl)
  {
    var i := op.proc;
    var c, m := View(s, i), s.procs[i].area;
    TouchedMapped(s, op, g);
    assert ProcOk(c, m);
    GetValLaw(c, m, Touched(s, op), g);
    var c' := GetVal(c, Touched(s, op), g).0;
    LiftAgrees(s, i, c', m, fl, fl[i]);
    assert fl[i := fl[i]] == fl;
  }

  lemma WriteLifts(s: System, op: Op, g: Guard, fl: Flat)
    requires SysOk(s) && Agrees(s, fl) && op.Write? && Disciplined(s, op, g)
    ensures StepLaw(s, op, g, fl)
  {
    var i, a := op.proc, Touched(s, op);
    var c, m := View(s, i), s.procs[i].area;
    TouchedMapped(s, op, g);
    assert ProcOk(c, m);
    SetValLaw(c, m, a, op.value, g);
    var (c', done) := SetVal(c, a, op.value, g);
    var bytes: map<int, Byte> := if done then fl[i][a := op.value] else fl[i];
    forall b | b in bytes ensures 0 <= b < m.vmEnd && ByteAt(c', b) == Some(bytes[b]) {
      assert b != a ==> ByteAt(c, b) == Some(fl[i][b]);
    }
    LiftAgrees(s, i, c', m, fl, bytes);
    assert fl[i := fl[i]] == fl;
  }

  lemma StepRefines(s: System, op: Op, g: Guard, fl: Flat)
    requires SysOk(s) && Agrees(s, fl) && Disciplined(s, op, g)
    ensures StepLaw(s, op, g, fl)
  {
    match op
    case Spawn => SpawnLaw(s, g, fl);
    case Alloc(i, rgid, size) =>
      var c, m := View(s, i), s.procs[i].area;
      var r := Allocation.Alloc(c, m, rgid, size);
      ViewExclusive(s, i);
      AllocIsLawful(c, m, rgid, size);
      LiftAgrees(s, i, r.c, r.m, fl, fl[i]);
      assert fl[i := fl[i]] == fl;
    case Free(i, rgid) =>
      var c, m := View(s, i), s.procs[i].area;
      var m' := Allocation.Free(m, rgid).0;
      assert ProcOk(c, m);
      FreeLaw(c, m, rgid);
      LiftAgrees(s, i, c, m', fl, fl[i]);
      assert fl[i := fl[i]] == fl;
    case Read(_, _, _) => ReadLifts(s, op, g, fl);
    case Write(_, _, _, _) => WriteLifts(s, op, g, fl);
  }

  // ---------------------------------------------------------------------------------------------------------
  // What an operation does and answers
  // ---------------------------------------------------------------------------------------------------------

  /** No process but `i` changed. */
  predicate OnlyProc(s: System, s': System, i: int) {
    |s'.procs| == |s.procs| && forall j :: 0 <= j < |s.procs| && j != i ==> s'.procs[j] == s.procs[j]
  }

  /** A new process: nothing mapped, nothing tracked, no variable, one empty region in its free list, and all else as
      before. */
  predicate Spawned(s: System, s': System) {
    && s'.ram == s.ram && s'.swap == s.swap && |s'.procs| == |s.procs| + 1 && s'.procs[..|s.procs|] == s.procs
    && var mm := s'.procs[|s.procs|];
       && |mm.pt| == MAX_PGN && (forall p :: 0 <= p < MAX_PGN ==> mm.pt[p] == Unmapped)
       && mm.fifo == [] && mm.area.live == {} && mm.area.vmEnd == mm.area.sbrk == 0
       && mm.area.free == [Region(0, 0)] && |mm.area.sym| == MAX_SYMTBL
       && forall i :: 0 <= i < MAX_SYMTBL ==> mm.area.sym[i] == Region(0, 0)
  }

  /** A free is answered with true exactly for an id in range with a non-empty region. Then the id is not live and its
      bytes are free once more, its region first in the list; no entry of the table, page or device changes. */
  ghost predicate FreedAs(s: System, i: int, rgid: int, s': System, answer: Answer)
    requires 0 <= i < |s.procs| && |s.procs[i].area.sym| == MAX_SYMTBL && rgid != MAX_SYMTBL
  {
    var m := s.procs[i].area;
    var ok := 0 <= rgid < MAX_SYMTBL && m.sym[rgid].start < m.sym[rgid].end;
    && answer == Freed(ok) && OnlyProc(s, s', i) && View(s', i) == View(s, i)
    && var m' := s'.procs[i].area;
       && m'.sym == m.sym && m'.vmEnd == m.vmEnd
       && m'.live == (if ok then m.live - {rgid} else m.live)
       && m'.free == (if ok then [m.sym[rgid]] + m.free else m.free)
       && forall a :: Cover(m'.free, a) == Cover(m.free, a) + if ok then Has(m.sym[rgid], a) else 0
  }

  /** The new state and the answer of each operation, in terms of logical bytes, regions and lists. */
  ghost predicate Does(s: System, op: Op, g: Guard, s': System, answer: Answer)
    requires SysOk(s) && Disciplined(s, op, g)
  {
    if op.Spawn? then answer == Started && Spawned(s, s')
    else
      var i := op.proc;
      var c, m := View(s, i), s.procs[i].area;
      && OnlyProc(s, s', i)
      && var c', m' := View(s', i), s'.procs[i].area;
         match op
         case Alloc(_, rgid, size) => answer.At? && AllocLaw(c, m, rgid, size, Allocated(c', m', answer.addr))
         case Free(_, rgid) => FreedAs(s, i, rgid, s', answer)
         case Read(_, _, _) =>
           var a := Touched(s, op);
           && m' == m && BytesKept(c, c', m.vmEnd) && 0 <= a < |c.pt| * PAGESZ && Moves(c, a / PAGESZ, g, c')
           && answer == Data(if Served(c, a) then ByteAt(c, a) else None)
         case Write(_, _, _, v) =>
           var a := Touched(s, op);
           && m' == m && WriteLaw(c, c', m, a, v) && 0 <= a < |c.pt| * PAGESZ && Moves(c, a / PAGESZ, g, c')
           && answer == Stored(Served(c, a))
  }

  lemma AllocDoes(s: System, op: Op, g: Guard)
    requires SysOk(s) && op.Alloc? && Disciplined(s, op, g)
    ensures var (s', answer) := Exec(s, op, g); Does(s, op, g, s', answer)
  {
    var c, m := View(s, op.proc), s.procs[op.proc].area;
    assert ProcOk(c, m);
    ViewExclusive(s, op.proc);
    AllocIsLawful(c, m, op.rgid, op.size);
    var r := Allocation.Alloc(c, m, op.rgid, op.size);
    var s' := Exec(s, op, g).0;
    assert Allocated(View(s', op.proc), s'.procs[op.proc].area, r.addr) == r;
  }

  lemma ReadDoes(s: System, op: Op, g: Guard)
    requires SysOk(s) && op.Read? && Disciplined(s, op, g)
    ensures var (s', answer) := Exec(s, op, g); Does(s, op, g, s', answer)
  {
    var c, m := View(s, op.proc), s.procs[op.proc].area;
    assert ProcOk(c, m);
    TouchedMapped(s, op, g);
    var a := Touched(s, op);
    GetPageLaw(c, a / PAGESZ, g);
    GetValLaw(c, m, a, g);
    var s' := Exec(s, op, g).0;
    assert View(s', op.proc) == GetVal(c, a, g).0;
  }

  lemma WriteDoes(s: System, op: Op, g: Guard)
    requires SysOk(s) && op.Write? && Disciplined(s, op, g)
    ensures var (s', answer) := Exec(s, op, g); Does(s, op, g, s', answer)
  {
    var c, m := View(s, op.proc), s.procs[op.proc].area;
    assert ProcOk(c, m);
    TouchedMapped(s, op, g);
    var a := Touched(s, op);
    GetPageLaw(c, a / PAGESZ, g);
    SetValLaw(c, m, a, op.value, g);
    var s' := Exec(s, op, g).0;
    assert View(s', op.proc) == SetVal(c, a, op.value, g).0;
  }

  /** Every operation does exactly this. */
  lemma ExecDoes(s: System, op: Op, g: Guard)
    requires SysOk(s) && Disciplined(s, op, g)
    ensures var (s', answer) := Exec(s, op, g); Does(s, op, g, s', answer)
  {
    if op.Alloc? {
      AllocDoes(s, op, g);
    } else if op.Read? {
      ReadDoes(s, op, g);
    } else if op.Write? {
      WriteDoes(s, op, g);
    } else if op.Free? {
      assert ProcOk(View(s, op.proc), s.procs[op.proc].area);
      FreeLaw(View(s, op.proc), s.procs[op.proc].area, op.rgid);
    }
  }

  // ---------------------------------------------------------------------------------------------------------
  // Runs
  // ---------------------------------------------------------------------------------------------------------

  /** A flat memory that knows nothing. */
  function Unwritten(n: nat): Flat {
    seq(n, _ => map[])
  }

  lemma ExecOk(s: System, op: Op, g: Guard)
    requires SysOk(s) && Disciplined(s, op, g)
    ensures SysOk(Exec(s, op, g).0) && SameDevices(s, Exec(s, op, g).0)
  {
    StepRefines(s, op, g, Unwritten(|s.procs|));
  }

  /** A sequence of operations, by any processes in any order, each disciplined in the state it meets. */
  predicate Legal(s: System, ops: seq<Op>, g: Guard)
    requires SysOk(s)
    decreases |ops|
  {
    ops == [] ||
    (Disciplined(s, ops[0], g) && (ExecOk(s, ops[0], g); Legal(Exec(s, ops[0], g).0, ops[1..], g)))
  }

  function Final(s: System, ops: seq<Op>, g: Guard): (s': System)
    requires SysOk(s) && Legal(s, ops, g)
    ensures SysOk(s') && SameDevices(s, s')
    decreases |ops|
  {
    if ops == [] then s
    else
      ExecOk(s, ops[0], g);
      Final(Exec(s, ops[0], g).0, ops[1..], g)
  }

  /** The same operations on the flat memory: each process's last successful write to each address. */
  function Written(s: System, fl: Flat, ops: seq<Op>, g: Guard): (fl': Flat)
    requires SysOk(s) && Legal(s, ops, g) && |fl| == |s.procs|
    ensures |fl'| == |Final(s, ops, g).procs|
    decreases |ops|
  {
    if ops == [] then fl
    else
      ExecOk(s, ops[0], g);
      var (s', answer) := Exec(s, ops[0], g);
      Written(s', FlatExec(fl, s, ops[0], answer), ops[1..], g)
  }

  /** The paged memory refines a flat private memory over whole runs. With `Residency` this is swap transparency;
      with `AsWritten` it covers every run in which no swapped-out page is touched. */
  lemma {:induction false} RunRefinesFlat(s: System, fl: Flat, ops: seq<Op>, g: Guard)
    requires SysOk(s) && Agrees(s, fl) && Legal(s, ops, g)
    ensures Agrees(Final(s, ops, g), Written(s, fl, ops, g))
    decreases |ops|
  {
    if ops != [] {
      var (s', answer) := Exec(s, ops[0], g);
      StepRefines(s, ops[0], g, fl);
      RunRefinesFlat(s', FlatExec(fl, s, ops[0], answer), ops[1..], g);
    }
  }

  /** A legal run can be extended by any disciplined operation. */
  lemma {:induction false} Extend(s: System, fl: Flat, ops: seq<Op>, op: Op, g: Guard)
    requires SysOk(s) && Legal(s, ops, g) && |fl| == |s.procs| && Disciplined(Final(s, ops, g), op, g)
    ensures var t := Final(s, ops, g); var (t', answer) := Exec(t, op, g);
      && Legal(s, ops + [op], g) && Final(s, ops + [op], g) == t'
      && Written(s, fl, ops + [op], g) == FlatExec(Written(s, fl, ops, g), t, op, answer)
    decreases |ops|
  {
    if ops == [] {
      assert ops + [op] == [op] && [op][1..] == [];
      ExecOk(s, op, g);
    } else {
      var (s', answer) := Exec(s, ops[0], g);
      ExecOk(s, ops[0], g);
      assert (ops + [op])[1..] == ops[1..] + [op];
      Extend(s', FlatExec(fl, s, ops[0], answer), ops[1..], op, g);
    }
  }

  lemma ExtendLegal(s: System, ops: seq<Op>, op: Op, g: Guard)
    requires SysOk(s) && Legal(s, ops, g) && Disciplined(Final(s, ops, g), op, g)
    ensures Legal(s, ops + [op], g) && Final(s, ops + [op], g) == Exec(Final(s, ops, g), op, g).0
  {
    Extend(s, Unwritten(|s.procs|), ops, op, g);
  }

  /** A live variable of process `i` that holds some byte can be freed, and then as many bytes can be allocated under the
      same id; the address is the same, and so is the whole system. */
  lemma FreeThenSame(s: System, g: Guard, i: int, rgid: int)
    requires SysOk(s) && 0 <= i < |s.procs|
    requires var m := s.procs[i].area; rgid in m.live && m.sym[rgid].start < m.sym[rgid].end
    ensures var rg := s.procs[i].area.sym[rgid];
      && Disciplined(s, Op.Free(i, rgid), g)
      && var (s1, freed) := Exec(s, Op.Free(i, rgid), g);
         && freed == Freed(true) && SysOk(s1) && Disciplined(s1, Op.Alloc(i, rgid, rg.end - rg.start), g)
         && Exec(s1, Op.Alloc(i, rgid, rg.end - rg.start), g) == (s, At(Some(rg.start)))
  {
    var c, m := View(s, i), s.procs[i].area;
    assert ProcOk(c, m);
    FreeThenAlloc(c, m, rgid);
    var s1 := Exec(s, Op.Free(i, rgid), g).0;
    ExecOk(s, Op.Free(i, rgid), g);
    assert View(s1, i) == c && s.procs[i := s1.procs[i]][i := s.procs[i]] == s.procs;
  }

  /** This can be done at the end of any legal run. */
  lemma FreeAndAllocAgain(s0: System, ops: seq<Op>, g: Guard, i: int, rgid: int)
    requires SysOk(s0) && Legal(s0, ops, g) && 0 <= i < |Final(s0, ops, g).procs|
    requires var m := Final(s0, ops, g).procs[i].area; rgid in m.live && m.sym[rgid].start < m.sym[rgid].end
    ensures var s := Final(s0, ops, g); var rg := s.procs[i].area.sym[rgid];
      var more := ops + [Op.Free(i, rgid)] + [Op.Alloc(i, rgid, rg.end - rg.start)];
      Legal(s0, more, g) && Final(s0, more, g) == s
  {
    var s := Final(s0, ops, g);
    var rg, free := s.procs[i].area.sym[rgid], Op.Free(i, rgid);
    FreeThenSame(s, g, i, rgid);
    ExtendLegal(s0, ops, free, g);
    ExtendLegal(s0, ops + [free], Op.Alloc(i, rgid, rg.end - rg.start), g);
  }

  lemma {:induction false} SomeHolder(procs: seq<Mm>, e: Entry) returns (i: int, p: int)
    requires Holders(procs, e) > 0
    ensures 0 <= i < |procs| && 0 <= p < |procs[i].pt| && procs[i].pt[p] == e
  {
    if e in procs[0].pt {
      i := 0;
      p :| 0 <= p < |procs[0].pt| && procs[0].pt[p] == e;
    } else {
      i, p := SomeHolder(procs[1..], e);
      i := i + 1;
    }
  }

  predicate HeldBy(s: System, i: int, p: int, f: int) {
    0 <= i < |s.procs| && 0 <= p < |s.procs[i].pt| && s.procs[i].pt[p] == Resident(f)
  }

  /** Frame conservation over every run from boot: a frame that is not free is under exactly one page of exactly one
      process, a free one is under none and is on the free list once. */
  lemma FramesConserved(ramFrames: nat, swapFrames: nat, ops: seq<Op>, g: Guard, f: int) returns (i: int, p: int)
    requires Legal(Boot(ramFrames, swapFrames), ops, g) && 0 <= f < ramFrames
    ensures var s := Final(Boot(ramFrames, swapFrames), ops, g);
      && |s.ram.frames| == ramFrames
      && (f in s.ram.free ==> Occ(s.ram.free, f) == 1 && forall j, q :: !HeldBy(s, j, q, f))
      && (f !in s.ram.free ==> HeldBy(s, i, p, f) && forall j, q :: HeldBy(s, j, q, f) ==> j == i && q == p)
  {
    var s := Final(Boot(ramFrames, swapFrames), ops, g);
    i, p := 0, 0;
    assert RamOwners(s, f) == 1;
    if f !in s.ram.free {
      i, p := SomeHolder(s.procs, Resident(f));
    }
    forall j, q | HeldBy(s, j, q, f) ensures f !in s.ram.free && j == i && q == p {
      assert Resident(f) in s.procs[j].pt;
      HoldersAtLeast(s.procs, j, i, Resident(f));
      if j == i && q != p {
        OccTwice(s.procs[j].pt, if p < q then p else q, if p < q then q else p);
      }
    }
  }

  /** Swap frames over every run from boot: two swapped-out pages, of one process or of two, never share a frame, and
      the frame of a swapped-out page exists and is not free. */
  lemma SwapFramesDistinct(ramFrames: nat, swapFrames: nat, ops: seq<Op>, g: Guard, i: int, p: int, j: int, q: int)
    requires Legal(Boot(ramFrames, swapFrames), ops, g)
    requires var procs := Final(Boot(ramFrames, swapFrames), ops, g).procs;
      && 0 <= i < |procs| && 0 <= p < |procs[i].pt| && procs[i].pt[p].Swapped?
      && 0 <= j < |procs| && 0 <= q < |procs[j].pt| && procs[j].pt[q].Swapped?
    ensures var s := Final(Boot(ramFrames, swapFrames), ops, g); var off := s.procs[i].pt[p].off;
      && 0 <= off < swapFrames && off !in s.swap.free
      && (s.procs[j].pt[q].off == off ==> i == j && p == q)
  {
    var s := Final(Boot(ramFrames, swapFrames), ops, g);
    var e := s.procs[i].pt[p];
    assert e in s.procs[i].pt && SwapOwners(s, e.off) <= if 0 <= e.off < |s.swap.frames| then 1 else 0;
    HoldersAtLeast(s.procs, i, j, e);
    if s.procs[j].pt[q] == e && i == j && p != q {
      OccTwice(s.procs[i].pt, if p < q then p else q, if p < q then q else p);
    }
  }

  /** From boot, through any legal run: a read is served exactly when its page is resident or some page of the process
      can make room, and then it returns what its own process last wrote there. */
  lemma ReadReturnsLastWrite(ramFrames: nat, swapFrames: nat, ops: seq<Op>, op: Op, g: Guard)
    requires Legal(Boot(ramFrames, swapFrames), ops, g)
    requires op.Read? && Disciplined(Final(Boot(ramFrames, swapFrames), ops, g), op, g)
    ensures var s := Final(Boot(ramFrames, swapFrames), ops, g);
      var fl := Written(Boot(ramFrames, swapFrames), [], ops, g);
      var a := Touched(s, op);
      var answer := Exec(s, op, g).1;
      && |fl| == |s.procs| && answer.Data?
      && 0 <= a < |s.procs[op.proc].pt| * PAGESZ
      && (answer.value.Some? <==> Served(View(s, op.proc), a))
      && (answer.value.Some? && a in fl[op.proc] ==> answer.value == Some(fl[op.proc][a]))
  {
    var s0 := Boot(ramFrames, swapFrames);
    RunRefinesFlat(s0, [], ops, g);
    var s := Final(s0, ops, g);
    var c, m := View(s, op.proc), s.procs[op.proc].area;
    TouchedMapped(s, op, g);
    assert ProcOk(c, m);
    GetValLaw(c, m, Touched(s, op), g);
    assert AgreesOn(c, m, Written(s0, [], ops, g)[op.proc]);
  }
}
