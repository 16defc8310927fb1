# ossim_sierra: paged memory, scheduler and shutdown protocol

A Dafny model of three parts of the operating-system simulator in `ossim_sierra`, with proofs about them:

* **Memory.** Each process has a page table of packed 32-bit entries, a FIFO list of its resident pages and a region
  allocator with a break; RAM and swap, with their free-frame lists, are shared by all processes. Reads and writes of
  bytes go through all of it.
* **Scheduler.** 140 FIFO queues with a credit each, a two-pass scan steered by the static flag `reset_slot`, and
  `killall`, which filters a queue while walking it.
* **Time slots and shutdown.** The timer's slot barrier, the CPU loops, and the loader, as one interleaved transition
  system: every lock-protected section, and every read or write of `done` and `finished`, is one step.

Code that updates objects in place is a class (`Memphy`, `PageTable`, `AddressSpace.Mm`, `Queue`, `Scheduler`) whose
methods have the loops of the C functions. Each is proved equal to, or against the law of, a value-level operation
(`Paging`, `Access`, `Regions`, `Allocation`, `Sched`), and the results about whole runs are proved on values.

## Main results

Memory, over every sequence of operations by any number of processes, from boot:

* `Memory.ReadReturnsLastWrite`, `Memory.RunRefinesFlat`: paged memory refines one private flat byte map per process.
  A byte keeps the last value its own process wrote, however often its page was evicted and brought back and whatever
  other processes did.
* `Memory.FramesConserved`: every RAM frame is free (once) or under exactly one page of one process; `Budget.SwapBudget`:
  free swap frames, swapped-out pages and swap-ins so far add up to the swap device, exactly.
* `Memory.ExecDoes`: the answer and the new state of every operation, in terms of bytes, regions, entries and lists;
  `Memory.FreeAndAllocAgain`: at the end of any run a free and an allocation of the same size restore the whole system.
* `Paging.AllocPagesLaw`, `Paging.AllocPagesGrantedIff`, `Paging.AllocFrames`, `Paging.EvictsOldestFirst`: allocation with
  eviction, and its rollback, leaves every page of every process unchanged in meaning; when it succeeds; which frames it
  gets, and what it evicts.
* `Fifo.VictimIsOldest`, `Fifo.TrackedIff`: the next victim is the tracked page that became resident first, by the page
  tables of the run; and exactly in which runs a resident page is off the list.
* `Regions.ClaimTiledIff`, `Regions.ReleaseTiledIff`, `Allocation.AllocIsLawful`: free and live regions tile the area,
  with the exact condition on the caller, and a complete description of `__alloc`.
* `Pte.LastWriteWins`, `Bits.NBitsIsLog2`, `Pte.SplitIsDivMod`: the bit-level codec.

Scheduler, over every sequence of dispatches, arrivals, put-backs, ends and kills:

* `Sched.ChooseIsWorkConserving`, `Sched.NoStarvation` with `Sched.StarvationBound`, `Sched.ProportionalShare`.
* `Homes.ListedIff`, `Homes.KillTakesOut`, `Killall.KillInQueue`, `Killall.KillAll`: exactly the processes that have arrived
  and have not ended or been killed are listed, and killing is an exact stable filter of every list.

Time slots, over every interleaving:

* `Shutdown.ShutdownSafety`, `Shutdown.NoDeadlock`, `Shutdown.Lockstep`, `Shutdown.FinishedIff`, `Barrier.TimerLeaves`.
* `Pace.ArrivalTimes`: programs are loaded in slots that the configuration alone determines; `Pace.OneInstructionPerSlot`,
  `Pace.PaceBound`: one instruction a slot for each CPU that finds something to run, and never more.
* `Placement.ProcessConservation`, `Placement.EveryProgramEnds`: every process is in one place, the credit charged is the
  instructions run, and when all threads have stopped every program has run to its end, in all runs in which each list a
  process joins has room; without room a process is lost (`Placement.StepGoodIff`).
* `Schedules.EveryScheduleSettles`, `Schedules.EveryProgramRuns`: every infinite interleaving, fair or not, comes to a point
  from which all threads have stopped or the CPUs spin with the loader gone. Either way, if the lists had room (as they do
  for ten programs or fewer), every program has been loaded, has run to its end and has been charged exactly its length.
* `Schedules.EveryScheduleStopsIff`, `Schedules.ScheduleStopsIff`: once the loader is gone, every infinite interleaving
  stops all threads exactly if the CPUs are not spinning already; and from the start, an interleaving stops all threads
  exactly if its loader does not end in a quiet system, with nothing to run and `finished` clear.

## Where the code does not do what it is meant to

Each failure has its exact condition and a run that shows it. The runs of `Failures` are legal runs from boot, each of a
few operations of one process on two frames of RAM.

* `pg_getpage` asks only for the PRESENT bit, which `pte_set_swap` leaves set, so a swapped-out page is never brought
  back. The parameter `Guard` of the access operations keeps the two readings apart: `AsWritten` is the code, `Residency`
  is PRESENT and not SWAPPED. They do the same exactly on pages that are not swapped out (`Access.GuardsAgreeIff`); on
  the others the FPN field names an unrelated frame, which the code reads (`Access.AsWrittenReadSoundIff`) and stores into,
  though it may be another process's (`Access.AsWrittenStoreStrays`, `Memory.StrayStore`). `Failures.AsWrittenLosesWrite`
  is a run after which it answers with the wrong byte.
* `find_victim_page` writes through a NULL pointer when the list has one element. An allocation gets there exactly under
  the condition of `Paging.MeetsOneElementIff`; `Failures.WalksOff` is a run up to such an allocation. Runs under
  `AsWritten` exclude it; under `Residency` the function is taken as repaired: the list becomes empty.
* A refused allocation can drop a page from the FIFO list that stays in its frame: exactly when there are more tracked
  pages than free swap frames and the request is larger than free RAM frames and free swap frames together
  (`Paging.AllocUntracksIff`; `Paging.RefusalTracking` says which page). No legal operation ever evicts that page again
  (`Fifo.StuckForEver`). `Failures.RefusalSticks` is a run under `AsWritten`.
* `__read` and `__write` return 0 even when no frame can be had for the page: exactly when the page is swapped out and the
  list is empty (`Allocation.GetValLaw`, `Allocation.SetValLaw`). This needs the intended test and the repaired
  `find_victim_page`, as the code as written always finds some frame (`Allocation.AsWrittenIsServed`).
  `Failures.ReadUnserved` is a run under `Residency`.
* A page brought back leaves its old swap frame to nobody: `Budget.SwapBudget` is the account of that, and
  `Failures.SwapFrameLost` a run, under `Residency`.
* `__free` leaves the table entry in place, so a second free of an id, or an allocation under a live id, breaks the
  tiling: `Regions.ReleaseTiledIff` and `Regions.ClaimTiledIff` give the condition, `Regions.DoubleFreeOverlaps` what comes
  of it, and `Failures.TilingBroken` a reachable state for both.
* CPUs are meant to stop once there is nothing left to run (`ossim_sierra/src/os.c:109-113`). An idle CPU waits for
  `finished`, which only a CPU that has just given up a process sets, so all CPUs may spin for ever:
  `Spin.SpinIsReachable`, and `Schedules.ScheduleStopsIff` for the exact condition. The same simulation can also stop:
  `Schedules.StopIsReachable`.

Every run theorem about the memory holds for both readings of the test; under `AsWritten` a run must touch no swapped-out
page and meet no one-element list.

## Conventions

Callers of the memory follow a discipline (`Memory.Disciplined`): an id is in range and not 30, allocated when not live
and freed once, sizes are not negative, the area stays within the 22-bit address space, offsets lie in a live region, and
a swap-in that finds a victim finds a free swap frame (the code does not look at that return code). The scheduler object
keeps its processes where their fields say (`WellPlaced`); a new process comes with its field clear. Dispatched processes
have an instruction left, priorities are below 140 and the time slot is at least 1.

## Model

| member | source | states |
|---|---|---|
| Bits.NBitsIsLog2 | ossim_sierra/include/bitops.h:30-35 | for every nonzero 32-bit word the nested conditionals give the position of the highest bit |
| Bits.GenMaskBits | ossim_sierra/include/bitops.h:27-28 | bit k is in the mask if and only if it lies between the two ends |
| Bits.GenMaskIsDifference | ossim_sierra/include/bitops.h:27-28 | the mask is 2^(h+1) - 2^l, without overflow at bit 31 |
| Pte.Masks | ossim_sierra/include/mm.h:32-94 | the values of all field masks and of the page-offset width that the macros expand to |
| Pte.DecodeSetFpn | ossim_sierra/src/mm.c:70-78 | for every old word and every frame below 2^13, the entry then says: resident in that frame |
| Pte.DecodeSetSwap | ossim_sierra/src/mm.c:54-63 | for every old word and every offset below 2^21, the entry then says: swapped to that offset |
| Pte.LastWriteWins | ossim_sierra/src/mm.c:48-78 | after any non-empty sequence of the two setters in any order the entry says what the last one was given |
| Pte.FpnFieldSetSwap | ossim_sierra/include/mm.h:32-51 | what the overlapping FPN field of a swapped-out entry reads: 32 times the swap offset, modulo the number of frames |
| Pte.SplitIsDivMod | ossim_sierra/include/mm.h:84-88 | page number and offset by bit fields are quotient and remainder by the page size on all 22-bit addresses |
| Pte.SplitJoin | ossim_sierra/include/mm.h:54-88 | splitting and joining an address are inverse, both ways |
| PageTable.PageTable.SetFpn | ossim_sierra/src/mm.c:70-78 | in place: exactly one entry of the table changes its meaning, to resident |
| PageTable.PageTable.SetSwap | ossim_sierra/src/mm.c:54-63 | in place: exactly one entry changes its meaning, to swapped on device 0 |
| PageTable.PageTable.IsPresent | ossim_sierra/include/mm.h:27 | the PRESENT bit is set for every mapped page, swapped out or not |
| PageTable.PageTable.GetFpn | ossim_sierra/include/mm.h:90 | the FPN field of a mapped page: its frame if resident, an unrelated number if swapped out |
| PageTable.PageTable.GetSwp | ossim_sierra/include/mm.h:52 | the swap offset of a swapped-out page |
| Memphy.Memphy.constructor | ossim_sierra/src/mm-memphy.c:195-211 | a fresh device is zeroed and has every frame free, in ascending order |
| Memphy.Memphy.Format | ossim_sierra/src/mm-memphy.c:115-141 | the list-building loop yields 0, 1, ..., n-1; refused when not one frame fits |
| Memphy.Memphy.GetFreefp | ossim_sierra/src/mm-memphy.c:143-159 | takes the head of the free list, or fails and changes nothing |
| Memphy.Memphy.PutFreefp | ossim_sierra/src/mm-memphy.c:179-190 | the frame becomes the head of the free list |
| Memphy.Memphy.ReadCell | ossim_sierra/src/mm-memphy.c:58-69 | cell of the byte array as byte of a page |
| Memphy.Memphy.WriteCell | ossim_sierra/src/mm-memphy.c:98-109 | one byte of one page changes, no other |
| Memphy.Memphy.CopyPageTo | ossim_sierra/src/mm.c:241-257 | after the cell-by-cell loop the target frame holds the source page, all other frames are untouched |
| Paging.FormattedOk | ossim_sierra/src/mm-memphy.c:115-141 | every frame of a fresh device is on the free list exactly once, in ascending order, and nothing else is; all bytes are zero |
| Paging.EvictKeeps | ossim_sierra/src/mm.c:174-178 | moving a victim to swap leaves the bytes of every page of every process as they were |
| Paging.AllocPagesLaw | ossim_sierra/src/mm.c:128-191 | on success and on the -3000 path: contents of all pages of all processes kept, RAM account of every frame kept (granted frames counted as held), swap accounts kept |
| Paging.AllocationKeepsMeaning | ossim_sierra/src/mm.c:128-191 | granted or refused, also after some pages were already swapped out: every page of the process and of every other one reads as before, and a refusal loses no frame |
| Paging.AllocPagesGrantedIff | ossim_sierra/src/mm.c:145-185 | k frames are granted if and only if k is at most the free frames plus the smaller of tracked pages and free swap frames |
| Paging.EvictsOldestFirst | ossim_sierra/src/mm.c:149-179 | a granted request evicts exactly as many pages as free frames were missing, the oldest tracked ones, the oldest to the first free swap frame and so on; no other entry changes |
| Paging.AllocFrames | ossim_sierra/src/mm.c:144-189 | which frames a request gets, by position: the free ones in list order, then those of the evicted pages from the oldest on, newest first in the result; and after a refusal the free list holds exactly these, in the order taken |
| Paging.MeetsOneElementIff | ossim_sierra/src/libmem.c:492-511 | a request for k frames calls `find_victim_page` on a list of one element if and only if the list is not empty, k reaches all free frames and all tracked pages, and swap has room for all of these but one |
| Paging.RefusalTracking | ossim_sierra/src/mm.c:162-172 | what a refused request leaves: the tracked pages beyond the free swap frames, less one that stays in its frame untracked; each of the others is in the swap frame of its turn |
| Paging.AllocUntracksIff | ossim_sierra/src/mm.c:162-172 | a request makes a tracked page untracked if and only if there are more tracked pages than free swap frames and it asks for more than all free RAM and swap frames |
| Paging.GiveBackLaw | ossim_sierra/src/mm.c:164-171 | the rollback loop returns every held frame to the account, and disturbs nothing else |
| Paging.NextFrameLaw | ossim_sierra/src/mm.c:149-179 | one turn of the loop moves one frame into the caller's hands and keeps all accounts and contents |
| Access.MapPagesLaw | ossim_sierra/src/mm.c:83-119 | mapping moves each granted frame from the caller's hands under one page |
| Access.MapPagesMaps | ossim_sierra/src/mm.c:106-116 | page k of the range gets frame k, no other entry changes, and the pages head the FIFO list, youngest first |
| Access.SwapInKeepsOwn | ossim_sierra/src/libmem.c:219-279 | evicting a victim and bringing a page back into its frame leaves the bytes of every page of the process as they were |
| Access.SwapInLawful | ossim_sierra/src/libmem.c:219-279 | a swap-in keeps the RAM account of every frame, gives no swap frame a second owner, and leaves every other process's pages alone |
| Access.SwapInCounts | ossim_sierra/src/libmem.c:225-278 | exactly the swap frame the page came from loses its owner, and it does not become free |
| Access.GetPageLaw | ossim_sierra/src/libmem.c:215-284 | under either test: a frame comes back unless the page must be brought in and there is no victim; contents and accounts are kept in every case; the frame holds the page if and only if the as-written test was not asked about a swapped-out page; a page brought in becomes the youngest of the list, in the frame of the oldest, which leaves the list for the first free swap frame, and no other entry changes |
| Access.GuardsAgreeIff | ossim_sierra/src/libmem.c:215-284 | with either test `pg_getpage` ends in the same state and with the same frame if and only if the page is not swapped out |
| Access.AsWrittenReadSoundIff | ossim_sierra/src/libmem.c:219-281 | reading a mapped page through its FPN field is right for all contents of RAM and swap if and only if the page is not swapped out |
| Access.AsWrittenStoreStrays | ossim_sierra/src/libmem.c:329-357 | a store to a swapped-out page, as written, leaves that page alone and changes the bytes of exactly those entries that are resident in frame 32 off mod 8192 |
| Failures.AsWrittenLosesWrite | ossim_sierra/src/libmem.c:215-321 | a run from boot that meets no one-element list: the process wrote 7 at address 0, and the read as written answers 9 |
| Allocation.AsWrittenIsServed | ossim_sierra/src/libmem.c:281-318 | on pages that are not swapped out a read as written always answers, with the logical byte, and changes nothing |
| Access.StoreLaw | ossim_sierra/src/libmem.c:339-352 | a store changes that byte of that page and no page of any process besides |
| Regions.InitAreaTiled | ossim_sierra/src/mm.c:264-291 | the area of a new process is tiled |
| Regions.GetFreeIsFirstFit | ossim_sierra/src/libmem.c:519-539 | fails if and only if every free region is too short; otherwise takes the first bytes of the first region that is long enough, which shrinks in its place, or is unlinked on an exact fit |
| Regions.GetFreeCover | ossim_sierra/src/libmem.c:523-537 | splitting and unlinking lose and duplicate no address |
| Regions.ClaimTiledIff | ossim_sierra/src/libmem.c:80-89 | allocating under an id keeps the tiling if and only if the id is not live with a non-empty region |
| Regions.ReleaseTiledIff | ossim_sierra/src/libmem.c:134-161 | freeing an id keeps the tiling if and only if it is live or its entry is empty |
| Regions.DoubleFreeOverlaps | ossim_sierra/src/libmem.c:134-161 | a second free in a row of a live, non-empty id breaks the tiling, and two allocations of its size then get the same bytes |
| Regions.GrowTiled | ossim_sierra/src/mm-vm.c:127-129 | growth extends the tiling by exactly the new pages |
| Regions.GrowThenFit | ossim_sierra/src/libmem.c:111-120 | after growth the retry in `__alloc` cannot fail and returns the old end of the area |
| Regions.LiveRegionsDisjoint | ossim_sierra/src/libmem.c:69-161 | live variables lie below the break and never overlap |
| Allocation.IncVmaLimitLaw | ossim_sierra/src/mm-vm.c:98-132 | grows if and only if the request is not empty, fits RAM and enough frames can be had; then every page below the new break is mapped; on failure the area is unchanged; all bytes and other processes are kept either way |
| Allocation.GrowthExactly | ossim_sierra/src/mm.c:78-226 | which frame each new page gets, in which order the new pages join the list, which pages went to which swap frames to make room, and what a refused growth leaves of both lists |
| Allocation.AllocIsLawful | ossim_sierra/src/libmem.c:69-125 | when `__alloc` succeeds, what address it returns and what becomes of the free list, in the first-fit case and after growth, that a failure leaves free list, symbol table and break unchanged, and that no byte of any process changes |
| Allocation.FreeLaw | ossim_sierra/src/libmem.c:134-161 | a free succeeds exactly for an id in range with a non-empty region; then exactly its bytes are free besides those that were, and the id is not live; otherwise nothing changes; the tiling survives if and only if the id was live or the call was refused |
| Allocation.FreeThenAlloc | ossim_sierra/src/libmem.c:69-161 | round trip: allocating what was just freed, under the same id, returns the same address and restores the area exactly |
| Allocation.GetValLaw | ossim_sierra/src/libmem.c:292-321 | every byte and account is kept; under the intended test data is returned if and only if the page is resident or there is a victim, as written always; it is the logical byte unless the code as written was asked about a swapped-out page |
| Allocation.SetValLaw | ossim_sierra/src/libmem.c:329-357 | the byte changes if and only if the page is resident or there is a victim, and no other byte does |
| AddressSpace.Mm.constructor | ossim_sierra/src/mm.c:264-291 | a new process maps nothing, tracks nothing and owns an empty area |
| AddressSpace.Mm.FindVictimPage | ossim_sierra/src/libmem.c:492-511 | the walk unlinks the last page of the list and returns it; a one-element list becomes empty |
| AddressSpace.Mm.EnlistPgn | ossim_sierra/src/mm.c:312-321 | the page heads the list |
| AddressSpace.Mm.GiveBackFrames | ossim_sierra/src/mm.c:164-171 | the rollback loop puts the frames back, newest first |
| AddressSpace.Mm.ObtainFrame | ossim_sierra/src/mm.c:149-179 | a free frame, or else the victim's after its bytes went to swap; with no swap frame left the victim is untracked |
| AddressSpace.Mm.AllocPagesRange | ossim_sierra/src/mm.c:128-191 | the loop computes `AllocPages`, whose law is `Paging.AllocPagesLaw`; when it returns 0, -1 and -3000 |
| AddressSpace.Mm.VmapPageRange | ossim_sierra/src/mm.c:83-119 | the loop over table, frame list and FIFO list computes `MapPages` |
| AddressSpace.Mm.VmMapRam | ossim_sierra/src/mm.c:202-233 | both error codes of the allocation end in failure with nothing mapped; otherwise all pages are mapped |
| AddressSpace.Mm.GetFreeVmrgArea | ossim_sierra/src/libmem.c:519-539 | the pointer walk computes the first-fit function, in place |
| AddressSpace.Mm.IncVmaLimit | ossim_sierra/src/mm-vm.c:98-132 | process and devices afterwards are those of the law `Allocation.IncVmaLimitLaw` |
| AddressSpace.Mm.Alloc | ossim_sierra/src/libmem.c:69-125 | result, process and devices afterwards are those of the law `Allocation.AllocIsLawful` |
| AddressSpace.Mm.Free | ossim_sierra/src/libmem.c:134-161 | result and area afterwards; -1 for an id out of range or an empty entry |
| AddressSpace.Mm.GetPage | ossim_sierra/src/libmem.c:215-284 | frame, page table, FIFO list and both devices afterwards, under either reading of the test and for swapped-out pages too |
| AddressSpace.Mm.GetVal | ossim_sierra/src/libmem.c:292-321 | refines the read of `Allocation.GetValLaw` |
| AddressSpace.Mm.SetVal | ossim_sierra/src/libmem.c:329-357 | refines the write of `Allocation.SetValLaw` |
| AddressSpace.Mm.Read | ossim_sierra/src/libmem.c:367-378 | returns -1 only for a bad id; a served read returns the logical byte and keeps every byte of everybody |
| AddressSpace.Mm.Write | ossim_sierra/src/libmem.c:421-432 | returns -1 only for a bad id; a served write changes that byte only; an unserved one changes none and still returns 0 |
| Memory.TranslationInjective | ossim_sierra/src/libmem.c:292-357 | distinct resident bytes, of one process or of two, have distinct physical addresses inside RAM |
| Memory.StrayStore | ossim_sierra/src/libmem.c:329-357 | over all processes: a store to a swapped-out page, as written, changes exactly the byte at that offset of whatever page of whatever process holds the frame named by the FPN field |
| Memory.Lift | ossim_sierra/src/mm.c:128-191 | whatever one process lawfully does, the system invariant holds again and no other process can tell |
| Memory.StepRefines | ossim_sierra/src/libmem.c:69-432 | every operation of any process keeps the system invariant and the agreement with the flat memory |
| Memory.ExecDoes | ossim_sierra/src/libmem.c:69-432 | the answer and the whole new state of every operation: address and region of an allocation, what a free puts on the free list and when it is refused, when an access is served and with which byte, which entries and lists change; nothing of any other process does |
| Memory.FreeThenSame | ossim_sierra/src/libmem.c:69-161 | a live variable with some byte can be freed and allocated again under its id: the same address, and the same system |
| Memory.FreeAndAllocAgain | ossim_sierra/src/libmem.c:69-161 | this can be done at the end of any legal run |
| Memory.RunRefinesFlat | ossim_sierra/src/libmem.c:69-432 | over every legal run the paged memory agrees with one flat byte map per process |
| Memory.ReadReturnsLastWrite | ossim_sierra/src/libmem.c:292-378 | from boot through any legal run, a read is served exactly when the page is resident or can be made so, and returns the last byte its own process wrote there |
| Memory.FramesConserved | ossim_sierra/src/mm.c:144-190 | from boot through any legal run, a RAM frame is on the free list once and under no page, or off it and under exactly one page of one process |
| Memory.SwapFramesDistinct | ossim_sierra/src/mm.c:162-177 | from boot through any legal run, no two swapped-out pages of any processes share a swap frame, and none of these frames is free |
| Budget.StepUsable | ossim_sierra/src/libmem.c:215-284 | every operation keeps free swap frames plus swapped-out pages, except that one that brings a page back costs one |
| Budget.SwapBudget | ossim_sierra/src/libmem.c:225-278 | over every legal run free swap frames, swapped-out pages and swap-ins add up to the device |
| Failures.SwapFrameLost | ossim_sierra/src/libmem.c:225-278 | a run from boot with a swap-in, after which swap frame 0 is neither free nor under any page |
| Fifo.StepFollows | ossim_sierra/src/mm.c:312-321 | every operation of any process takes pages from a FIFO list at its old end, and adds at its young end only pages that were not resident before |
| Fifo.VictimIsOldest | ossim_sierra/src/libmem.c:492-511 | from boot through any legal run, the next victim became resident no later than any other tracked page, by the page tables along the run; the list tracks only resident pages, each once |
| Fifo.ArrivalsKnown | ossim_sierra/src/mm.c:70-78 | arrival times are recorded for exactly the resident pages |
| Fifo.StuckForEver | ossim_sierra/src/mm.c:162-172 | a resident page that is not on the list keeps its frame and stays off the list under every legal run |
| Fifo.StepLooseIff | ossim_sierra/src/mm.c:162-172 | an operation leaves a process with a resident page off its list if and only if it had one before, or the operation is a refused allocation with more tracked pages than free swap frames |
| Fifo.TrackedIff | ossim_sierra/src/libmem.c:215-284 | from boot through any legal run, all resident pages of a process are on its list if and only if none of its allocations was refused that way |
| Failures.WalksOff | ossim_sierra/src/libmem.c:492-511 | a legal run from boot of the code as written, after which a legitimate allocation of two pages calls `find_victim_page` on a list of one element |
| Failures.RefusalSticks | ossim_sierra/src/mm.c:162-172 | a run from boot after which page 0 is in such a state, and stays so |
| Failures.ReadUnserved | ossim_sierra/src/libmem.c:367-432 | a run from boot, with the intended test, after which a byte that was written can be neither read nor written |
| Failures.TilingBroken | ossim_sierra/src/libmem.c:69-161 | a run from boot after which a double free, and an allocation under a live id, break the tiling |
| Queue.Queue.IsEmpty | ossim_sierra/src/queue.c:5-8 | true if and only if nothing is queued |
| Queue.Queue.Enqueue | ossim_sierra/src/queue.c:10-18 | joins at the end; a full queue drops the process |
| Queue.Queue.Dequeue | ossim_sierra/src/queue.c:20-50 | takes the smallest priority value, the longest queued among equals, and keeps the order of the others |
| Queue.Queue.DequeueEqual | ossim_sierra/src/queue.c:20-50 | on a queue of one priority, which is what the scheduler uses, it is first in first out |
| Queue.Queue.RemoveProc | ossim_sierra/src/queue.c:52-63 | removes the first occurrence and keeps the order of the others |
| Sched.ChooseIsWorkConserving | ossim_sierra/src/sched.c:51-110 | nothing is returned if and only if all 140 queues are empty, and then credits are full and the flag clear; refill if and only if no waiting priority has credit; otherwise the lowest-numbered queue with a process and credit is served |
| Sched.StepLists | ossim_sierra/src/sched.c:128-156 | an arrival or a put-back comes last in the queue of its priority unless that is full, an ended process leaves the running list, a killed one its queue; no other list and no credit changes |
| Sched.QuantumIsLeast | ossim_sierra/src/sched.c:64-67 | the quantum is the least of the rest of the program, the credit and the time slot |
| Sched.GetMlqOk | ossim_sierra/src/sched.c:60-105 | every call keeps credits in range and the flag invariant: a clear flag means full credits |
| Sched.GetProgress | ossim_sierra/src/sched.c:60-105 | a dispatch of another process strictly lowers a waiting process's rank: position, then exhausted credit, then all credit |
| Sched.NoStarvation | ossim_sierra/src/sched.c:51-142 | in every run a waiting process leaves its queue before more dispatches than its rank have happened, whatever arrives, returns, ends or is killed meanwhile |
| Sched.StarvationBound | ossim_sierra/src/sched.c:51-142 | the bound in numbers: 2 (k + 1) 9871 dispatches from position k |
| Sched.RunBalanced | ossim_sierra/src/sched.c:60-99 | in every run, for every priority, credit left plus quanta granted since the last refill is the full share |
| Sched.ProportionalShare | ossim_sierra/src/sched.c:60-99 | from start-up, no priority is granted more than 140 - i between refills, and each non-empty one exactly that when a dispatch refills |
| Scheduler.Scheduler.constructor | ossim_sierra/src/sched.c:29-42 | all queues empty, all credits full, flag clear |
| Scheduler.Scheduler.TryQueue | ossim_sierra/src/sched.c:61-73 | no process exactly when the queue has no credit or is empty; else its head, with the quantum bounded by rest of program, credit and time slot, is charged |
| Scheduler.Scheduler.ScanOnce | ossim_sierra/src/sched.c:60-74 | the loop serves the first priority with credit and a process, or changes nothing |
| Scheduler.Scheduler.RefillCredits | ossim_sierra/src/sched.c:81-83 | all credits full, flag clear, nothing else changed |
| Scheduler.Scheduler.GetMlqProc | ossim_sierra/src/sched.c:51-110 | the two-pass scan over arrays and flag refines the policy that `Sched.ChooseIsWorkConserving` describes; NULL if and only if all queues are empty |
| Scheduler.PickedOk | ossim_sierra/src/sched.c:60-105 | a dispatch by the scheduler object keeps credits in range and the flag invariant |
| Scheduler.Scheduler.GetProc | ossim_sierra/src/sched.c:51-126 | moreover each process is again listed once, where its `running_list` and `prio` fields say, and the flag invariant holds again |
| Scheduler.Scheduler.AddProc | ossim_sierra/src/sched.c:118-156 | the process joins the queue of its priority only; a new one keeps the placement of all processes |
| Scheduler.Scheduler.PutProc | ossim_sierra/src/sched.c:128-142 | from the running list to the queue of its priority, its field cleared; the placement of all processes is kept |
| Scheduler.Scheduler.RemoveRunning | ossim_sierra/src/sched.c:238-248 | an ended process leaves the running list and nothing else changes; the placement is kept |
| Homes.StepHome | ossim_sierra/src/sched.c:51-156 | every step, kills included, keeps each process that is not out exactly in the list that its `running_list` and `prio` fields name, once |
| Homes.ListedAtHome | ossim_sierra/src/sys_killall.c:61-69 | in every run a process that has arrived is in the list its fields name, once, and in no other, unless it has ended, was killed or was dropped by a full list; `kill_in_queue` relies on that |
| Homes.ListedIff | ossim_sierra/src/sys_killall.c:47-76 | in every run in which the lists have room, a process is listed if and only if it has arrived and has not ended or been killed since |
| Homes.KillTakesOut | ossim_sierra/src/sys_killall.c:58-71 | in every run a kill leaves its process in no list and all others where they were |
| Killall.FindEnd | ossim_sierra/src/sys_killall.c:28 | the first loop stops at the end of the C string in the buffer |
| Killall.FindStart | ossim_sierra/src/sys_killall.c:29-30 | the backward loop stops at the start of the last component, also when there is no slash |
| Killall.Compare | ossim_sierra/src/sys_killall.c:32-42 | the comparing loop decides equality of the two terminated strings |
| Killall.CheckName | ossim_sierra/src/sys_killall.c:23-45 | true if and only if the name is the last component of the path |
| Killall.Sweep | ossim_sierra/src/sys_killall.c:47-76 | removal during traversal yields the filter of the original list, and ends exactly the programs of removed running processes |
| Killall.KillInQueue | ossim_sierra/src/sys_killall.c:47-76 | exactly the matching processes are gone, the others keep their order, the count is the number removed |
| Killall.KillReady | ossim_sierra/src/sys_killall.c:115-120 | on a ready queue of the scheduler: that queue is filtered, all other queues, credits, the running list and all programs are untouched |
| Killall.KillRunning | ossim_sierra/src/sys_killall.c:107-110 | on the running list: filtered, the programs of the killed ended, the queues untouched |
| Killall.KillAll | ossim_sierra/src/sys_killall.c:105-121 | from any placement the scheduler keeps: running list and all 140 queues are filtered by the name, exactly the killed running programs ended and no other touched, credits and placement kept, and the count is the number of processes removed |
| Barrier.ApplyOk | ossim_sierra/src/timer.c:21-93 | every step of timer or device keeps the slot invariant: a live device is in the current slot, or one behind inside `next_slot` |
| Barrier.Lockstep | ossim_sierra/src/timer.c:21-77 | no device works in a slot before every live one has finished the slot before |
| Barrier.TickMeansAllWait | ossim_sierra/src/timer.c:29-45 | when the clock advances every live device sits in `next_slot` of the current slot |
| Shutdown.ExitOnlyWhenStopped | ossim_sierra/src/timer.c:22-57 | in every interleaving the timer leaves its loop only after all CPUs and the loader have ended, and so only with everything loaded and nothing waiting |
| Barrier.NoDeadlock | ossim_sierra/src/timer.c:21-93 | while no device is at work, some released device or the timer can move |
| Barrier.TimerLeaves | ossim_sierra/src/timer.c:21-57 | once all devices are detached, after exactly how many of its steps the timer leaves its loop, told to stop or not |
| Attendance.StepSafe | ossim_sierra/src/os.c:79-180 | every step of CPUs, loader and timer keeps the invariant that a waiting process has a CPU bound to ask for it, or arrived in this slot |
| Shutdown.ShutdownSafety | ossim_sierra/src/os.c:79-180 | in every interleaving, when all threads have stopped every program was loaded, no process is in a ready queue and no CPU holds one |
| Shutdown.NoDeadlock | ossim_sierra/src/os.c:79-180 | in every reachable state some thread can move, unless all have ended |
| Shutdown.Lockstep | ossim_sierra/src/timer.c:61-77 | in every reachable state of the whole simulator CPUs and loader work in the current slot only |
| Shutdown.FinishedIff | ossim_sierra/src/os.c:81-113 | in every reachable state `finished` is set if and only if some CPU has left its loop |
| Pace.ArrivalTimes | ossim_sierra/src/os.c:156-175 | in every interleaving each program is loaded in the slot of its start time, or in the one after its predecessor's if that is later, and the clock has reached it |
| Pace.EveryProgramLoads | ossim_sierra/src/os.c:156-175 | every infinite interleaving loads every program, in its slot |
| Pace.OneInstructionPerSlot | ossim_sierra/src/os.c:79-138 | in every interleaving a CPU runs at most one instruction between two ticks |
| Pace.PaceBound | ossim_sierra/src/os.c:79-138 | in every interleaving all program counters together are at most the number of CPUs times the slots begun; a CPU has run one instruction in each turn it has had but those in which it found nothing; with room in the lists these instructions are all that was run |
| Pace.IdleMeansEmpty | ossim_sierra/src/os.c:81-121 | a CPU has a turn without an instruction if and only if it asks for a process while all queues are empty |
| Pace.RunIsCounted | ossim_sierra/src/os.c:129-131 | only a CPU that holds a process changes a program counter, by one instruction |
| Pace.DispatchIsCharged | ossim_sierra/src/sched.c:60-99 | a CPU that asks while something waits gets the head of the first queue with credit; its quantum, the least of the three bounds, is charged to the process and taken from the credit |
| Placement.GiveUpPlaced | ossim_sierra/src/os.c:93-106 | a process leaves a CPU only with `time_left` 0, and when it has ended it has been charged its whole length |
| Placement.StepGoodIff | ossim_sierra/src/queue.c:10-18 | a step keeps each process in one place, with its account balanced, if and only if the list that a process joins in it has room |
| Placement.ProcessConservation | ossim_sierra/src/queue.c:10-63 | in every interleaving in which each list a process joins has room, a live process is in exactly one list, never in a queue of another priority, and its quanta sum to its length at its end |
| Placement.FewLiveRoomy | ossim_sierra/src/queue.c:12-15 | an interleaving with at most 10 live processes at a time is such a one |
| Placement.FewProgramsRoomy | ossim_sierra/src/queue.c:12-15 | with at most 10 programs every interleaving is such a one |
| Placement.EveryProgramEnds | ossim_sierra/src/os.c:79-180 | in every such interleaving that ends with all threads stopped, every program has run to its end and has been charged exactly its length |
| Spin.SpinsForEver | ossim_sierra/src/os.c:81-92 | from a state with the loader gone, nothing to run and `finished` clear, no interleaving ever stops a CPU |
| Spin.SpinEnteredIff | ossim_sierra/src/os.c:79-180 | for every step of every thread: it starts the spinning if and only if it is the last one of a loader that leaves nothing waiting, all CPUs idle and `finished` clear; in particular none does once the loader is gone |
| Spin.SpinIsReachable | ossim_sierra/src/os.c:73-181 | one CPU and one program of one instruction have an interleaving that gets there |
| Stopping.BusyForward | ossim_sierra/src/os.c:79-141 | a CPU step that does something for a process, or ends the thread, lowers the lexicographic measure of instructions left, weighed processes and running threads |
| Stopping.IdleSlotSpins | ossim_sierra/src/os.c:81-92 | a whole slot in which every live CPU looked for a process in vain is one of a spinning simulator |
| Stopping.EveryStepForward | ossim_sierra/src/os.c:79-181 | whatever thread takes the next step, the measure falls, until all threads have stopped or the CPUs spin; while the loader lives every tick lowers the ticks it has to wait for |
| Schedules.EveryScheduleSettles | ossim_sierra/src/os.c:79-181 | every infinite interleaving from the start comes to a point from which all threads have ended, or the loader has and the CPUs spin |
| Schedules.EveryProgramRuns | ossim_sierra/src/os.c:79-181 | in every infinite interleaving with room in the lists, and so in every one of at most 10 programs, each program is loaded, runs to its end and is charged its length |
| Schedules.ScheduleStopsIff | ossim_sierra/src/os.c:79-181 | an infinite interleaving from the start stops every thread if and only if the last step of its loader does not leave a quiet system |
| Schedules.SomeSchedule | ossim_sierra/src/os.c:79-181 | from every state that the invariants allow there is an infinite interleaving, so that statements about all of them are not empty |
| Schedules.EveryScheduleStopsIff | ossim_sierra/src/os.c:79-181 | from a reachable state with the loader gone, every infinite interleaving stops every thread if and only if the state is not spinning |
| Schedules.StopIsReachable | ossim_sierra/src/os.c:73-181 | the simulation that can spin also has an interleaving that stops every thread |

## Left out

- Linked lists: free lists, FIFO lists and region lists are sequences in a field that methods reassign; node allocation, `free` and aliasing of nodes are not modelled (`vmap_page_range` reads a node after freeing it, without effect).
- AddressSpace.Mm.FindVictimPage: on a one-element list the code writes through a NULL pointer; the model leaves the list empty, as intended. `Paging.MeetsOneElementIff` says when an allocation gets there, and runs under `AsWritten` exclude it.
- AddressSpace.Mm.GetPage: the return code of the swap allocation is not looked at in the code, which goes on with an unset frame number; callers must see to a free swap frame when there is a victim (`Loadable`).
- Access.GetPageLaw: the same condition `Loadable`.
- Access.GuardsAgreeIff: the same condition.
- Access.AsWrittenStoreStrays: the frame number read from the entry must lie within RAM, as the code would write outside its storage.
- Memory.StrayStore: the same.
- Allocation.GetValLaw: the same condition, and a frame number taken from a swapped-out entry must lie within RAM, as the code would read outside its storage (`Touchable`).
- Allocation.SetValLaw: the same, and under the as-written test only for pages that are not swapped out; for the others see `Memory.StrayStore`.
- AddressSpace.Mm.GetVal: the condition `Touchable`.
- AddressSpace.Mm.SetVal: the condition `Touchable`.
- AddressSpace.Mm.Alloc: region id 30 passes the range test of the code but lies behind the table; callers must not use it.
- AddressSpace.Mm.Free: region id 30, likewise.
- AddressSpace.Mm.Read: region id 30, likewise; offsets must lie in a live region, which the code does not check.
- AddressSpace.Mm.Write: the same as for `Read`.
- Fields the code leaves unset (`rg_next`, the first `fp_next`, `pgd`, `vm_next`, `running_list`, `active_mswp_id`, and the region table `symrgtbl`, which `init_mm` does not touch) are taken as NULL, zero or empty; so freeing an id that was never allocated, which the model refuses, reads garbage in the code.
- More than one vm area and `OVERLAP`: only one area ever exists, so the overlap test is the emptiness test.
- The mapping of a read 0 byte to -1 in `libread`, printing, dumps, parsing of configuration and programs, system-call dispatch.
- `mem.c`, `paging.c`, sequential devices, `init_pte`, `free_pcb_memph`: obsolete or never called. Frames of ended processes stay theirs.
- How `__sys_killall` reads the name from memory; a kill is one atomic step, and the programs of `Simulator` do not kill each other.
- Killall.FindEnd: a path buffer without a terminator within its 100 bytes is not modelled, as the code would read behind it.
- Killall.CheckName: the same.
- Process lists with NULL entries.
- Concurrency of memory operations: each is one atomic step. CPUs, loader and timer are interleaved with sequentially consistent flags; what instructions do to memory is left out there.
- Placement.ProcessConservation: a run in which a process joins a full list is excluded, as it loses the process (`Placement.StepGoodIff`).
- Placement.EveryProgramEnds: the same.
- The scheduler variant without `MLQ_SCHED`.
