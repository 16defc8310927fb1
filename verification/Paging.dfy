/** Demand paging on values: what `alloc_pages_range`, `vmap_page_range` and `pg_getpage` do to the page table
    and FIFO list of one process and to the two devices it shares with every other process.

    A `Ctx` is the calling process's translation state next to RAM and swap. The logical contents of a page are
    read off its entry (`PageOf`), and every law below compares contents and frame counts before and after. */
module Paging {
  import opened Seqs
  import opened PageEntry

  type Byte = b: int | -128 <= b < 128
  type Page = p: seq<Byte> | |p| == PAGESZ witness seq(PAGESZ, _ => 0)

  datatype Device = Device(frames: seq<Page>, free: seq<int>)
  datatype Ctx = Ctx(pt: seq<Entry>, fifo: seq<int>, ram: Device, swap: Device)

  // ---------------------------------------------------------------------------------------------------------
  // Well-formedness
  // ---------------------------------------------------------------------------------------------------------

  predicate DeviceOk(d: Device) {
    forall k :: 0 <= k < |d.free| ==> 0 <= d.free[k] < |d.frames|
  }

  predicate EntryOk(e: Entry, ram: Device, swap: Device) {
    && (e.Resident? ==> 0 <= e.fpn < |ram.frames|)
    && (e.Swapped? ==> 0 <= e.off < |swap.frames|)
  }

  predicate Distinct(s: seq<int>) {
    forall i, j :: 0 <= i < j < |s| ==> s[i] != s[j]
  }

  /** The FIFO list tracks resident pages, each once. It need not track all of them: see `AllocPages`. */
  predicate FifoOk(fifo: seq<int>, pt: seq<Entry>) {
    && Distinct(fifo)
    && forall k :: 0 <= k < |fifo| ==> 0 <= fifo[k] < |pt| && pt[fifo[k]].Resident?
  }

  predicate CtxOk(c: Ctx) {
    && DeviceOk(c.ram) && DeviceOk(c.swap)
    && (forall p :: 0 <= p < |c.pt| ==> EntryOk(c.pt[p], c.ram, c.swap))
    && FifoOk(c.fifo, c.pt)
  }

  // ---------------------------------------------------------------------------------------------------------
  // Meaning and accounting
  // ---------------------------------------------------------------------------------------------------------

  /** The bytes an entry stands for: in RAM while resident, in swap once swapped out. */
  function PageOf(e: Entry, ram: Device, swap: Device): Option<Page> {
    if !EntryOk(e, ram, swap) then None
    else match e
      case Unmapped => None
      case Resident(f) => Some(ram.frames[f])
      case Swapped(s) => Some(swap.frames[s])
  }

  /** How often RAM frame `f` is accounted for here: on the free list or under a resident page. */
  function RamCount(c: Ctx, f: int): nat {
    Occ(c.ram.free, f) + Occ(c.pt, Resident(f))
  }

  function SwapCount(c: Ctx, s: int): nat {
    Occ(c.swap.free, s) + Occ(c.pt, Swapped(s))
  }

  /** No frame of either device is accounted for twice. */
  ghost predicate Exclusive(c: Ctx) {
    forall x: int :: RamCount(c, x) <= 1 && SwapCount(c, x) <= 1
  }

  /** An entry this process does not hold and whose frame is not free: a page of some other process. */
  predicate Foreign(c: Ctx, e: Entry) {
    && EntryOk(e, c.ram, c.swap)
    && (e.Resident? ==> RamCount(c, e.fpn) == 0)
    && (e.Swapped? ==> SwapCount(c, e.off) == 0)
  }

  predicate SameShape(c: Ctx, c': Ctx) {
    |c'.pt| == |c.pt| && |c'.ram.frames| == |c.ram.frames| && |c'.swap.frames| == |c.swap.frames|
  }

  /** Pages of other processes mean the same before and after. */
  ghost predicate ForeignKept(c: Ctx, c': Ctx) {
    forall e :: Foreign(c, e) ==> PageOf(e, c'.ram, c'.swap) == PageOf(e, c.ram, c.swap)
  }

  /** Every page of this process means the same before and after, mapped or not. */
  ghost predicate OwnKept(c: Ctx, c': Ctx) {
    && |c'.pt| == |c.pt|
    && forall p :: 0 <= p < |c.pt| ==> PageOf(c'.pt[p], c'.ram, c'.swap) == PageOf(c.pt[p], c.ram, c.swap)
  }

  // ---------------------------------------------------------------------------------------------------------
  // Formatting
  // ---------------------------------------------------------------------------------------------------------

  function UpTo(n: nat): seq<int> {
    if n == 0 then [] else UpTo(n - 1) + [n - 1]
  }

  lemma {:induction false} UpToOcc(n: nat, x: int)
    ensures |UpTo(n)| == n && Occ(UpTo(n), x) == if 0 <= x < n then 1 else 0
    ensures forall k :: 0 <= k < n ==> UpTo(n)[k] == k
  {
    if n > 0 {
      UpToOcc(n - 1, x);
      OccConcat(UpTo(n - 1), [n - 1], x);
    }
  }

  /** `init_memphy`: all bytes zero, every frame free, in ascending order. */
  function Formatted(frames: nat): Device {
    Device(seq(frames, _ => seq(PAGESZ, _ => 0)), UpTo(frames))
  }

  lemma FormattedOk(frames: nat)
    ensures var d := Formatted(frames);
      && |d.frames| == |d.free| == frames && (forall x :: Occ(d.free, x) == if 0 <= x < frames then 1 else 0)
      && forall k :: 0 <= k < frames ==> d.free[k] == k && forall a :: 0 <= a < PAGESZ ==> d.frames[k][a] == 0
  {
    UpToOcc(frames, 0);
    forall x ensures Occ(UpTo(frames), x) == if 0 <= x < frames then 1 else 0 {
      UpToOcc(frames, x);
    }
  }

  // ---------------------------------------------------------------------------------------------------------
  // Eviction
  // ---------------------------------------------------------------------------------------------------------

  function Victim(c: Ctx): (p: int)
    requires c.fifo != []
    ensures CtxOk(c) ==> 0 <= p < |c.pt| && c.pt[p].Resident? && 0 <= c.pt[p].fpn < |c.ram.frames|
  {
    c.fifo[|c.fifo| - 1]
  }

  function DropVictim(c: Ctx): Ctx
    requires c.fifo != []
  {
    c.(fifo := c.fifo[..|c.fifo| - 1])
  }

  /** The oldest tracked page moves to the first free swap frame. Its RAM frame is then in nobody's account. */
  function Evict(c: Ctx): Ctx
    requires CtxOk(c) && c.fifo != [] && c.swap.free != []
  {
    var s := c.swap.free[0];
    var page := c.ram.frames[c.pt[Victim(c)].fpn];
    DropVictim(c).(pt := c.pt[Victim(c) := Swapped(s)],
                   swap := Device(c.swap.frames[s := page], c.swap.free[1..]))
  }

  lemma EvictOk(c: Ctx)
    requires CtxOk(c) && c.fifo != [] && c.swap.free != []
    ensures CtxOk(Evict(c)) && SameShape(c, Evict(c))
  {
  }

  lemma EvictCounts(c: Ctx, x: int)
    requires CtxOk(c) && c.fifo != [] && c.swap.free != []
    ensures RamCount(Evict(c), x) + (if c.pt[Victim(c)].fpn == x then 1 else 0) == RamCount(c, x)
    ensures SwapCount(Evict(c), x) == SwapCount(c, x)
  {
    var to := Swapped(c.swap.free[0]);
    OccUpdate(c.pt, Victim(c), to, Resident(x));
    OccUpdate(c.pt, Victim(c), to, Swapped(x));
  }

  lemma EvictKeeps(c: Ctx)
    requires CtxOk(c) && Exclusive(c) && c.fifo != [] && c.swap.free != []
    ensures CtxOk(Evict(c)) && SameShape(c, Evict(c)) && OwnKept(c, Evict(c)) && ForeignKept(c, Evict(c))
  {
    EvictOk(c);
    var c', s := Evict(c), c.swap.free[0];
    forall e | Foreign(c, e) ensures PageOf(e, c'.ram, c'.swap) == PageOf(e, c.ram, c.swap) {
      assert e == Swapped(s) ==> SwapCount(c, s) >= 1;
    }
    forall p | 0 <= p < |c.pt| ensures PageOf(c'.pt[p], c'.ram, c'.swap) == PageOf(c.pt[p], c.ram, c.swap) {
      assert c.pt[p] == Swapped(s) ==> SwapCount(c, s) >= 2;
    }
  }

  // ---------------------------------------------------------------------------------------------------------
  // Allocation of frames, with eviction and rollback
  // ---------------------------------------------------------------------------------------------------------

  /** The frames obtained so far head the result list; a failed request gives all of them back, newest first. */
  datatype Grant = Granted(c: Ctx, frames: seq<int>) | OutOfMemory(c: Ctx)

  function GiveBack(c: Ctx, held: seq<int>): Ctx {
    c.(ram := c.ram.(free := Reverse(held) + c.ram.free))
  }

  function TakeFree(c: Ctx): Ctx
    requires c.ram.free != []
  {
    c.(ram := c.ram.(free := c.ram.free[1..]))
  }

  predicate CanTake(c: Ctx) {
    c.ram.free != [] || (c.fifo != [] && c.swap.free != [])
  }

  /** How many frames can be had: the free ones, and then one for every page that can be swapped out. */
  function Takeable(c: Ctx): nat {
    |c.ram.free| + if |c.fifo| <= |c.swap.free| then |c.fifo| else |c.swap.free|
  }

  /** The next frame is the first free one, or else the victim's. */
  function NextFrame(c: Ctx): (r: (Ctx, int))
    requires CtxOk(c) && CanTake(c)
    ensures CtxOk(r.0)
  {
    if c.ram.free != [] then (TakeFree(c), c.ram.free[0])
    else
      EvictOk(c);
      (Evict(c), c.pt[Victim(c)].fpn)
  }

  /** A victim is unlinked from the FIFO list before swap is asked for room: when swap has none, the request is
      refused and the page stays resident but is no longer tracked. */
  function Refuse(c: Ctx, held: seq<int>): Grant {
    OutOfMemory(GiveBack(if c.fifo == [] then c else DropVictim(c), held))
  }

  function AllocPages(c: Ctx, k: nat, held: seq<int>): (g: Grant)
    requires CtxOk(c)
    ensures |g.c.pt| == |c.pt| && (g.Granted? ==> |g.frames| == k + |held|)
    decreases k
  {
    if k == 0 then Granted(c, held)
    else if CanTake(c) then
      var (c', f) := NextFrame(c);
      AllocPages(c', k - 1, [f] + held)
    else Refuse(c, held)
  }

  /** What allocation never touches: page contents, RAM bytes, other processes' swap frames, the swap accounts.
      The FIFO list only loses pages, oldest first. */
  ghost predicate Quiet(c: Ctx, c': Ctx) {
    && CtxOk(c') && OwnKept(c, c')
    && |c'.swap.frames| == |c.swap.frames|
    && c'.ram.frames == c.ram.frames
    && (forall s :: 0 <= s < |c.swap.frames| && SwapCount(c, s) == 0 ==> c'.swap.frames[s] == c.swap.frames[s])
    && (forall s :: SwapCount(c', s) == SwapCount(c, s))
    && c'.fifo <= c.fifo
  }

  lemma QuietIsTransitive(a: Ctx, b: Ctx, c: Ctx)
    requires Quiet(a, b) && Quiet(b, c)
    ensures Quiet(a, c)
  {
  }

  lemma QuietKeepsForeign(c: Ctx, c': Ctx)
    requires Quiet(c, c')
    ensures ForeignKept(c, c')
  {
  }

  lemma EvictIsQuiet(c: Ctx)
    requires CtxOk(c) && Exclusive(c) && c.fifo != [] && c.swap.free != []
    ensures Quiet(c, Evict(c))
  {
    EvictKeeps(c);
    forall s ensures SwapCount(Evict(c), s) == SwapCount(c, s) {
      EvictCounts(c, s);
    }
  }

  /** The account of RAM frame `x` while `held` frames are in the hands of the allocator. */
  function Account(c: Ctx, held: seq<int>, x: int): nat {
    RamCount(c, x) + Occ(held, x)
  }

  ghost predicate ExclusiveWith(c: Ctx, held: seq<int>) {
    && (forall x: int :: Account(c, held, x) <= 1 && SwapCount(c, x) <= 1)
    && (forall k :: 0 <= k < |held| ==> 0 <= held[k] < |c.ram.frames|)
  }

  lemma GiveBackOk(c: Ctx, held: seq<int>)
    requires CtxOk(c) && forall k :: 0 <= k < |held| ==> 0 <= held[k] < |c.ram.frames|
    ensures CtxOk(GiveBack(c, held))
  {
    var free := Reverse(held) + c.ram.free;
    forall k | 0 <= k < |free| ensures 0 <= free[k] < |c.ram.frames| {
      if k < |held| {
        assert Reverse(held)[k] in Reverse(held);
        OccReverse(held, Reverse(held)[k]);
      }
    }
  }

  lemma GiveBackLaw(c: Ctx, held: seq<int>)
    requires CtxOk(c) && ExclusiveWith(c, held)
    ensures Quiet(c, GiveBack(c, held))
    ensures forall x :: RamCount(GiveBack(c, held), x) == Account(c, held, x)
  {
    GiveBackOk(c, held);
    forall x ensures RamCount(GiveBack(c, held), x) == Account(c, held, x) {
      OccReverse(held, x);
      OccConcat(Reverse(held), c.ram.free, x);
    }
  }

  lemma NextFrameLaw(c: Ctx, held: seq<int>)
    requires CtxOk(c) && ExclusiveWith(c, held)
    requires CanTake(c)
    ensures var (c', f) := NextFrame(c);
      && Quiet(c, c') && ExclusiveWith(c', [f] + held)
      && forall x :: Account(c', [f] + held, x) == Account(c, held, x)
  {
    var (c', f) := NextFrame(c);
    if c.ram.free != [] {
    } else {
      assert Exclusive(c) by {
        assert forall x :: RamCount(c, x) <= Account(c, held, x);
      }
      EvictIsQuiet(c);
    }
    forall x ensures Account(c', [f] + held, x) == Account(c, held, x) {
      if c.ram.free == [] {
        EvictCounts(c, x);
      }
    }
  }

  ghost predicate GrantLaw(c: Ctx, k: nat, held: seq<int>, g: Grant) {
    && Quiet(c, g.c)
    && match g
       case Granted(c', frames) =>
         |frames| == k + |held| && ExclusiveWith(c', frames) && forall x :: Account(c', frames, x) == Account(c, held, x)
       case OutOfMemory(c') =>
         forall x :: RamCount(c', x) == Account(c, held, x)
  }

  lemma GrantLawStep(c: Ctx, k: nat, held: seq<int>, c': Ctx, f: int, g: Grant)
    requires Quiet(c, c') && forall x :: Account(c', [f] + held, x) == Account(c, held, x)
    requires GrantLaw(c', k, [f] + held, g)
    ensures GrantLaw(c, k + 1, held, g)
  {
    QuietIsTransitive(c, c', g.c);
  }

  lemma RefusalLaw(c: Ctx, k: nat, held: seq<int>)
    requires CtxOk(c) && ExclusiveWith(c, held)
    requires !CanTake(c)
    ensures GrantLaw(c, k, held, Refuse(c, held))
  {
    if c.fifo == [] {
      GiveBackLaw(c, held);
    } else {
      var d := DropVictim(c);
      assert ExclusiveWith(d, held) by {
        assert forall x :: Account(d, held, x) == Account(c, held, x);
      }
      GiveBackLaw(d, held);
      QuietIsTransitive(c, d, GiveBack(d, held));
      assert forall x :: RamCount(GiveBack(d, held), x) == Account(d, held, x) == Account(c, held, x);
    }
  }

  /** `alloc_pages_range`, on success and on the rollback path: every page of every process keeps its contents,
      and no frame is lost or duplicated. */
  lemma {:induction false} AllocPagesLaw(c: Ctx, k: nat, held: seq<int>)
    requires CtxOk(c) && ExclusiveWith(c, held)
    ensures GrantLaw(c, k, held, AllocPages(c, k, held))
    decreases k
  {
    var g := AllocPages(c, k, held);
    if k == 0 {
      assert GrantLaw(c, k, held, Granted(c, held));
    } else if CanTake(c) {
      var (c', f) := NextFrame(c);
      assert g == AllocPages(c', k - 1, [f] + held);
      NextFrameLaw(c, held);
      AllocPagesLaw(c', k - 1, [f] + held);
      GrantLawStep(c, k - 1, held, c', f, g);
    } else {
      RefusalLaw(c, k, held);
    }
  }

  /** Whatever comes of a request for frames, every page of this process (`p`) and of every other one (`e`) means what
      it meant, and a refused request leaves the account of every RAM frame (`f`) as it was. */
  lemma AllocationKeepsMeaning(c: Ctx, k: nat, p: int, e: Entry, f: int)
    requires CtxOk(c) && Exclusive(c) && 0 <= p < |c.pt| && Foreign(c, e)
    ensures var g := AllocPages(c, k, []); var d := g.c;
      && PageOf(d.pt[p], d.ram, d.swap) == PageOf(c.pt[p], c.ram, c.swap)
      && PageOf(e, d.ram, d.swap) == PageOf(e, c.ram, c.swap)
      && (g.OutOfMemory? ==> RamCount(d, f) == RamCount(c, f))
  {
    assert ExclusiveWith(c, []) && Account(c, [], f) == RamCount(c, f);
    AllocPagesLaw(c, k, []);
    QuietKeepsForeign(c, AllocPages(c, k, []).c);
  }

  /** Exactly when a request for `k` frames is granted. */
  lemma {:induction false} AllocPagesGrantedIff(c: Ctx, k: nat, held: seq<int>)
    requires CtxOk(c)
    ensures AllocPages(c, k, held).Granted? <==> k <= Takeable(c)
    decreases k
  {
    if k > 0 && CanTake(c) {
      var (c', f) := NextFrame(c);
      AllocPagesGrantedIff(c', k - 1, [f] + held);
    }
  }

  /** From `c` to `c'` the tracked pages beyond the surviving prefix, that is the oldest ones, went to swap, the oldest to
      the first free swap frame and so on, and nothing else changed its place. */
  ghost predicate EvictedOldest(c: Ctx, c': Ctx) {
    && c'.fifo <= c.fifo && |c'.pt| == |c.pt| && |c.fifo| - |c'.fifo| <= |c.swap.free|
    && c'.swap.free == c.swap.free[|c.fifo| - |c'.fifo|..]
    && (forall j :: |c'.fifo| <= j < |c.fifo| ==>
          0 <= c.fifo[j] < |c.pt| && c'.pt[c.fifo[j]] == Swapped(c.swap.free[|c.fifo| - 1 - j]))
    && forall p :: 0 <= p < |c.pt| && p !in c.fifo[|c'.fifo|..] ==> c'.pt[p] == c.pt[p]
  }

  lemma EvictedOldestStep(c: Ctx, c': Ctx)
    requires CtxOk(c) && c.fifo != [] && c.swap.free != [] && EvictedOldest(Evict(c), c')
    ensures EvictedOldest(c, c')
  {
    var e, n := Evict(c), |c'.fifo|;
    assert c.fifo[n..] == e.fifo[n..] + [Victim(c)];
    assert Victim(c) !in e.fifo[n..];
  }

  /** A granted request evicts exactly as many pages as free frames were missing, the oldest tracked ones. */
  lemma {:induction false} EvictsOldestFirst(c: Ctx, k: nat, held: seq<int>)
    requires CtxOk(c) && AllocPages(c, k, held).Granted?
    ensures var c' := AllocPages(c, k, held).c;
      EvictedOldest(c, c') && |c.fifo| - |c'.fifo| == if k <= |c.ram.free| then 0 else k - |c.ram.free|
    decreases k
  {
    var g := AllocPages(c, k, held);
    if k == 0 {
      assert EvictedOldest(c, c);
    } else {
      var (e, f) := NextFrame(c);
      assert g == AllocPages(e, k - 1, [f] + held);
      EvictsOldestFirst(e, k - 1, [f] + held);
      if c.ram.free == [] {
        EvictedOldestStep(c, g.c);
      }
    }
  }

  // ---------------------------------------------------------------------------------------------------------
  // Which frames
  // ---------------------------------------------------------------------------------------------------------

  /** The frame that turn `t` of the loop yields: the free ones in their order, then those of the tracked pages, the
      oldest first. */
  function TurnFrame(c: Ctx, t: int): int
    requires CtxOk(c) && 0 <= t < |c.ram.free| + |c.fifo|
  {
    if t < |c.ram.free| then c.ram.free[t] else c.pt[c.fifo[|c.fifo| - 1 - (t - |c.ram.free|)]].fpn
  }

  /** The frames come newest first, before those held already; a refused request gives them all back, and they head the
      free list in the order in which they were taken, those held before first. */
  ghost predicate FramesAre(c: Ctx, k: nat, held: seq<int>, g: Grant)
    requires CtxOk(c)
  {
    match g
    case Granted(c', frames) =>
      && |frames| == k + |held| && frames[k..] == held && k <= Takeable(c)
      && (forall t :: 0 <= t < k ==> frames[k - 1 - t] == TurnFrame(c, t))
      && c'.ram.free == (if k <= |c.ram.free| then c.ram.free[k..] else [])
    case OutOfMemory(c') =>
      && |c'.ram.free| == |held| + Takeable(c)
      && (forall j :: 0 <= j < |held| ==> c'.ram.free[j] == held[|held| - 1 - j])
      && forall t :: 0 <= t < Takeable(c) ==> c'.ram.free[|held| + t] == TurnFrame(c, t)
  }

  lemma TurnAfter(c: Ctx, t: int)
    requires CtxOk(c) && CanTake(c) && 0 <= t < Takeable(c)
    ensures var (c', f) := NextFrame(c);
      && Takeable(c') == Takeable(c) - 1
      && TurnFrame(c, t) == if t == 0 then f else TurnFrame(c', t - 1)
  {
  }

  lemma FramesStep(c: Ctx, k: nat, held: seq<int>, c': Ctx, f: int, g: Grant)
    requires CtxOk(c) && CanTake(c) && (c', f) == NextFrame(c) && k > 0
    requires FramesAre(c', k - 1, [f] + held, g)
    ensures FramesAre(c, k, held, g)
  {
    TurnAfter(c, 0);
    match g
    case Granted(d, frames) =>
      assert frames[k - 1] == frames[k - 1..][0] == f && frames[k..] == frames[k - 1..][1..];
      forall t | 0 <= t < k ensures frames[k - 1 - t] == TurnFrame(c, t) {
        TurnAfter(c, t);
      }
    case OutOfMemory(d) =>
      forall j | 0 <= j < |held| ensures d.ram.free[j] == held[|held| - 1 - j] {
        assert ([f] + held)[|held| - j] == held[|held| - 1 - j];
      }
      assert d.ram.free[|held|] == ([f] + held)[0];
      forall t | 0 <= t < Takeable(c) ensures d.ram.free[|held| + t] == TurnFrame(c, t) {
        TurnAfter(c, t);
      }
  }

  /** Exactly which frames a request gets, and what it leaves of the free list. */
  lemma {:induction false} AllocFrames(c: Ctx, k: nat, held: seq<int>)
    requires CtxOk(c)
    ensures FramesAre(c, k, held, AllocPages(c, k, held))
    decreases k
  {
    if k > 0 && CanTake(c) {
      var (c', f) := NextFrame(c);
      AllocFrames(c', k - 1, [f] + held);
      FramesStep(c, k, held, c', f, AllocPages(c', k - 1, [f] + held));
    } else if k > 0 {
      forall j | 0 <= j < |held| ensures Reverse(held)[j] == held[|held| - 1 - j] {
        ReverseAt(held, j);
      }
    }
  }

  // ---------------------------------------------------------------------------------------------------------
  // What happens to the list
  // ---------------------------------------------------------------------------------------------------------

  /** At some turn `find_victim_page` is called on a list of one element, where the code writes through a NULL
      pointer. */
  predicate MeetsOneElement(c: Ctx, k: nat)
    requires CtxOk(c)
    decreases k
  {
    k > 0 && ((c.ram.free == [] && |c.fifo| == 1) || (CanTake(c) && MeetsOneElement(NextFrame(c).0, k - 1)))
  }

  /** The request takes all free frames and all tracked pages, with swap for all of these but the last. */
  predicate TakesAll(c: Ctx, k: int) {
    c.fifo != [] && k >= |c.ram.free| + |c.fifo| && |c.swap.free| + 1 >= |c.fifo|
  }

  /** Exactly when a request for `k` frames meets a list of one element. */
  lemma {:induction false} MeetsOneElementIff(c: Ctx, k: nat)
    requires CtxOk(c)
    ensures MeetsOneElement(c, k) <==> TakesAll(c, k)
    decreases k
  {
    if k > 0 && CanTake(c) {
      MeetsOneElementIff(NextFrame(c).0, k - 1);
    }
  }

  /** Resident, but not on the list: no victim any more. */
  predicate Untracked(c: Ctx, p: int) {
    0 <= p < |c.pt| && c.pt[p].Resident? && p !in c.fifo
  }

  /** No allocation touches the entry of a page that is not on the list. */
  lemma {:induction false} UntrackedStays(c: Ctx, k: nat, held: seq<int>, p: int)
    requires CtxOk(c) && 0 <= p < |c.pt| && p !in c.fifo
    ensures var c' := AllocPages(c, k, held).c; c'.pt[p] == c.pt[p] && p !in c'.fifo
    decreases k
  {
    if k > 0 && CanTake(c) {
      var (e, f) := NextFrame(c);
      UntrackedStays(e, k - 1, [f] + held, p);
    }
  }

  /** What a refused request leaves of the list: nothing, if all tracked pages found room in swap; else the tracked
      pages that were not reached. Between the two lies one page that was unlinked and stays in its frame. */
  ghost predicate LeftOver(c: Ctx, c': Ctx) {
    && |c'.pt| == |c.pt| && (forall j :: 0 <= j < |c.fifo| ==> 0 <= c.fifo[j] < |c.pt|)
    && var rest := |c.fifo| - |c.swap.free|;
       && c'.fifo == (if rest <= 0 then [] else c.fifo[..rest - 1])
       && c'.swap.free == (if rest <= 0 then c.swap.free[|c.fifo|..] else [])
       && forall j :: 0 <= j < |c.fifo| ==>
            c'.pt[c.fifo[j]] == if j < rest then c.pt[c.fifo[j]] else Swapped(c.swap.free[|c.fifo| - 1 - j])
  }

  lemma LeftOverStep(c: Ctx, c': Ctx)
    requires CtxOk(c) && c.fifo != [] && c.swap.free != [] && LeftOver(Evict(c), c')
    requires c'.pt[Victim(c)] == Evict(c).pt[Victim(c)]
    ensures LeftOver(c, c')
  {
    var e, rest := Evict(c), |c.fifo| - |c.swap.free|;
    assert rest == |e.fifo| - |e.swap.free|;
    if rest <= 0 {
      assert e.swap.free[|e.fifo|..] == c.swap.free[|c.fifo|..];
    } else {
      assert e.fifo[..rest - 1] == c.fifo[..rest - 1];
    }
    forall j | 0 <= j < |c.fifo|
      ensures c'.pt[c.fifo[j]] == if j < rest then c.pt[c.fifo[j]] else Swapped(c.swap.free[|c.fifo| - 1 - j])
    {
      if j < |c.fifo| - 1 {
        assert e.fifo[j] == c.fifo[j] && e.pt[c.fifo[j]] == c.pt[c.fifo[j]];
        assert rest <= j ==> e.swap.free[|c.fifo| - 2 - j] == c.swap.free[|c.fifo| - 1 - j];
      }
    }
  }

  lemma LeftOverFree(c: Ctx, c': Ctx)
    requires c.ram.free != [] && LeftOver(TakeFree(c), c')
    ensures LeftOver(c, c')
  {
  }

  lemma LeftOverNow(c: Ctx, held: seq<int>)
    requires CtxOk(c) && !CanTake(c)
    ensures LeftOver(c, Refuse(c, held).c)
  {
    assert Refuse(c, held).c == GiveBack(if c.fifo == [] then c else DropVictim(c), held);
  }

  lemma {:induction false} RefusalTracking(c: Ctx, k: nat, held: seq<int>)
    requires CtxOk(c) && AllocPages(c, k, held).OutOfMemory?
    ensures LeftOver(c, AllocPages(c, k, held).c)
    decreases k
  {
    if CanTake(c) {
      var (e, f) := NextFrame(c);
      var g := AllocPages(e, k - 1, [f] + held);
      RefusalTracking(e, k - 1, [f] + held);
      if c.ram.free == [] {
        UntrackedStays(e, k - 1, [f] + held, Victim(c));
        LeftOverStep(c, g.c);
      } else {
        LeftOverFree(c, g.c);
      }
    } else {
      LeftOverNow(c, held);
    }
  }

  /** Exactly when a request for frames makes a tracked page untracked: there are more tracked pages than free swap
      frames, and it wants more than the free frames of both devices. */
  lemma AllocUntracksIff(c: Ctx, k: nat)
    requires CtxOk(c)
    ensures (exists p :: p in c.fifo && Untracked(AllocPages(c, k, []).c, p)) <==>
            |c.fifo| > |c.swap.free| && k > |c.ram.free| + |c.swap.free|
  {
    var g, rest := AllocPages(c, k, []), |c.fifo| - |c.swap.free|;
    AllocPagesGrantedIff(c, k, []);
    if g.OutOfMemory? {
      RefusalTracking(c, k, []);
      if rest > 0 {
        assert c.fifo[rest - 1] !in g.c.fifo;
        assert Untracked(g.c, c.fifo[rest - 1]);
      }
    } else {
      EvictsOldestFirst(c, k, []);
      var n := |g.c.fifo|;
      forall p | p in c.fifo ensures !Untracked(g.c, p) {
        assert c.fifo == c.fifo[..n] + c.fifo[n..];
        assert p in c.fifo[n..] || p in c.fifo[..n];
      }
    }
  }
}
