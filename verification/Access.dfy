/** Mapping fresh frames, bringing a page back from swap, and storing a byte, on the values of `Paging`. */
module Access {
  import opened Seqs
  import opened PageEntry
  import opened Paging

  /** What every memory operation of one process owes to the rest of the system: the RAM accounts are unchanged,
      no swap frame gains an owner, and pages of other processes keep their contents. */
  ghost predicate Lawful(c: Ctx, c': Ctx) {
    && CtxOk(c') && SameShape(c, c') && ForeignKept(c, c')
    && (forall x :: RamCount(c', x) == RamCount(c, x))
    && (forall x :: SwapCount(c', x) <= SwapCount(c, x))
  }

  // ---------------------------------------------------------------------------------------------------------
  // Mapping
  // ---------------------------------------------------------------------------------------------------------

  function MapOne(c: Ctx, pgn: int, f: int): Ctx
    requires 0 <= pgn < |c.pt|
  {
    c.(pt := c.pt[pgn := Resident(f)], fifo := [pgn] + c.fifo)
  }

  /** `vmap_page_range`: page `pgn + k` gets `frames[k]` and is put at the young end of the FIFO list. */
  function MapPages(c: Ctx, pgn: int, frames: seq<int>): (c': Ctx)
    requires 0 <= pgn && pgn + |frames| <= |c.pt|
    ensures |c'.pt| == |c.pt| && c'.ram == c.ram && c'.swap == c.swap
    decreases |frames|
  {
    if frames == [] then c else MapPages(MapOne(c, pgn, frames[0]), pgn + 1, frames[1..])
  }

  lemma MapOneLaw(c: Ctx, pgn: int, frames: seq<int>)
    requires CtxOk(c) && frames != [] && ExclusiveWith(c, frames)
    requires 0 <= pgn < |c.pt| && c.pt[pgn] == Unmapped
    ensures var c' := MapOne(c, pgn, frames[0]);
      && CtxOk(c') && ExclusiveWith(c', frames[1..])
      && (forall x :: Account(c', frames[1..], x) == Account(c, frames, x))
      && (forall x :: SwapCount(c', x) == SwapCount(c, x))
  {
    var c', f := MapOne(c, pgn, frames[0]), frames[0];
    forall x ensures Account(c', frames[1..], x) == Account(c, frames, x) && SwapCount(c', x) == SwapCount(c, x) {
      OccUpdate(c.pt, pgn, Resident(f), Resident(x));
      OccUpdate(c.pt, pgn, Resident(f), Swapped(x));
    }
  }

  ghost predicate Mapped(c: Ctx, pgn: int, frames: seq<int>, c': Ctx)
    requires 0 <= pgn && pgn + |frames| <= |c.pt|
  {
    && |c'.pt| == |c.pt|
    && (forall p :: 0 <= p < |c.pt| ==>
          c'.pt[p] == if pgn <= p < pgn + |frames| then Resident(frames[p - pgn]) else c.pt[p])
    && |c'.fifo| == |frames| + |c.fifo| && c'.fifo[|frames|..] == c.fifo
    && (forall k :: 0 <= k < |frames| ==> c'.fifo[k] == pgn + |frames| - 1 - k)
  }

  lemma {:induction false} MapPagesMaps(c: Ctx, pgn: int, frames: seq<int>)
    requires 0 <= pgn && pgn + |frames| <= |c.pt|
    ensures Mapped(c, pgn, frames, MapPages(c, pgn, frames))
    decreases |frames|
  {
    if frames != [] {
      var d := MapOne(c, pgn, frames[0]);
      var c' := MapPages(d, pgn + 1, frames[1..]);
      MapPagesMaps(d, pgn + 1, frames[1..]);
      assert c'.fifo[|frames| - 1..][0] == pgn;
      assert c'.fifo[|frames|..] == c'.fifo[|frames| - 1..][1..] == c.fifo;
    }
  }

  /** Mapping moves the granted frames from the allocator's hands into the page table. */
  lemma {:induction false} MapPagesLaw(c: Ctx, pgn: int, frames: seq<int>)
    requires CtxOk(c) && ExclusiveWith(c, frames) && 0 <= pgn && pgn + |frames| <= |c.pt|
    requires forall p :: pgn <= p < pgn + |frames| ==> c.pt[p] == Unmapped
    ensures var c' := MapPages(c, pgn, frames);
      && CtxOk(c')
      && (forall x :: RamCount(c', x) == Account(c, frames, x))
      && (forall x :: SwapCount(c', x) == SwapCount(c, x))
    decreases |frames|
  {
    if frames == [] {
      assert forall x :: RamCount(c, x) == Account(c, frames, x);
    } else {
      var d := MapOne(c, pgn, frames[0]);
      var c' := MapPages(c, pgn, frames);
      assert c' == MapPages(d, pgn + 1, frames[1..]);
      MapOneLaw(c, pgn, frames);
      MapPagesLaw(d, pgn + 1, frames[1..]);
      assert forall x :: RamCount(c', x) == Account(d, frames[1..], x) == Account(c, frames, x);
    }
  }

  // ---------------------------------------------------------------------------------------------------------
  // Swap-in
  // ---------------------------------------------------------------------------------------------------------

  /** Copy swap frame `s` into RAM frame `f`, make it page `pgn`, the youngest tracked one. */
  function Place(c: Ctx, pgn: int, s: int, f: int): Ctx
    requires 0 <= pgn < |c.pt| && 0 <= s < |c.swap.frames| && 0 <= f < |c.ram.frames|
  {
    c.(pt := c.pt[pgn := Resident(f)], fifo := [pgn] + c.fifo,
       ram := c.ram.(frames := c.ram.frames[f := c.swap.frames[s]]))
  }

  /** The victim goes to a fresh swap frame, the wanted page comes from its swap frame into the victim's RAM
      frame. The swap frame it came from is not put back on the free list. */
  function SwapIn(c: Ctx, pgn: int): Ctx
    requires CtxOk(c) && 0 <= pgn < |c.pt| && c.pt[pgn].Swapped? && c.fifo != [] && c.swap.free != []
  {
    Place(Evict(c), pgn, c.pt[pgn].off, c.pt[Victim(c)].fpn)
  }

  lemma SwapInOk(c: Ctx, pgn: int)
    requires CtxOk(c) && 0 <= pgn < |c.pt| && c.pt[pgn].Swapped? && c.fifo != [] && c.swap.free != []
    ensures CtxOk(SwapIn(c, pgn)) && SameShape(c, SwapIn(c, pgn))
  {
    EvictOk(c);
  }

  lemma SwapInCounts(c: Ctx, pgn: int, x: int)
    requires CtxOk(c) && 0 <= pgn < |c.pt| && c.pt[pgn].Swapped? && c.fifo != [] && c.swap.free != []
    ensures RamCount(SwapIn(c, pgn), x) == RamCount(c, x)
    ensures SwapCount(SwapIn(c, pgn), x) + (if c.pt[pgn].off == x then 1 else 0) == SwapCount(c, x)
  {
    var e, f := Evict(c), c.pt[Victim(c)].fpn;
    EvictCounts(c, x);
    OccUpdate(e.pt, pgn, Resident(f), Resident(x));
    OccUpdate(e.pt, pgn, Resident(f), Swapped(x));
  }

  /** Two pages of one process never share a frame. */
  lemma OwnDistinct(c: Ctx, p: int, q: int)
    requires Exclusive(c) && 0 <= p < |c.pt| && 0 <= q < |c.pt| && p != q && !c.pt[p].Unmapped?
    ensures c.pt[p] != c.pt[q]
  {
    if c.pt[p].Resident? {
      assert RamCount(c, c.pt[p].fpn) <= 1;
    } else {
      assert SwapCount(c, c.pt[p].off) <= 1;
    }
    if c.pt[p] == c.pt[q] {
      OccTwice(c.pt, if p < q then p else q, if p < q then q else p);
    }
  }

  lemma SwapInKeepsOwn(c: Ctx, pgn: int)
    requires CtxOk(c) && Exclusive(c)
    requires 0 <= pgn < |c.pt| && c.pt[pgn].Swapped? && c.fifo != [] && c.swap.free != []
    ensures OwnKept(c, SwapIn(c, pgn))
  {
    var e, c' := Evict(c), SwapIn(c, pgn);
    SwapInOk(c, pgn);
    EvictKeeps(c);
    var v := Victim(c);
    forall p | 0 <= p < |c.pt| ensures PageOf(c'.pt[p], c'.ram, c'.swap) == PageOf(c.pt[p], c.ram, c.swap) {
      if p != pgn && p != v {
        OwnDistinct(c, v, p);
        assert PageOf(e.pt[p], e.ram, e.swap) == PageOf(c.pt[p], c.ram, c.swap);
      } else {
        assert PageOf(e.pt[p], e.ram, e.swap) == PageOf(c.pt[p], c.ram, c.swap);
      }
    }
  }

  lemma SwapInLawful(c: Ctx, pgn: int)
    requires CtxOk(c) && Exclusive(c)
    requires 0 <= pgn < |c.pt| && c.pt[pgn].Swapped? && c.fifo != [] && c.swap.free != []
    ensures Lawful(c, SwapIn(c, pgn))
  {
    var e, c', f := Evict(c), SwapIn(c, pgn), c.pt[Victim(c)].fpn;
    SwapInOk(c, pgn);
    EvictKeeps(c);
    forall x ensures RamCount(c', x) == RamCount(c, x) && SwapCount(c', x) <= SwapCount(c, x) {
      SwapInCounts(c, pgn, x);
    }
    assert RamCount(c, f) >= 1 by {
      assert Resident(f) in c.pt;
    }
    forall x | Foreign(c, x) ensures PageOf(x, c'.ram, c'.swap) == PageOf(x, c.ram, c.swap) {
      assert PageOf(x, e.ram, e.swap) == PageOf(x, c.ram, c.swap);
      assert x != Resident(f);
    }
  }

  // ---------------------------------------------------------------------------------------------------------
  // Translation and access
  // ---------------------------------------------------------------------------------------------------------

  /** `pg_getpage` decides by the PRESENT bit, which `pte_set_swap` leaves set: a swapped-out page counts as
      present. The intended test is residency, PRESENT and not SWAPPED. */
  datatype Guard = AsWritten | Residency

  predicate Absent(g: Guard, e: Entry) {
    e.Unmapped? || (g.Residency? && e.Swapped?)
  }

  /** `pg_getpage` can run for page `pgn`: the page is mapped, and a swap-in that finds a victim finds a free swap
      frame too. */
  predicate Loadable(c: Ctx, pgn: int, g: Guard) {
    && 0 <= pgn < |c.pt| && !c.pt[pgn].Unmapped?
    && (Absent(g, c.pt[pgn]) && c.fifo != [] ==> c.swap.free != [])
  }

  /** What a caller of the memory must see to before it touches page `pgn`: moreover, under the as-written test the page
      is not swapped out. */
  predicate Accessible(c: Ctx, pgn: int, g: Guard) {
    Loadable(c, pgn, g) && (c.pt[pgn].Swapped? ==> g.Residency?)
  }

  /** `pg_getval` and `pg_setval` can run: moreover, a frame number taken from the entry lies within RAM. */
  predicate Touchable(c: Ctx, pgn: int, g: Guard) {
    Loadable(c, pgn, g) && (c.pt[pgn].Swapped? && g.AsWritten? ==> FrameField(c.pt[pgn]) < |c.ram.frames|)
  }

  /** `pg_getpage`: the new state and the frame, or no frame when there is no victim to make room. */
  function GetPage(c: Ctx, pgn: int, g: Guard): (Ctx, Option<int>)
    requires CtxOk(c) && Loadable(c, pgn, g)
  {
    if !Absent(g, c.pt[pgn]) then (c, Some(FrameField(c.pt[pgn])))
    else if c.fifo == [] then (c, None)
    else (SwapIn(c, pgn), Some(FrameField(SwapIn(c, pgn).pt[pgn])))
  }

  /** Page `pgn` was brought in, into frame `f`: it is now the youngest tracked page, in the frame of the oldest one, which
      is off the list and has gone to the first free swap frame. No other entry changed. */
  predicate BroughtIn(c: Ctx, pgn: int, c': Ctx, f: int)
    requires c.fifo != [] && c.swap.free != []
  {
    var v, s := c.fifo[|c.fifo| - 1], c.swap.free[0];
    && c'.fifo == [pgn] + c.fifo[..|c.fifo| - 1]
    && |c'.pt| == |c.pt| && 0 <= v < |c.pt| && 0 <= pgn < |c.pt| && c.pt[v] == Resident(f)
    && c'.pt[pgn] == Resident(f) && c'.pt[v] == Swapped(s)
    && (forall p :: 0 <= p < |c.pt| && p != pgn && p != v ==> c'.pt[p] == c.pt[p])
    && c'.ram.free == c.ram.free && c'.swap.free == c.swap.free[1..]
  }

  /** What `pg_getpage` for page `pgn` does to entries and lists. */
  predicate Moves(c: Ctx, pgn: int, g: Guard, c': Ctx)
    requires Loadable(c, pgn, g)
  {
    if Absent(g, c.pt[pgn]) && c.fifo != [] then
      0 <= Victim(c) < |c.pt| && c.pt[Victim(c)].Resident? && BroughtIn(c, pgn, c', c.pt[Victim(c)].fpn)
    else c'.pt == c.pt && c'.fifo == c.fifo && c'.ram.free == c.ram.free && c'.swap.free == c.swap.free
  }

  /** A frame comes back unless the page must be brought in and there is no victim. Contents and accounts are kept in
      every case; but the frame holds the page exactly if the as-written test was not asked about a swapped-out page. A
      page that is there already is handed out without any change. */
  lemma GetPageLaw(c: Ctx, pgn: int, g: Guard)
    requires CtxOk(c) && Exclusive(c) && Loadable(c, pgn, g)
    ensures var (c', f) := GetPage(c, pgn, g);
      && Lawful(c, c') && OwnKept(c, c')
      && (f.Some? <==> !Absent(g, c.pt[pgn]) || c.fifo != [])
      && (f.Some? ==> (c'.pt[pgn] == Resident(f.value) <==> Accessible(c, pgn, g)))
      && (f.Some? && Accessible(c, pgn, g) ==> 0 <= f.value < |c'.ram.frames|)
      && (f.None? || !Absent(g, c.pt[pgn]) ==> c' == c) && Moves(c, pgn, g, c')
  {
    if Absent(g, c.pt[pgn]) && c.fifo != [] {
      SwapInLawful(c, pgn);
      SwapInKeepsOwn(c, pgn);
    }
  }

  /** On a mapped page the two tests make `pg_getpage` do the same, state and frame, exactly when the page is not
      swapped out. */
  lemma GuardsAgreeIff(c: Ctx, pgn: int)
    requires CtxOk(c) && Loadable(c, pgn, Residency)
    ensures GetPage(c, pgn, AsWritten) == GetPage(c, pgn, Residency) <==> !c.pt[pgn].Swapped?
  {
    if c.pt[pgn].Swapped? && c.fifo != [] {
      assert GetPage(c, pgn, Residency).0.pt[pgn].Resident?;
    }
  }

  function Store(c: Ctx, f: int, off: int, v: Byte): Ctx
    requires 0 <= f < |c.ram.frames| && 0 <= off < PAGESZ
  {
    c.(ram := c.ram.(frames := c.ram.frames[f := c.ram.frames[f][off := v]]))
  }

  /** A store through a resident page changes that byte of that page and nothing else anywhere. */
  lemma StoreLaw(c: Ctx, pgn: int, off: int, v: Byte)
    requires CtxOk(c) && Exclusive(c) && 0 <= pgn < |c.pt| && c.pt[pgn].Resident? && 0 <= off < PAGESZ
    ensures var f := c.pt[pgn].fpn; var c' := Store(c, f, off, v);
      && Lawful(c, c') && c'.pt == c.pt && c'.fifo == c.fifo
      && PageOf(c'.pt[pgn], c'.ram, c'.swap) == Some(c.ram.frames[f][off := v])
      && (forall p :: 0 <= p < |c.pt| && p != pgn ==> PageOf(c'.pt[p], c'.ram, c'.swap) == PageOf(c.pt[p], c.ram, c.swap))
  {
    var f := c.pt[pgn].fpn;
    var c' := Store(c, f, off, v);
    assert forall x :: RamCount(c', x) == RamCount(c, x) && SwapCount(c', x) == SwapCount(c, x);
    assert RamCount(c, f) >= 1 by {
      assert Resident(f) in c.pt;
    }
    forall p | 0 <= p < |c.pt| && p != pgn
      ensures PageOf(c'.pt[p], c'.ram, c'.swap) == PageOf(c.pt[p], c.ram, c.swap)
    {
      OwnDistinct(c, pgn, p);
    }
  }

  /** A store to a swapped-out page under the as-written test goes to frame 32 * off mod 8192: the page itself does not
      get it, whoever holds that frame does, and nobody else. */
  lemma AsWrittenStoreStrays(c: Ctx, pgn: int, off: int, v: Byte, e: Entry)
    requires CtxOk(c) && 0 <= pgn < |c.pt| && c.pt[pgn].Swapped? && 0 <= off < PAGESZ
    requires FrameField(c.pt[pgn]) < |c.ram.frames|
    ensures GetPage(c, pgn, AsWritten) == (c, Some(FrameField(c.pt[pgn])))
    ensures var f := FrameField(c.pt[pgn]); var c' := Store(c, f, off, v);
      && PageOf(c'.pt[pgn], c'.ram, c'.swap) == PageOf(c.pt[pgn], c.ram, c.swap)
      && (PageOf(e, c'.ram, c'.swap) != PageOf(e, c.ram, c.swap) <==> e == Resident(f) && c.ram.frames[f][off] != v)
  {
    var f := FrameField(c.pt[pgn]);
    if c.ram.frames[f][off] == v {
      assert c.ram.frames[f][off := v] == c.ram.frames[f];
    } else {
      assert c.ram.frames[f][off := v][off] != c.ram.frames[f][off];
    }
  }

  /** Reading through the FPN field is right whatever RAM and swap hold. */
  ghost predicate FieldReadSound(e: Entry, ramFrames: nat, swapFrames: nat) {
    forall ram: seq<Page>, swap: seq<Page> :: |ram| == ramFrames && |swap| == swapFrames ==>
      && 0 <= FrameField(e) < |ram|
      && PageOf(e, Device(ram, []), Device(swap, [])) == Some(ram[FrameField(e)])
  }

  /** The as-written `pg_getpage` hands out the FPN field of every mapped entry: right exactly for the pages that are
      not swapped out. */
  lemma AsWrittenReadSoundIff(e: Entry, ramFrames: nat, swapFrames: nat)
    requires !e.Unmapped? && (e.Resident? ==> 0 <= e.fpn < ramFrames) && (e.Swapped? ==> 0 <= e.off < swapFrames)
    ensures FieldReadSound(e, ramFrames, swapFrames) <==> !e.Swapped?
  {
    if e.Swapped? {
      var zero: Page := seq(PAGESZ, _ => 0);
      var one: Page := seq(PAGESZ, _ => 1);
      assert zero[0] != one[0];
      var ram := seq(ramFrames, _ => zero);
      var swap := seq(swapFrames, _ => one);
      assert |ram| == ramFrames && |swap| == swapFrames;
      assert PageOf(e, Device(ram, []), Device(swap, [])) == Some(one);
    }
  }
}
