/** The FIFO lists over runs: the page a process would evict next is the tracked page that has been in RAM longest; a
    resident page is off the list only after a refused allocation, and then stays in its frame for good. */
module Fifo {
  import opened PageEntry
  import opened Paging
  import opened Access
  import opened Regions
  import opened Allocation
  import opened Memory

  /** From `a` to `b` the list lost pages at its old end, and gained pages at its young end that were not resident
      before, as the page table `pt` of that time says. */
  ghost predicate Follows(a: seq<int>, b: seq<int>, pt: seq<Entry>) {
    exists n, k :: FollowsBy(a, b, pt, n, k)
  }

  predicate FollowsBy(a: seq<int>, b: seq<int>, pt: seq<Entry>, n: int, k: int) {
    && 0 <= n <= |b| && 0 <= k <= |a| && b[n..] == a[..k]
    && forall j :: 0 <= j < n ==> 0 <= b[j] < |pt| && !pt[b[j]].Resident?
  }

  lemma PrefixFollows(a: seq<int>, b: seq<int>, pt: seq<Entry>)
    requires b <= a
    ensures Follows(a, b, pt)
  {
    assert FollowsBy(a, b, pt, 0, |b|);
  }

  lemma GrowthFollows(c: Ctx, m: Area, size: int)
    requires ProcOk(c, m) && Exclusive(c) && 0 <= size && m.vmEnd + Align(size) <= MAX_PGN * PAGESZ
    ensures Follows(c.fifo, IncVmaLimit(c, m, size).c.fifo, c.pt)
  {
    AlignLaw(size);
    var k := Align(size) / PAGESZ;
    PrefixFollows(c.fifo, c.fifo, c.pt);
    if 0 < k <= |c.ram.frames| {
      NoneHeld(c);
      AllocPagesLaw(c, k, []);
      match AllocPages(c, k, [])
      case Granted(c1, frames) =>
        MapPagesMaps(c1, m.vmEnd / PAGESZ, frames);
        var first := m.vmEnd / PAGESZ;
        var young := MapPages(c1, first, frames).fifo;
        assert forall j :: 0 <= j < |frames| ==> young[j] == first + |frames| - 1 - j;
        assert FollowsBy(c.fifo, young, c.pt, |frames|, |c1.fifo|);
      case OutOfMemory(c1) =>
        PrefixFollows(c.fifo, c1.fifo, c.pt);
    }
  }

  /** The operation's own process. */
  lemma OwnStepFollows(s: System, op: Op, g: Guard)
    requires SysOk(s) && Disciplined(s, op, g) && !op.Spawn?
    ensures |Exec(s, op, g).0.procs| == |s.procs|
    ensures Follows(s.procs[op.proc].fifo, Exec(s, op, g).0.procs[op.proc].fifo, s.procs[op.proc].pt)
  {
    var i := op.proc;
    var c, m := View(s, i), s.procs[i].area;
    assert ProcOk(c, m);
    ViewExclusive(s, i);
    if op.Alloc? {
      PrefixFollows(c.fifo, c.fifo, c.pt);
      if !Rejected(op.rgid) && GetFree(m.free, op.size).NoFit? {
        GrowthFollows(c, m, op.size);
      }
    } else if op.Free? {
      PrefixFollows(c.fifo, c.fifo, c.pt);
    } else {
      TouchedMapped(s, op, g);
      PrefixFollows(c.fifo, c.fifo, c.pt);
      var pgn := Touched(s, op) / PAGESZ;
      if Absent(g, c.pt[pgn]) && c.fifo != [] {
        var b := GetPage(c, pgn, g).0.fifo;
        assert b[1..] == c.fifo[..|c.fifo| - 1];
        assert FollowsBy(c.fifo, b, c.pt, 1, |c.fifo| - 1);
      }
    }
  }

  /** The list and the page table of process `i`, empty as long as there is no such process. */
  function ListOf(s: System, i: nat): seq<int> {
    if i < |s.procs| then s.procs[i].fifo else []
  }

  function TableOf(s: System, i: nat): seq<Entry> {
    if i < |s.procs| then s.procs[i].pt else []
  }

  /** Every operation of any process leaves every process's list in arrival order. */
  lemma StepFollows(s: System, op: Op, g: Guard, i: nat)
    requires SysOk(s) && Disciplined(s, op, g)
    ensures Follows(ListOf(s, i), ListOf(Exec(s, op, g).0, i), TableOf(s, i))
  {
    if op.Spawn? || op.proc != i {
      PrefixFollows(ListOf(s, i), ListOf(s, i), TableOf(s, i));
    } else {
      OwnStepFollows(s, op, g);
    }
  }

  lemma ListOk(s: System, i: nat)
    requires SysOk(s)
    ensures FifoOk(ListOf(s, i), TableOf(s, i))
  {
    if i < |s.procs| {
      assert ProcOk(View(s, i), s.procs[i].area);
    }
  }

  // ---------------------------------------------------------------------------------------------------------
  // Arrival times
  // ---------------------------------------------------------------------------------------------------------

  /** For each resident page the step, numbered `now`, in which it last became resident. */
  function Arrivals(arr: map<int, int>, before: seq<Entry>, after: seq<Entry>, now: int): map<int, int> {
    map p | 0 <= p < |after| && after[p].Resident? ::
      if p < |before| && before[p].Resident? && p in arr then arr[p] else now
  }

  /** Youngest first. */
  ghost predicate Ordered(fifo: seq<int>, arr: map<int, int>, now: int) {
    && (forall k :: 0 <= k < |fifo| ==> fifo[k] in arr && arr[fifo[k]] < now)
    && (forall j, k :: 0 <= j < k < |fifo| ==> arr[fifo[j]] >= arr[fifo[k]])
  }

  lemma FollowsOrdered(a: seq<int>, pt: seq<Entry>, b: seq<int>, pt': seq<Entry>, arr: map<int, int>, now: int)
    requires Follows(a, b, pt) && Ordered(a, arr, now) && FifoOk(a, pt) && FifoOk(b, pt')
    ensures Ordered(b, Arrivals(arr, pt, pt', now), now + 1)
  {
    var n, k :| FollowsBy(a, b, pt, n, k);
    var arr' := Arrivals(arr, pt, pt', now);
    forall j | 0 <= j < |b| ensures b[j] in arr' && arr'[b[j]] == if j < n then now else arr[a[j - n]] {
      if j >= n {
        assert b[j] == b[n..][j - n] == a[j - n];
      }
    }
  }

  /** The arrival times of process `i` along a run. */
  function ArrivalsOver(s: System, ops: seq<Op>, g: Guard, i: nat, arr: map<int, int>, now: int): map<int, int>
    requires SysOk(s) && Legal(s, ops, g)
    decreases |ops|
  {
    if ops == [] then arr
    else
      ExecOk(s, ops[0], g);
      var s' := Exec(s, ops[0], g).0;
      ArrivalsOver(s', ops[1..], g, i, Arrivals(arr, TableOf(s, i), TableOf(s', i), now), now + 1)
  }

  /** Arrival times are recorded for exactly the resident pages. */
  lemma {:induction false} ArrivalsKnown(s: System, ops: seq<Op>, g: Guard, i: nat, arr: map<int, int>, now: int, p: int)
    requires SysOk(s) && Legal(s, ops, g)
    requires p in arr <==> 0 <= p < |TableOf(s, i)| && TableOf(s, i)[p].Resident?
    ensures var pt := TableOf(Final(s, ops, g), i);
      p in ArrivalsOver(s, ops, g, i, arr, now) <==> 0 <= p < |pt| && pt[p].Resident?
    decreases |ops|
  {
    if ops != [] {
      ExecOk(s, ops[0], g);
      var s' := Exec(s, ops[0], g).0;
      ArrivalsKnown(s', ops[1..], g, i, Arrivals(arr, TableOf(s, i), TableOf(s', i), now), now + 1, p);
    }
  }

  lemma {:induction false} RunOrdered(s: System, ops: seq<Op>, g: Guard, i: nat, arr: map<int, int>, now: int)
    requires SysOk(s) && Legal(s, ops, g) && Ordered(ListOf(s, i), arr, now)
    ensures Ordered(ListOf(Final(s, ops, g), i), ArrivalsOver(s, ops, g, i, arr, now), now + |ops|)
    decreases |ops|
  {
    if ops != [] {
      ExecOk(s, ops[0], g);
      var s' := Exec(s, ops[0], g).0;
      var arr' := Arrivals(arr, TableOf(s, i), TableOf(s', i), now);
      StepFollows(s, ops[0], g, i);
      ListOk(s, i);
      ListOk(s', i);
      FollowsOrdered(ListOf(s, i), TableOf(s, i), ListOf(s', i), TableOf(s', i), arr, now);
      RunOrdered(s', ops[1..], g, i, arr', now + 1);
    }
  }

  /** From boot, after any legal run, the victim of a process is a tracked page that became resident no later than any
      other tracked one (`p`). The list tracks only resident pages, and each once. */
  lemma VictimIsOldest(ramFrames: nat, swapFrames: nat, ops: seq<Op>, g: Guard, i: nat, p: int)
    requires Legal(Boot(ramFrames, swapFrames), ops, g)
    requires p in ListOf(Final(Boot(ramFrames, swapFrames), ops, g), i)
    ensures var s := Final(Boot(ramFrames, swapFrames), ops, g);
      var arr := ArrivalsOver(Boot(ramFrames, swapFrames), ops, g, i, map[], 0);
      && i < |s.procs| && FifoOk(s.procs[i].fifo, s.procs[i].pt)
      && var v := Victim(View(s, i)); v in arr && p in arr && arr[v] <= arr[p]
  {
    RunOrdered(Boot(ramFrames, swapFrames), ops, g, i, map[], 0);
    ListOk(Final(Boot(ramFrames, swapFrames), ops, g), i);
  }

  // ---------------------------------------------------------------------------------------------------------
  // Untracked pages
  // ---------------------------------------------------------------------------------------------------------

  /** Page `p` of process `i` sits in RAM frame `f` and is not on the list. */
  predicate Stuck(s: System, i: int, p: int, f: int) {
    0 <= i < |s.procs| && Untracked(View(s, i), p) && s.procs[i].pt[p] == Resident(f)
  }

  lemma AllocKeepsStuck(c: Ctx, m: Area, rgid: int, size: int, p: int)
    requires ProcOk(c, m) && Exclusive(c) && AllocReady(c, m, rgid, size) && Untracked(c, p)
    ensures var d := Allocation.Alloc(c, m, rgid, size).c; Untracked(d, p) && d.pt[p] == c.pt[p]
  {
    AlignLaw(size);
    var k := Align(size) / PAGESZ;
    if !Rejected(rgid) && GetFree(m.free, size).NoFit? && 0 < k <= |c.ram.frames| {
      UntrackedStays(c, k, [], p);
      match AllocPages(c, k, [])
      case Granted(c1, frames) =>
        MapPagesMaps(c1, m.vmEnd / PAGESZ, frames);
      case OutOfMemory(_) =>
    }
  }

  lemma StepKeepsStuck(s: System, op: Op, g: Guard, i: int, p: int, f: int)
    requires SysOk(s) && Disciplined(s, op, g) && Stuck(s, i, p, f)
    ensures Stuck(Exec(s, op, g).0, i, p, f)
  {
    if !op.Spawn? && op.proc == i {
      var c, m := View(s, i), s.procs[i].area;
      ViewExclusive(s, i);
      assert ProcOk(c, m);
      if op.Alloc? {
        AllocKeepsStuck(c, m, op.rgid, op.size, p);
      } else if !op.Free? {
        TouchedMapped(s, op, g);
      }
    }
  }

  /** A resident page that is not on the list keeps its frame, and stays off the list, under every legal run. */
  lemma {:induction false} StuckForEver(s: System, ops: seq<Op>, g: Guard, i: int, p: int, f: int)
    requires SysOk(s) && Legal(s, ops, g) && Stuck(s, i, p, f)
    ensures Stuck(Final(s, ops, g), i, p, f)
    decreases |ops|
  {
    if ops != [] {
      ExecOk(s, ops[0], g);
      StepKeepsStuck(s, ops[0], g, i, p, f);
      StuckForEver(Exec(s, ops[0], g).0, ops[1..], g, i, p, f);
    }
  }

  /** Some resident page is not on the list. */
  ghost predicate SomeUntracked(c: Ctx) {
    exists p :: Untracked(c, p)
  }

  /** An allocation that is refused with tracked pages left and no swap for them: it wants to grow the area by more pages
      than RAM and swap have free frames, and there are more tracked pages than free swap frames. */
  predicate Drops(c: Ctx, m: Area, rgid: int, size: int) {
    && !Rejected(rgid) && GetFree(m.free, size).NoFit?
    && var k := Align(size) / PAGESZ;
       0 < k <= |c.ram.frames| && |c.fifo| > |c.swap.free| && k > |c.ram.free| + |c.swap.free|
  }

  /** A growth that is granted leaves no page untracked that was not. */
  lemma GrantTracks(c: Ctx, m: Area, k: int, d: Ctx, c': Ctx)
    requires CtxOk(c) && MappedBelow(c, m) && m.vmEnd % PAGESZ == 0
    requires 0 <= k <= Takeable(c) && m.vmEnd / PAGESZ + k <= |c.pt| && GrownBy(c, m.vmEnd / PAGESZ, k, d, c')
    ensures SomeUntracked(c') <==> SomeUntracked(c)
  {
    var first, n := m.vmEnd / PAGESZ, |d.fifo|;
    assert c.fifo == c.fifo[..n] + c.fifo[n..] && d.fifo == c.fifo[..n];
    forall p | first <= p < first + k ensures p in c'.fifo {
      assert c'.fifo[first + k - 1 - p] == p;
    }
    if p :| Untracked(c', p) {
      assert p !in c'.fifo[k..];
      assert Untracked(c, p);
    }
    if p :| Untracked(c, p) {
      assert p !in d.fifo && p !in c.fifo[n..];
      forall j | 0 <= j < |c'.fifo| ensures c'.fifo[j] != p {
        assert j >= k ==> c'.fifo[j] == c'.fifo[k..][j - k];
      }
      assert Untracked(c', p);
    }
  }

  lemma RefusalUntracks(c: Ctx, k: nat)
    requires CtxOk(c) && k > Takeable(c)
    ensures SomeUntracked(AllocPages(c, k, []).c) <==>
            SomeUntracked(c) || (|c.fifo| > |c.swap.free| && k > |c.ram.free| + |c.swap.free|)
  {
    var c' := AllocPages(c, k, []).c;
    AllocUntracksIff(c, k);
    if p :| Untracked(c', p) {
      if p !in c.fifo {
        UntrackedStays(c, k, [], p);
        assert Untracked(c, p);
      }
    }
    if p :| Untracked(c, p) {
      UntrackedStays(c, k, [], p);
      assert Untracked(c', p);
    }
  }

  lemma AllocUntracks(c: Ctx, m: Area, rgid: int, size: int)
    requires ProcOk(c, m) && Exclusive(c) && AllocReady(c, m, rgid, size)
    ensures SomeUntracked(Allocation.Alloc(c, m, rgid, size).c) <==> SomeUntracked(c) || Drops(c, m, rgid, size)
  {
    AlignLaw(size);
    var k := Align(size) / PAGESZ;
    if !Rejected(rgid) && GetFree(m.free, size).NoFit? && 0 < k <= |c.ram.frames| {
      GrowthExactly(c, m, size);
      AllocPagesGrantedIff(c, k, []);
      var c' := IncVmaLimit(c, m, size).c;
      if k <= Takeable(c) {
        var d :| GrownBy(c, m.vmEnd / PAGESZ, k, d, c');
        GrantTracks(c, m, k, d, c');
      } else {
        RefusalUntracks(c, k);
      }
    }
  }

  /** A page that is brought in is tracked, and the page that makes room is not resident any more. */
  lemma AccessTracks(c: Ctx, pgn: int, g: Guard, c': Ctx)
    requires CtxOk(c) && Loadable(c, pgn, g) && Moves(c, pgn, g, c')
    ensures SomeUntracked(c') <==> SomeUntracked(c)
  {
    if Absent(g, c.pt[pgn]) && c.fifo != [] {
      var last := |c.fifo| - 1;
      assert c.fifo == c.fifo[..last] + [c.fifo[last]] && c'.fifo[0] == pgn && c'.fifo[1..] == c.fifo[..last];
      if p :| Untracked(c', p) {
        assert Untracked(c, p);
      }
      if p :| Untracked(c, p) {
        assert Untracked(c', p);
      }
    } else {
      assert forall p :: Untracked(c', p) <==> Untracked(c, p);
    }
  }

  /** Process `i` has a resident page that is not on its list. */
  ghost predicate Loose(s: System, i: int) {
    0 <= i < |s.procs| && SomeUntracked(View(s, i))
  }

  predicate DropsIn(s: System, op: Op, i: int) {
    op.Alloc? && op.proc == i && 0 <= i < |s.procs| && Drops(View(s, i), s.procs[i].area, op.rgid, op.size)
  }

  lemma StepLooseIff(s: System, op: Op, g: Guard, i: int)
    requires SysOk(s) && Disciplined(s, op, g)
    ensures Loose(Exec(s, op, g).0, i) <==> Loose(s, i) || DropsIn(s, op, i)
  {
    ExecDoes(s, op, g);
    var s' := Exec(s, op, g).0;
    if op.Spawn? || op.proc != i {
      if 0 <= i < |s.procs| {
        assert s'.procs[..|s.procs|] == s.procs || s'.procs[i] == s.procs[i];
        assert forall p :: Untracked(View(s', i), p) <==> Untracked(View(s, i), p);
      }
    } else {
      var c, m := View(s, i), s.procs[i].area;
      assert ProcOk(c, m);
      ViewExclusive(s, i);
      if op.Alloc? {
        AllocUntracks(c, m, op.rgid, op.size);
        assert View(s', i) == Allocation.Alloc(c, m, op.rgid, op.size).c;
      } else if !op.Free? {
        AccessTracks(c, Touched(s, op) / PAGESZ, g, View(s', i));
      }
    }
  }

  /** Some operation of the run drops a page of process `i` from its list. */
  predicate SomeDrop(s: System, ops: seq<Op>, g: Guard, i: int)
    requires SysOk(s) && Legal(s, ops, g)
    decreases |ops|
  {
    ops != [] && (DropsIn(s, ops[0], i) || (ExecOk(s, ops[0], g); SomeDrop(Exec(s, ops[0], g).0, ops[1..], g, i)))
  }

  lemma {:induction false} RunLooseIff(s: System, ops: seq<Op>, g: Guard, i: int)
    requires SysOk(s) && Legal(s, ops, g)
    ensures Loose(Final(s, ops, g), i) <==> Loose(s, i) || SomeDrop(s, ops, g, i)
    decreases |ops|
  {
    if ops != [] {
      ExecOk(s, ops[0], g);
      StepLooseIff(s, ops[0], g, i);
      RunLooseIff(Exec(s, ops[0], g).0, ops[1..], g, i);
    }
  }

  /** From boot, after any legal run, all resident pages of a process are on its list, exactly if no allocation of the
      process was refused with tracked pages left and no swap for them. */
  lemma TrackedIff(ramFrames: nat, swapFrames: nat, ops: seq<Op>, g: Guard, i: int)
    requires Legal(Boot(ramFrames, swapFrames), ops, g) && 0 <= i < |Final(Boot(ramFrames, swapFrames), ops, g).procs|
    ensures var s := Final(Boot(ramFrames, swapFrames), ops, g);
      (forall p :: 0 <= p < |s.procs[i].pt| && s.procs[i].pt[p].Resident? ==> p in s.procs[i].fifo) <==>
      !SomeDrop(Boot(ramFrames, swapFrames), ops, g, i)
  {
    RunLooseIff(Boot(ramFrames, swapFrames), ops, g, i);
    var s := Final(Boot(ramFrames, swapFrames), ops, g);
    assert forall p :: Untracked(View(s, i), p) <==>
                         0 <= p < |s.procs[i].pt| && s.procs[i].pt[p].Resident? && p !in s.procs[i].fifo;
  }
}
