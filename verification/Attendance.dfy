/** The invariant of the simulator that shutdown safety rests on: whenever a process waits, some CPU is bound to ask for
    one before it can stop, or the process arrived in the current slot.

    A CPU stops after it found the queues empty, but other CPUs may still hold processes and put them back, and the
    loader may still be adding some. The argument: `done` is set a whole slot after the last arrival, no CPU stops
    before `done`, and at every tick of the barrier all live CPUs are about to look at the queues again. */
module Attendance {
  import opened Seqs
  import opened Sched
  import Policy = Sched
  import Barrier
  import Queue
  import opened Simulator

  ghost predicate Base(g: Config, s: Sim) {
    && WellFormed(g, s) && Barrier.BarrierOk(s.bar) && SchedOk(s.sched)
    && forall p :: 0 <= p < |g.prio| ==> 0 <= s.pc[p] <= g.size[p]
  }

  predicate CpuOk(s: Sim, c: int)
    requires |s.bar.devs| == |s.cpus| + 1 && 0 <= c < |s.cpus|
  {
    var phase, cpu := s.bar.devs[c + 1].phase, s.cpus[c];
    && (phase == Barrier.Waiting ==> cpu.loc == Top)
    && (phase == Barrier.Stopped ==> cpu.loc == Leave)
    && (cpu.loc == SetFinished || cpu.loc == Leave ==> s.done)
    && (cpu.loc == Leave ==> s.finished)
    && (cpu.loc.Fetch? || cpu.loc.IdleCheck? || cpu.loc.SetFinished? || cpu.loc.Leave? ==> cpu.proc == None)
  }

  /** The loader adds in one slot and sets `done` in a later one. */
  predicate LoaderOk(g: Config, s: Sim)
    requires |s.bar.devs| > 0
  {
    var v, loc := s.bar.devs[0], s.ld.loc;
    && (v.phase == Barrier.Waiting ==> loc == LdTop)
    && (v.phase == Barrier.Stopped ==> loc == LdLeave)
    && (s.done <==> loc == LdLeave)
    && (loc == LdDone || loc == LdLeave ==> s.ld.next == |g.prio|)
    && (loc == LdAdd ==> s.ld.next < |g.prio|)
    && LastAdd(s) <= v.slots
    && (v.phase == Barrier.Working && loc != LdNextSlot ==> LastAdd(s) < v.slots)
    && (s.done ==> LastAdd(s) < s.bar.time)
  }

  ghost predicate FlagsOk(g: Config, s: Sim)
    requires |s.bar.devs| == |s.cpus| + 1
  {
    && LoaderOk(g, s) && (s.finished ==> s.done)
    && forall c :: 0 <= c < |s.cpus| ==> CpuOk(s, c)
  }

  /** CPU `c` will call `get_proc`, or holds a process, before it can stop. */
  predicate Obliged(s: Sim, c: int) {
    && 0 <= c < |s.cpus| && c + 1 < |s.bar.devs| && s.bar.devs[c + 1].phase != Barrier.Stopped
    && var cpu := s.cpus[c];
       cpu.loc.Top? || cpu.loc.Fetch? || cpu.loc.ToNextSlot? || (cpu.loc.Recheck? && cpu.proc.Some?)
  }

  /** A waiting process will be asked for, or arrived in the current slot. */
  ghost predicate Attended(s: Sim) {
    && Policy.Shaped(s.sched)
    && (AllEmpty(s.sched) || LastAdd(s) == s.bar.time || exists c :: Obliged(s, c))
  }

  ghost predicate Safe(g: Config, s: Sim) {
    Base(g, s) && FlagsOk(g, s) && Attended(s)
  }

  lemma InitSafe(g: Config)
    requires ConfigOk(g)
    ensures Safe(g, Boot(g))
  {
  }

  // ---------------------------------------------------------------------------------------------------------
  // The base invariant
  // ---------------------------------------------------------------------------------------------------------

  lemma GetKnown(s: Sched<int>, left: int, timeSlot: int, n: nat)
    requires SchedOk(s) && Choose(s).Serve? && Known(s.queues, n)
    ensures Known(GetMlq(s, left, timeSlot).queues, n)
  {
    ChooseIsWorkConserving(s);
    var j := Choose(s).queue;
  }

  lemma GetProcBase(g: Config, s: Sim, c: int, idle: Loc)
    requires Base(g, s) && 0 <= c < g.cpus
    ensures Base(g, GetProc(g, s, c, idle))
  {
    if Choose(s.sched).Serve? {
      var p := Picked(s);
      PickedInRange(g, s);
      GetMlqOk(s.sched, g.size[p] - s.pc[p], g.timeSlot);
      GetKnown(s.sched, g.size[p] - s.pc[p], g.timeSlot, |g.prio|);
    }
  }

  lemma AddToBase(g: Config, s: Sim, p: int, running: seq<int>, place: seq<Place>)
    requires Base(g, s) && 0 <= p < |g.prio| && |place| == |s.place|
    ensures Base(g, s.(sched := AddTo(s.sched, p, g.prio[p]).(running := running), place := place))
  {
  }

  lemma BarBase(g: Config, s: Sim, a: Barrier.Act)
    requires Base(g, s) && Barrier.Enabled(s.bar, a)
    ensures Base(g, s.(bar := Barrier.Apply(s.bar, a)))
  {
    Barrier.ApplyOk(s.bar, a);
  }

  lemma TopBase(g: Config, s: Sim, c: int)
    requires Base(g, s) && Enabled(g, s, CpuStep(c)) && s.cpus[c].loc == Top
    ensures Base(g, CpuMove(g, s, c))
  {
    match s.cpus[c].proc
    case None => GetProcBase(g, s, c, IdleCheck);
    case Some(p) => AddToBase(g, s, p, Queue.Without(s.sched.running, p), s.place[p := Ready]);
  }

  lemma CpuMoveBase(g: Config, s: Sim, c: int)
    requires Base(g, s) && Enabled(g, s, CpuStep(c))
    ensures Base(g, CpuMove(g, s, c))
  {
    match s.cpus[c].loc
    case Top => TopBase(g, s, c);
    case Fetch => GetProcBase(g, s, c, Recheck);
    case ToNextSlot => BarBase(g, s, Barrier.Signal(c + 1));
    case Leave => BarBase(g, s, Barrier.Detach(c + 1));
    case _ =>
  }

  lemma LoaderMoveBase(g: Config, s: Sim)
    requires Base(g, s) && Enabled(g, s, LoaderStep)
    ensures Base(g, LoaderMove(g, s))
  {
    match s.ld.loc
    case LdNextSlot => BarBase(g, s, Barrier.Signal(0));
    case LdLeave => BarBase(g, s, Barrier.Detach(0));
    case _ =>
  }

  lemma ApplyBase(g: Config, s: Sim, a: Act)
    requires Base(g, s) && Enabled(g, s, a)
    ensures Base(g, Do(g, s, a))
  {
    match a
    case CpuStep(c) => CpuMoveBase(g, s, c);
    case LoaderStep => LoaderMoveBase(g, s);
    case Wake(d) => BarBase(g, s, Barrier.Wake(d));
    case TimerStep => BarBase(g, s, Barrier.TimerStep);
    case StopTimer => BarBase(g, s, Barrier.StopTimer);
  }

  // ---------------------------------------------------------------------------------------------------------
  // Flags
  // ---------------------------------------------------------------------------------------------------------

  /** A CPU's step is confined to its own device, and to `finished` once `done` is set. */
  lemma CpuMoveConfined(g: Config, s: Sim, c: int)
    requires WellFormed(g, s) && Enabled(g, s, CpuStep(c)) && CpuOk(s, c)
    ensures var s' := CpuMove(g, s, c);
      && s'.done == s.done && s'.ld == s.ld && s'.added == s.added && s'.bar.time == s.bar.time
      && |s'.cpus| == |s.cpus| && |s'.bar.devs| == |s.bar.devs|
      && (s.finished ==> s'.finished) && (s'.finished ==> s.finished || s.done)
      && (forall d :: 0 <= d < |s.cpus| && d != c ==> s'.cpus[d] == s.cpus[d])
      && (forall d :: 0 <= d < |s.bar.devs| && d != c + 1 ==> s'.bar.devs[d] == s.bar.devs[d])
  {
  }

  lemma CpuMoveFlags(g: Config, s: Sim, c: int)
    requires Base(g, s) && FlagsOk(g, s) && Enabled(g, s, CpuStep(c))
    ensures FlagsOk(g, CpuMove(g, s, c))
  {
    var s' := CpuMove(g, s, c);
    assert CpuOk(s, c);
    CpuMoveConfined(g, s, c);
    ConfinedFlags(g, s, s', c);
  }

  lemma ConfinedFlags(g: Config, s: Sim, s': Sim, c: int)
    requires |s.bar.devs| == |s.cpus| + 1 && |s'.cpus| == |s.cpus| && |s'.bar.devs| == |s.bar.devs|
    requires FlagsOk(g, s) && 0 <= c < |s.cpus| && CpuOk(s', c)
    requires s'.done == s.done && s'.ld == s.ld && s'.added == s.added && s'.bar.time == s.bar.time
    requires (s.finished ==> s'.finished) && (s'.finished ==> s.finished || s.done)
    requires forall d :: 0 <= d < |s.cpus| && d != c ==> s'.cpus[d] == s.cpus[d]
    requires forall d :: 0 <= d < |s.bar.devs| && d != c + 1 ==> s'.bar.devs[d] == s.bar.devs[d]
    ensures FlagsOk(g, s')
  {
    forall d | 0 <= d < |s.cpus| ensures CpuOk(s', d) {
      assert CpuOk(s, d);
    }
  }

  lemma LoaderMoveFlags(g: Config, s: Sim)
    requires Base(g, s) && FlagsOk(g, s) && Enabled(g, s, LoaderStep)
    ensures FlagsOk(g, LoaderMove(g, s))
  {
    assert Barrier.DevOk(s.bar, 0);
    var s' := LoaderMove(g, s);
    forall d | 0 <= d < g.cpus ensures CpuOk(s', d) {
      assert CpuOk(s, d);
    }
  }

  lemma OtherFlags(g: Config, s: Sim, a: Act)
    requires Base(g, s) && FlagsOk(g, s) && Enabled(g, s, a) && !a.CpuStep? && !a.LoaderStep?
    ensures FlagsOk(g, Do(g, s, a))
  {
    var s' := Do(g, s, a);
    forall d | 0 <= d < g.cpus ensures CpuOk(s', d) {
      assert CpuOk(s, d);
    }
  }

  // ---------------------------------------------------------------------------------------------------------
  // Attendance
  // ---------------------------------------------------------------------------------------------------------

  lemma GetProcAttended(g: Config, s: Sim, c: int, idle: Loc)
    requires Base(g, s) && Attended(s) && 0 <= c < g.cpus && s.bar.devs[c + 1].phase == Barrier.Working
    ensures Attended(GetProc(g, s, c, idle))
  {
    ChooseIsWorkConserving(s.sched);
    if Choose(s.sched).Serve? {
      assert Obliged(GetProc(g, s, c, idle), c);
    }
  }

  /** A step of CPU `c` that leaves the ready queues alone and does not end an obligation. */
  lemma QuietAttended(s: Sim, s': Sim, c: int)
    requires Policy.Shaped(s.sched) && Policy.Shaped(s'.sched) && Attended(s)
    requires AllEmpty(s.sched) ==> AllEmpty(s'.sched)
    requires s'.added == s.added && s'.bar.time == s.bar.time
    requires forall d :: d != c && Obliged(s, d) ==> Obliged(s', d)
    requires Obliged(s, c) ==> Obliged(s', c)
    ensures Attended(s')
  {
    if e :| Obliged(s, e) {
      assert Obliged(s', e);
    }
  }

  lemma CpuMoveAttended(g: Config, s: Sim, c: int)
    requires Base(g, s) && FlagsOk(g, s) && Attended(s) && Enabled(g, s, CpuStep(c))
    ensures Attended(CpuMove(g, s, c))
  {
    var cpu, s' := s.cpus[c], CpuMove(g, s, c);
    CpuMoveBase(g, s, c);
    assert CpuOk(s, c);
    if cpu.loc.Fetch? {
      GetProcAttended(g, s, c, Recheck);
    } else if cpu.loc.Top? && cpu.proc.None? {
      GetProcAttended(g, s, c, IdleCheck);
    } else if cpu.loc.Top? {
      assert Obliged(s', c);
    } else {
      QuietAttended(s, s', c);
    }
  }

  /** At a tick every live CPU is inside `next_slot` and will look at the queues when it wakes; before `done` all CPUs
      are live. */
  lemma TickAttended(g: Config, s: Sim)
    requires Base(g, s) && FlagsOk(g, s) && Attended(s) && s.bar.timer.Tick?
    ensures Attended(Do(g, s, TimerStep))
  {
    var s' := Do(g, s, TimerStep);
    if LastAdd(s) == s.bar.time {
      assert CpuOk(s, 0);
      Barrier.TickMeansAllWait(s.bar, 1);
      assert Obliged(s', 0);
    } else {
      if c :| Obliged(s, c) {
        assert Obliged(s', c);
      }
    }
  }

  lemma StepSafe(g: Config, s: Sim, a: Act)
    requires Safe(g, s) && Enabled(g, s, a)
    ensures Safe(g, Do(g, s, a))
  {
    ApplyBase(g, s, a);
    match a
    case CpuStep(c) =>
      CpuMoveFlags(g, s, c);
      CpuMoveAttended(g, s, c);
    case LoaderStep =>
      LoaderMoveFlags(g, s);
      LoaderMoveBase(g, s);
      if s.ld.loc != LdAdd {
        QuietAttended(s, LoaderMove(g, s), -1);
      }
    case _ =>
      OtherFlags(g, s, a);
      if a.TimerStep? && s.bar.timer.Tick? {
        TickAttended(g, s);
      } else {
        QuietAttended(s, Do(g, s, a), -1);
      }
  }
}
