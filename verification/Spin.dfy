/** What shutdown does not promise: that the CPUs always stop.

    Only a CPU that finds the queues empty right after giving up a process looks at `done`; an idle CPU looks at
    `finished`, which such a CPU must have set. When the last process ends before the loader sets `done`, nobody is left
    to set `finished`, and the idle CPUs turn round for ever. `SpinEnteredIff` says which step brings that about, and
    `SpinIsReachable` is a run into it. */
module Spin {
  import opened Seqs
  import opened Sched
  import Barrier
  import opened Simulator
  import opened Attendance
  import opened Shutdown

  predicate IdleCpu(s: Sim, c: int)
    requires |s.bar.devs| == |s.cpus| + 1 && 0 <= c < |s.cpus|
  {
    && s.bar.devs[c + 1].phase != Barrier.Stopped && s.cpus[c].proc == None
    && (s.cpus[c].loc == Top || s.cpus[c].loc == IdleCheck || s.cpus[c].loc == ToNextSlot)
  }

  /** The loader is gone, nothing waits or runs, and no CPU has set `finished`. */
  predicate Spinning(g: Config, s: Sim)
    requires WellFormed(g, s)
  {
    && s.bar.devs[0].phase == Barrier.Stopped && !s.finished && AllEmpty(s.sched)
    && forall c :: 0 <= c < g.cpus ==> IdleCpu(s, c)
  }

  lemma StepSpins(g: Config, s: Sim, a: Act)
    requires Base(g, s) && Spinning(g, s) && Enabled(g, s, a)
    ensures Base(g, Do(g, s, a)) && Spinning(g, Do(g, s, a))
  {
    ApplyBase(g, s, a);
    ChooseIsWorkConserving(s.sched);
    if a.CpuStep? {
      assert IdleCpu(s, a.c);
    }
    forall c | 0 <= c < g.cpus ensures IdleCpu(Do(g, s, a), c) {
      assert IdleCpu(s, c);
    }
  }

  /** From a spinning state no run ever stops a CPU. */
  lemma {:induction false} SpinsForEver(g: Config, s: Sim, acts: seq<Act>)
    requires Base(g, s) && Spinning(g, s) && IsRun(g, s, acts)
    ensures Spinning(g, After(g, s, acts)) && !AllThreadsStopped(After(g, s, acts))
    decreases |acts|
  {
    assert IdleCpu(s, 0);
    if acts != [] {
      StepSpins(g, s, acts[0]);
      SpinsForEver(g, Do(g, s, acts[0]), acts[1..]);
    }
  }

  /** Once the loader is gone no step starts the spinning. */
  lemma SpinNotEnteredLater(g: Config, s: Sim, a: Act)
    requires Base(g, s) && FlagsOk(g, s) && Enabled(g, s, a) && s.bar.devs[0].phase == Barrier.Stopped
    requires Base(g, Do(g, s, a)) && Spinning(g, Do(g, s, a))
    ensures Spinning(g, s)
  {
    var s' := Do(g, s, a);
    ChooseIsWorkConserving(s.sched);
    if a.CpuStep? {
      CpuMoveConfined(g, s, a.c);
      assert CpuOk(s, a.c) && IdleCpu(s', a.c);
    }
    forall c | 0 <= c < g.cpus ensures IdleCpu(s, c) {
      assert IdleCpu(s', c) && CpuOk(s, c);
    }
  }

  /** Nothing waits or runs, and no CPU has set `finished`. */
  predicate Quiet(g: Config, s: Sim)
    requires WellFormed(g, s)
  {
    !s.finished && AllEmpty(s.sched) && forall c :: 0 <= c < g.cpus ==> IdleCpu(s, c)
  }

  /** The spinning starts exactly at the last step of a loader that leaves a quiet system behind, and at no other step
      of any thread. */
  lemma SpinEnteredIff(g: Config, s: Sim, a: Act)
    requires Base(g, s) && FlagsOk(g, s) && Enabled(g, s, a) && !Spinning(g, s)
    ensures Base(g, Do(g, s, a))
    ensures Spinning(g, Do(g, s, a)) <==> a == LoaderStep && s.ld.loc == LdLeave && Quiet(g, s)
  {
    ApplyBase(g, s, a);
    var s' := Do(g, s, a);
    if Spinning(g, s') {
      if s.bar.devs[0].phase == Barrier.Stopped {
        SpinNotEnteredLater(g, s, a);
        assert false;
      }
      if a.CpuStep? {
        assert CpuOk(s, a.c);
        CpuMoveConfined(g, s, a.c);
        assert false;
      }
      forall c | 0 <= c < g.cpus ensures IdleCpu(s, c) {
        assert IdleCpu(s', c);
      }
    } else if a == LoaderStep && s.ld.loc == LdLeave && Quiet(g, s) {
      forall c | 0 <= c < g.cpus ensures IdleCpu(s', c) {
        assert IdleCpu(s, c);
      }
      assert false;
    }
  }

  // ---------------------------------------------------------------------------------------------------------
  // A run that gets there: one CPU, one program of one instruction
  // ---------------------------------------------------------------------------------------------------------

  function OneProgram(): Config {
    Config(1, 1, [0], [1], [0])
  }

  lemma {:induction false} Extend(g: Config, s: Sim, acts: seq<Act>, a: Act)
    requires Base(g, s) && IsRun(g, s, acts) && Enabled(g, After(g, s, acts), a)
    ensures IsRun(g, s, acts + [a]) && After(g, s, acts + [a]) == Do(g, After(g, s, acts), a)
    decreases |acts|
  {
    if acts == [] {
      assert acts + [a] == [a] && [a][1..] == [];
      ApplyBase(g, s, a);
    } else {
      ApplyBase(g, s, acts[0]);
      assert (acts + [a])[1..] == acts[1..] + [a];
      Extend(g, Do(g, s, acts[0]), acts[1..], a);
    }
  }

  /** `t` is reached from the start of the one-program simulation. */
  ghost predicate Reached(t: Sim) {
    ConfigOk(OneProgram()) && exists acts :: Leads(acts, t)
  }

  ghost predicate Leads(acts: seq<Act>, t: Sim)
    requires ConfigOk(OneProgram())
  {
    IsRun(OneProgram(), Start(OneProgram()), acts) && After(OneProgram(), Start(OneProgram()), acts) == t
  }

  lemma ReachedSafe(s: Sim)
    requires Reached(s)
    ensures Safe(OneProgram(), s)
  {
    var g := OneProgram();
    var acts :| Leads(acts, s);
    InitSafe(g);
    RunSafe(g, Start(g), acts);
  }

  lemma Step(s: Sim, a: Act) returns (t: Sim)
    requires Reached(s) && Base(OneProgram(), s) && Enabled(OneProgram(), s, a)
    ensures Reached(t) && Base(OneProgram(), t) && t == Do(OneProgram(), s, a)
  {
    var g := OneProgram();
    var acts :| Leads(acts, s);
    t := Do(g, s, a);
    Extend(g, Start(g), acts, a);
    assert Leads(acts + [a], t);
    ApplyBase(g, s, a);
  }

  /** Where the run has got to: the loader's device, the CPU's device, the timer, the CPU, the loader, and the program
      counter of the only process; `waits` says whether that process is in its ready queue. */
  ghost predicate At(s: Sim, d0: Barrier.Device, d1: Barrier.Device, time: nat, timer: Barrier.Timer,
                     cpu: Cpu, ld: Loader, pc: int, waits: bool)
  {
    && Reached(s) && Base(OneProgram(), s)
    && !s.done && !s.finished && !s.bar.stop && s.cpus[0] == cpu && s.ld == ld && s.pc[0] == pc
    && s.bar.time == time && s.bar.timer == timer && s.bar.devs[0] == d0 && s.bar.devs[1] == d1
    && s.sched.queues == (if waits then Nobody()[0 := [0]] else Nobody())
  }

  function Nobody(): seq<seq<int>> {
    seq(MAX_PRIO, _ => [])
  }

  const BUSY := Barrier.Device(Barrier.Working, false, false, 0)
  const HELD := Barrier.Device(Barrier.Waiting, true, false, 0)
  const AWAKE := Barrier.Device(Barrier.Working, false, false, 1)

  lemma Loaded() returns (s: Sim)
    ensures At(s, BUSY, BUSY, 0, Barrier.Head, Cpu(Top, None, 0), Loader(LdNextSlot, 1), 0, true)
    ensures s.sched.slot == Full()
  {
    s := Start(OneProgram());
    assert Leads([], s);
    s := Step(s, LoaderStep);
    assert [] + [0] == [0];
    s := Step(s, LoaderStep);
  }

  /** What the dispatch does, as far as it matters here. */
  lemma DispatchOne(s: Sim)
    requires Base(OneProgram(), s) && s.cpus[0] == Cpu(Top, None, 0) && s.pc[0] == 0
    requires s.sched.queues[0] == [0] && s.sched.slot == Full()
    ensures var s' := GetProc(OneProgram(), s, 0, IdleCheck);
      && |s'.cpus| == 1 && s'.cpus[0] == Cpu(Recheck, Some(0), 0) && |s'.quantum| == 1 && s'.quantum[0] == 1
      && s'.sched.queues == s.sched.queues[0 := []]
      && s'.bar == s.bar && s'.ld == s.ld && s'.pc == s.pc && s'.done == s.done && s'.finished == s.finished
  {
    assert Scan(s.sched, 0) == 0 && Choose(s.sched) == Serve(false, 0) && Refilled(s.sched) == s.sched;
    assert Picked(s) == 0 && [0][1..] == [];
  }

  lemma Ran() returns (s: Sim)
    ensures At(s, BUSY, BUSY, 0, Barrier.Head, Cpu(ToNextSlot, Some(0), 0), Loader(LdNextSlot, 1), 1, false)
  {
    s := Loaded();
    DispatchOne(s);
    assert Nobody()[0 := [0]][0 := []] == Nobody();
    s := Step(s, CpuStep(0));
    s := Step(s, CpuStep(0));
  }

  lemma FirstSlotDone() returns (s: Sim)
    ensures At(s, HELD, HELD, 0, Barrier.Head, Cpu(Top, Some(0), 0), Loader(LdTop, 1), 1, false)
  {
    s := Ran();
    s := Step(s, CpuStep(0));
    s := Step(s, LoaderStep);
  }

  lemma Ticked() returns (s: Sim)
    ensures At(s, HELD, HELD, 1, Barrier.Release(0, false), Cpu(Top, Some(0), 0), Loader(LdTop, 1), 1, false)
  {
    s := FirstSlotDone();
    s := Step(s, TimerStep);
    s := Step(s, TimerStep);
    s := Step(s, TimerStep);
    s := Step(s, TimerStep);
    s := Step(s, TimerStep);
  }

  lemma SecondSlot() returns (s: Sim)
    ensures At(s, AWAKE, AWAKE, 1, Barrier.Head, Cpu(Top, Some(0), 0), Loader(LdTop, 1), 1, false)
  {
    s := Ticked();
    s := Step(s, TimerStep);
    s := Step(s, TimerStep);
    s := Step(s, TimerStep);
    s := Step(s, Wake(0));
    s := Step(s, Wake(1));
  }

  /** The CPU finishes the process and finds nothing, before the loader sets `done`. */
  lemma Finished() returns (s: Sim)
    ensures At(s, AWAKE, AWAKE, 1, Barrier.Head, Cpu(ToNextSlot, None, 0), Loader(LdTop, 1), 1, false)
  {
    s := SecondSlot();
    s := Step(s, CpuStep(0));
    ChooseIsWorkConserving(s.sched);
    assert AllEmpty(s.sched);
    s := Step(s, CpuStep(0));
    s := Step(s, CpuStep(0));
  }

  lemma NothingLeft() returns (s: Sim)
    ensures At(s, AWAKE, AWAKE, 1, Barrier.Head, Cpu(ToNextSlot, None, 0), Loader(LdDone, 1), 1, false)
  {
    s := Finished();
    s := Step(s, LoaderStep);
  }

  lemma DoneKeepsQuiet(g: Config, s: Sim)
    requires Base(g, s) && Quiet(g, s) && s.ld.loc == LdDone && s.bar.devs[0].phase == Barrier.Working
    ensures var s' := Do(g, s, LoaderStep); WellFormed(g, s') && Quiet(g, s') && s'.ld.loc == LdLeave && s'.bar == s.bar
  {
    forall c | 0 <= c < g.cpus ensures IdleCpu(Do(g, s, LoaderStep), c) {
      assert IdleCpu(s, c);
    }
  }

  lemma AboutToLeave() returns (s: Sim)
    ensures Reached(s) && Base(OneProgram(), s) && s.ld.loc == LdLeave && s.bar.devs[0].phase == Barrier.Working
    ensures Quiet(OneProgram(), s)
  {
    var t := NothingLeft();
    assert forall i :: 0 <= i < MAX_PRIO ==> t.sched.queues[i] == Nobody()[i];
    DoneKeepsQuiet(OneProgram(), t);
    s := Step(t, LoaderStep);
  }

  /** The simulation of one program of one instruction on one CPU has an interleaving that never stops. */
  lemma SpinIsReachable() returns (acts: seq<Act>)
    ensures ConfigOk(OneProgram()) && IsRun(OneProgram(), Start(OneProgram()), acts)
    ensures Spinning(OneProgram(), After(OneProgram(), Start(OneProgram()), acts))
  {
    var s := AboutToLeave();
    ReachedSafe(s);
    SpinEnteredIff(OneProgram(), s, LoaderStep);
    var t := Step(s, LoaderStep);
    acts :| Leads(acts, t);
  }
}
