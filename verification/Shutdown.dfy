/** Shutdown safety of the simulator over all interleavings: once the loader and every CPU have stopped, no process is
    left in a ready queue or on a CPU. */
module Shutdown {
  import opened Seqs
  import opened Sched
  import Barrier
  import opened Simulator
  import opened Attendance

  function Start(g: Config): (s: Sim)
    requires ConfigOk(g)
    ensures Base(g, s)
  {
    InitSafe(g);
    Boot(g)
  }

  /** Every interleaving: a sequence of steps, each enabled in the state it meets. */
  predicate IsRun(g: Config, s: Sim, acts: seq<Act>)
    requires Base(g, s)
    decreases |acts|
  {
    acts == [] ||
    (Enabled(g, s, acts[0]) && (ApplyBase(g, s, acts[0]); IsRun(g, Do(g, s, acts[0]), acts[1..])))
  }

  function After(g: Config, s: Sim, acts: seq<Act>): (s': Sim)
    requires Base(g, s) && IsRun(g, s, acts)
    ensures Base(g, s')
    decreases |acts|
  {
    if acts == [] then s
    else
      ApplyBase(g, s, acts[0]);
      After(g, Do(g, s, acts[0]), acts[1..])
  }

  lemma {:induction false} RunSafe(g: Config, s: Sim, acts: seq<Act>)
    requires Safe(g, s) && IsRun(g, s, acts)
    ensures Safe(g, After(g, s, acts))
    decreases |acts|
  {
    if acts != [] {
      StepSafe(g, s, acts[0]);
      RunSafe(g, Do(g, s, acts[0]), acts[1..]);
    }
  }

  /** Every thread has ended. */
  predicate AllThreadsStopped(s: Sim) {
    forall d :: 0 <= d < |s.bar.devs| ==> s.bar.devs[d].phase == Barrier.Stopped
  }

  lemma SafeAtTheEnd(g: Config, s: Sim)
    requires Safe(g, s) && AllThreadsStopped(s)
    ensures AllEmpty(s.sched) && s.done && s.ld.next == |g.prio|
    ensures forall c :: 0 <= c < g.cpus ==> s.cpus[c].proc == None
  {
    assert CpuOk(s, 0);
    forall c | 0 <= c < g.cpus ensures s.cpus[c].proc == None && !Obliged(s, c) {
      assert CpuOk(s, c);
    }
  }

  /** Shutdown safety: in every run from the start, when all threads have stopped, all programs have been loaded, no
      process waits in a ready queue and no CPU holds one. */
  lemma ShutdownSafety(g: Config, acts: seq<Act>)
    requires ConfigOk(g) && IsRun(g, Start(g), acts) && AllThreadsStopped(After(g, Start(g), acts))
    ensures var s := After(g, Start(g), acts);
      AllEmpty(s.sched) && s.ld.next == |g.prio| && forall c :: 0 <= c < g.cpus ==> s.cpus[c].proc == None
  {
    InitSafe(g);
    RunSafe(g, Start(g), acts);
    SafeAtTheEnd(g, After(g, Start(g), acts));
  }

  /** In every run the timer leaves its loop only after every CPU and the loader have ended, and so only when all programs
      have been loaded, none waits and none is on a CPU. */
  lemma ExitOnlyWhenStopped(g: Config, acts: seq<Act>)
    requires ConfigOk(g) && IsRun(g, Start(g), acts) && After(g, Start(g), acts).bar.timer == Barrier.Exited
    ensures var s := After(g, Start(g), acts);
      && AllThreadsStopped(s) && AllEmpty(s.sched) && s.ld.next == |g.prio|
      && forall c :: 0 <= c < g.cpus ==> s.cpus[c].proc == None
  {
    ShutdownSafety(g, acts);
  }

  lemma CanMove(g: Config, s: Sim) returns (a: Act)
    requires Base(g, s) && !Barrier.Final(s.bar)
    ensures Enabled(g, s, a) && !a.StopTimer?
  {
    if d :| 0 <= d < |s.bar.devs| && s.bar.devs[d].phase == Barrier.Working {
      a := if d == 0 then LoaderStep else CpuStep(d - 1);
      assert Enabled(g, s, a);
    } else {
      var b := Barrier.NoDeadlock(s.bar);
      a := if b.Wake? then Wake(b.d) else TimerStep;
      assert Enabled(g, s, a);
    }
  }

  /** Deadlock freedom: in every reachable state some thread can move, unless all threads and the timer have ended. */
  lemma NoDeadlock(g: Config, acts: seq<Act>) returns (a: Act)
    requires ConfigOk(g) && IsRun(g, Start(g), acts) && !Barrier.Final(After(g, Start(g), acts).bar)
    ensures Enabled(g, After(g, Start(g), acts), a) && !a.StopTimer?
  {
    a := CanMove(g, After(g, Start(g), acts));
  }

  /** Lockstep in every reachable state: a CPU or the loader works in the current slot only, and no live device is more
      than one slot behind, and then it waits. */
  lemma Lockstep(g: Config, acts: seq<Act>, d: int, e: int)
    requires ConfigOk(g) && IsRun(g, Start(g), acts)
    requires var devs := After(g, Start(g), acts).bar.devs;
      0 <= d < |devs| && 0 <= e < |devs| && devs[d].phase == Barrier.Working && devs[e].phase != Barrier.Stopped
    ensures var bar := After(g, Start(g), acts).bar;
      && bar.devs[d].slots == bar.time
      && (bar.devs[e].slots == bar.time || (bar.devs[e].slots == bar.time - 1 && bar.devs[e].phase == Barrier.Waiting))
      && bar.timer != Barrier.Exited
  {
    var bar := After(g, Start(g), acts).bar;
    Barrier.Lockstep(bar, d, e);
  }

  /** Some CPU has left its loop. */
  ghost predicate SomeLeft(s: Sim) {
    exists c :: 0 <= c < |s.cpus| && s.cpus[c].loc == Leave
  }

  lemma StepLeft(g: Config, s: Sim, a: Act)
    requires Safe(g, s) && Enabled(g, s, a) && (s.finished ==> SomeLeft(s))
    ensures Do(g, s, a).finished ==> SomeLeft(Do(g, s, a))
  {
    var s' := Do(g, s, a);
    if a.CpuStep? {
      assert CpuOk(s, a.c);
      CpuMoveConfined(g, s, a.c);
      if s'.finished && !s.finished {
        assert s'.cpus[a.c].loc == Leave;
      }
    }
    if c :| 0 <= c < |s.cpus| && s.cpus[c].loc == Leave {
      assert s'.cpus[c].loc == Leave;
    }
  }

  lemma {:induction false} RunLeft(g: Config, s: Sim, acts: seq<Act>)
    requires Safe(g, s) && IsRun(g, s, acts) && (s.finished ==> SomeLeft(s))
    ensures After(g, s, acts).finished ==> SomeLeft(After(g, s, acts))
    decreases |acts|
  {
    if acts != [] {
      StepSafe(g, s, acts[0]);
      StepLeft(g, s, acts[0]);
      RunLeft(g, Do(g, s, acts[0]), acts[1..]);
    }
  }

  /** In every reachable state `finished` is set exactly if some CPU has left its loop: the one that sets it leaves at
      once, and no other leaves before. */
  lemma FinishedIff(g: Config, acts: seq<Act>)
    requires ConfigOk(g) && IsRun(g, Start(g), acts)
    ensures After(g, Start(g), acts).finished <==> SomeLeft(After(g, Start(g), acts))
  {
    InitSafe(g);
    RunSafe(g, Start(g), acts);
    RunLeft(g, Start(g), acts);
    var s := After(g, Start(g), acts);
    if c :| 0 <= c < |s.cpus| && s.cpus[c].loc == Leave {
      assert CpuOk(s, c);
    }
  }
}
