/** Infinite interleavings: where every one of them ends, whichever thread is chosen to move.

    No fairness is asked for. A thread that does not wait runs on to the barrier of the slot, and the clock does not
    tick without it, so a schedule cannot pass it over for ever. So every schedule settles, every program runs to its
    end, and whether the threads stop is decided at the last step of the loader, whatever comes after. */
module Schedules {
  import opened Seqs
  import opened Sched
  import Barrier
  import opened Queue
  import opened Simulator
  import opened Attendance
  import opened Shutdown
  import opened Placement
  import opened Spin
  import opened Stopping

  /** The states of an infinite run, and the steps between them. */
  datatype Schedule = Schedule(state: nat -> Sim, act: nat -> Act)

  ghost predicate Goes(g: Config, s: Sim, a: Act, s': Sim) {
    Base(g, s) && Enabled(g, s, a) && s' == Do(g, s, a)
  }

  /** Any enabled step may come next. A run that has come to its end goes on with `StopTimer`, which then changes
      nothing any more. */
  ghost predicate IsSchedule(g: Config, s: Sim, sch: Schedule) {
    sch.state(0) == s && forall j: nat {:trigger sch.act(j)} :: Goes(g, sch.state(j), sch.act(j), sch.state(j + 1))
  }

  // ---------------------------------------------------------------------------------------------------------
  // What every state of a schedule keeps
  // ---------------------------------------------------------------------------------------------------------

  lemma {:induction false} AlwaysSafe(g: Config, s: Sim, sch: Schedule, n: nat)
    requires IsSchedule(g, s, sch) && Safe(g, s)
    ensures Safe(g, sch.state(n))
    decreases n
  {
    if n > 0 {
      AlwaysSafe(g, s, sch, n - 1);
      assert Goes(g, sch.state(n - 1), sch.act(n - 1), sch.state(n));
      StepSafe(g, sch.state(n - 1), sch.act(n - 1));
    }
  }

  lemma StepStaysSettled(g: Config, s: Sim, a: Act, s': Sim)
    requires Goes(g, s, a, s') && Settled(g, s)
    ensures Settled(g, s')
  {
    if Spinning(g, s) {
      StepSpins(g, s, a);
    }
  }

  lemma {:induction false} StaysSettled(g: Config, s: Sim, sch: Schedule, n: nat, m: nat)
    requires IsSchedule(g, s, sch) && n <= m && Settled(g, sch.state(n))
    ensures Settled(g, sch.state(m))
    decreases m - n
  {
    if n < m {
      var t, a, t' := sch.state(n), sch.act(n), sch.state(n + 1);
      assert Goes(g, t, a, t');
      StepStaysSettled(g, t, a, t');
      StaysSettled(g, s, sch, n + 1, m);
    }
  }

  // ---------------------------------------------------------------------------------------------------------
  // Every schedule settles
  // ---------------------------------------------------------------------------------------------------------

  lemma {:induction false} SettlesFrom(g: Config, s: Sim, sch: Schedule, k: nat, idle: bool) returns (n: nat)
    requires IsSchedule(g, s, sch) && Safe(g, sch.state(k))
    requires idle ==> LoaderGone(sch.state(k)) && IdleSlot(sch.state(k))
    ensures n >= k && Settled(g, sch.state(n))
    decreases ToLoad(g, sch.state(k)), TicksToLoad(g, sch.state(k)), Work(g, sch.state(k)), Tokens(g, sch.state(k)),
              Threads(sch.state(k)), if idle then 0 else 1, ToTick(sch.state(k))
  {
    n := k;
    if !Settled(g, sch.state(k)) {
      assert Goes(g, sch.state(k), sch.act(k), sch.state(k + 1));
      var idle' := EveryStepForward(g, sch.state(k), sch.act(k), idle);
      n := SettlesFrom(g, s, sch, k + 1, idle');
    }
  }

  /** From some moment on every infinite schedule is settled: all threads have ended, or the loader has and the CPUs
      spin. */
  lemma EveryScheduleSettles(g: Config, sch: Schedule) returns (n: nat)
    requires ConfigOk(g) && IsSchedule(g, Start(g), sch)
    ensures forall m: nat :: m >= n ==> Settled(g, sch.state(m))
  {
    InitSafe(g);
    n := SettlesFrom(g, Start(g), sch, 0, false);
    forall m: nat | m >= n ensures Settled(g, sch.state(m)) {
      StaysSettled(g, Start(g), sch, n, m);
    }
  }

  // ---------------------------------------------------------------------------------------------------------
  // Every program runs to its end
  // ---------------------------------------------------------------------------------------------------------

  /** Each list that a process joins has room, at every step. */
  ghost predicate AlwaysRoom(g: Config, sch: Schedule) {
    forall j: nat {:trigger sch.act(j)} ::
      Goes(g, sch.state(j), sch.act(j), sch.state(j + 1)) ==> Room(g, sch.state(j), sch.act(j))
  }

  lemma {:induction false} AlwaysGood(g: Config, s: Sim, sch: Schedule, n: nat)
    requires IsSchedule(g, s, sch) && Good(g, s) && (AlwaysRoom(g, sch) || |g.prio| <= MAX_QUEUE_SIZE)
    ensures Good(g, sch.state(n))
    decreases n
  {
    if n > 0 {
      AlwaysGood(g, s, sch, n - 1);
      var t, a := sch.state(n - 1), sch.act(n - 1);
      assert Goes(g, t, a, sch.state(n));
      if |g.prio| <= MAX_QUEUE_SIZE {
        FewPrograms(g, t, a);
      }
      StepGoodIff(g, t, a);
    }
  }

  /** Process `p` has been loaded and run to its end, and has been charged its length. */
  predicate Ended(g: Config, s: Sim, p: int) {
    0 <= p < |g.prio| && WellFormed(g, s) && s.place[p] == Gone && s.charged[p] == s.pc[p] == g.size[p]
  }

  /** In a settled state nothing is left to do. */
  lemma SettledMeansAllRun(g: Config, s: Sim, p: int)
    requires Good(g, s) && Settled(g, s) && 0 <= p < |g.prio|
    ensures Ended(g, s, p)
  {
    if AllThreadsStopped(s) {
      SafeAtTheEnd(g, s);
    }
    assert ProcOk(g, s, p) && QueueOk(g, s, g.prio[p]);
    assert Occ(s.sched.queues[g.prio[p]], p) == 0;
    forall c | 0 <= c < g.cpus ensures s.cpus[c].proc == None {
      assert AllThreadsStopped(s) || IdleCpu(s, c);
    }
  }

  /** Every program is loaded, runs to its end, and is charged exactly its length: in every infinite schedule in which
      each list that a process joins has room, and so in every one of at most MAX_QUEUE_SIZE programs. This needs
      nothing of the CPUs' stopping. */
  lemma EveryProgramRuns(g: Config, sch: Schedule, p: int) returns (n: nat)
    requires ConfigOk(g) && IsSchedule(g, Start(g), sch) && 0 <= p < |g.prio|
    requires AlwaysRoom(g, sch) || |g.prio| <= MAX_QUEUE_SIZE
    ensures forall m: nat :: m >= n ==> Ended(g, sch.state(m), p)
  {
    n := EveryScheduleSettles(g, sch);
    InitSafe(g);
    forall m: nat | m >= n ensures Ended(g, sch.state(m), p) {
      AlwaysGood(g, Start(g), sch, m);
      SettledMeansAllRun(g, sch.state(m), p);
    }
  }

  // ---------------------------------------------------------------------------------------------------------
  // When the threads stop
  // ---------------------------------------------------------------------------------------------------------

  /** The loader's last step, in a system with nothing to run and `finished` clear. */
  predicate LeavesQuiet(g: Config, s: Sim, a: Act) {
    WellFormed(g, s) && a == LoaderStep && s.ld.loc == LdLeave && Quiet(g, s)
  }

  ghost predicate NeverLeavesQuiet(g: Config, sch: Schedule) {
    forall j: nat {:trigger sch.act(j)} :: !LeavesQuiet(g, sch.state(j), sch.act(j))
  }

  lemma {:induction false} NeverSpins(g: Config, s: Sim, sch: Schedule, n: nat)
    requires IsSchedule(g, s, sch) && Safe(g, s) && !Spinning(g, s)
    requires NeverLeavesQuiet(g, sch)
    ensures Base(g, sch.state(n)) && !Spinning(g, sch.state(n))
    decreases n
  {
    if n > 0 {
      var t, a := sch.state(n - 1), sch.act(n - 1);
      NeverSpins(g, s, sch, n - 1);
      AlwaysSafe(g, s, sch, n - 1);
      assert Goes(g, t, a, sch.state(n));
      SpinEnteredIff(g, t, a);
    }
  }

  lemma {:induction false} StaysGone(g: Config, s: Sim, sch: Schedule, n: nat)
    requires IsSchedule(g, s, sch) && Safe(g, s) && LoaderGone(s)
    ensures LoaderGone(sch.state(n))
    decreases n
  {
    if n > 0 {
      var t, a := sch.state(n - 1), sch.act(n - 1);
      StaysGone(g, s, sch, n - 1);
      AlwaysSafe(g, s, sch, n - 1);
      assert Goes(g, t, a, sch.state(n));
      if a.CpuStep? {
        assert CpuOk(t, a.c);
        CpuMoveConfined(g, t, a.c);
      }
    }
  }

  lemma {:induction false} AlwaysSpins(g: Config, s: Sim, sch: Schedule, k: nat, n: nat)
    requires IsSchedule(g, s, sch) && k <= n && WellFormed(g, sch.state(k)) && Spinning(g, sch.state(k))
    ensures WellFormed(g, sch.state(n)) && Spinning(g, sch.state(n))
    decreases n
  {
    if n > k {
      var t, a := sch.state(n - 1), sch.act(n - 1);
      AlwaysSpins(g, s, sch, k, n - 1);
      assert Goes(g, t, a, sch.state(n));
      StepSpins(g, t, a);
    }
  }

  ghost predicate Stops(sch: Schedule) {
    exists n: nat :: AllThreadsStopped(sch.state(n))
  }

  /** A schedule that never comes to spin stops. */
  lemma NoQuietEndStops(g: Config, s: Sim, sch: Schedule)
    requires IsSchedule(g, s, sch) && Safe(g, s) && !Spinning(g, s)
    requires NeverLeavesQuiet(g, sch)
    ensures Stops(sch)
  {
    assert sch.state(0) == s;
    var n := SettlesFrom(g, s, sch, 0, false);
    NeverSpins(g, s, sch, n);
  }

  /** A schedule whose loader leaves a quiet system does not stop. */
  lemma QuietEndSpins(g: Config, sch: Schedule, j: nat)
    requires ConfigOk(g) && IsSchedule(g, Start(g), sch) && LeavesQuiet(g, sch.state(j), sch.act(j))
    ensures !Stops(sch)
  {
    var t, a := sch.state(j), sch.act(j);
    InitSafe(g);
    AlwaysSafe(g, Start(g), sch, j);
    assert Goes(g, t, a, sch.state(j + 1));
    assert t.bar.devs[0].phase == Barrier.Working;
    SpinEnteredIff(g, t, a);
    forall n: nat ensures !AllThreadsStopped(sch.state(n)) {
      if n <= j {
        if AllThreadsStopped(sch.state(n)) {
          StaysSettled(g, Start(g), sch, n, j);
          assert false;
        }
      } else {
        AlwaysSpins(g, Start(g), sch, j + 1, n);
        assert IdleCpu(sch.state(n), 0);
      }
    }
  }

  /** Which schedules from the start stop every thread: exactly those whose loader does not leave a quiet system behind. */
  lemma ScheduleStopsIff(g: Config, sch: Schedule)
    requires ConfigOk(g) && IsSchedule(g, Start(g), sch)
    ensures Stops(sch) <==> NeverLeavesQuiet(g, sch)
  {
    if NeverLeavesQuiet(g, sch) {
      InitSafe(g);
      NoQuietEndStops(g, Start(g), sch);
    } else {
      var j: nat :| LeavesQuiet(g, sch.state(j), sch.act(j));
      QuietEndSpins(g, sch, j);
    }
  }

  lemma SomeStep(g: Config, s: Sim)
    requires Base(g, s)
    ensures exists a :: Enabled(g, s, a)
  {
    if Barrier.Final(s.bar) {
      assert Enabled(g, s, StopTimer);
    } else {
      var a := CanMove(g, s);
    }
  }

  /** The states of one infinite run. */
  ghost function Nth(g: Config, s: Sim, n: nat): (t: Sim)
    requires Base(g, s)
    ensures Base(g, t)
  {
    if n == 0 then s
    else
      var t := Nth(g, s, n - 1);
      ApplyBase(g, t, Pick(g, t));
      Do(g, t, Pick(g, t))
  }

  ghost function Pick(g: Config, s: Sim): (a: Act)
    requires Base(g, s)
    ensures Enabled(g, s, a)
  {
    SomeStep(g, s);
    var a :| Enabled(g, s, a);
    a
  }

  lemma SomeSchedule(g: Config, s: Sim) returns (sch: Schedule)
    requires Base(g, s)
    ensures IsSchedule(g, s, sch)
  {
    sch := Schedule((n: nat) => Nth(g, s, n), (n: nat) => Pick(g, Nth(g, s, n)));
  }

  /** From a reachable state whose loader is gone every infinite schedule stops every thread, exactly if the CPUs are not
      spinning there. */
  lemma EveryScheduleStopsIff(g: Config, acts: seq<Act>)
    requires ConfigOk(g) && IsRun(g, Start(g), acts) && LoaderGone(After(g, Start(g), acts))
    ensures var s := After(g, Start(g), acts);
      (forall sch :: IsSchedule(g, s, sch) ==> Stops(sch)) <==> !Spinning(g, s)
  {
    var s := After(g, Start(g), acts);
    InitSafe(g);
    RunSafe(g, Start(g), acts);
    if Spinning(g, s) {
      var sch := SomeSchedule(g, s);
      forall n: nat ensures !AllThreadsStopped(sch.state(n)) {
        AlwaysSpins(g, s, sch, 0, n);
        assert IdleCpu(sch.state(n), 0);
      }
    } else {
      forall sch | IsSchedule(g, s, sch) ensures Stops(sch) {
        forall j: nat ensures !LeavesQuiet(g, sch.state(j), sch.act(j)) {
          StaysGone(g, s, sch, j);
          assert Goes(g, sch.state(j), sch.act(j), sch.state(j + 1));
        }
        NoQuietEndStops(g, s, sch);
      }
    }
  }

  // ---------------------------------------------------------------------------------------------------------
  // Finite runs that stop
  // ---------------------------------------------------------------------------------------------------------

  /** A finite run followed by the first `n` steps of a schedule. */
  lemma {:induction false} Prefix(g: Config, s: Sim, first: seq<Act>, sch: Schedule, n: nat) returns (acts: seq<Act>)
    requires Base(g, s) && IsRun(g, s, first) && IsSchedule(g, After(g, s, first), sch)
    ensures IsRun(g, s, acts) && After(g, s, acts) == sch.state(n)
    decreases n
  {
    if n == 0 {
      acts := first;
    } else {
      var most := Prefix(g, s, first, sch, n - 1);
      assert Goes(g, sch.state(n - 1), sch.act(n - 1), sch.state(n));
      acts := most + [sch.act(n - 1)];
      Extend(g, s, most, sch.act(n - 1));
    }
  }

  /** The loader of the one-program simulation is faster than the CPU, which still holds the process. */
  lemma LoaderLeaving() returns (s: Sim)
    ensures Reached(s) && Base(OneProgram(), s) && s.ld == Loader(LdLeave, 1) && s.cpus[0].proc.Some?
    ensures s.bar.devs[0] == AWAKE
  {
    s := SecondSlot();
    s := Spin.Step(s, LoaderStep);
    s := Spin.Step(s, LoaderStep);
  }

  lemma LoaderLeft() returns (s: Sim)
    ensures Reached(s) && Base(OneProgram(), s) && s.bar.devs[0].phase == Barrier.Stopped && s.cpus[0].proc.Some?
  {
    var t := LoaderLeaving();
    s := Spin.Step(t, LoaderStep);
    assert s.cpus == t.cpus && s.bar == Barrier.Apply(t.bar, Barrier.Detach(0));
  }

  /** The simulation of one program of one instruction on one CPU, which can spin, has an interleaving that stops. */
  lemma StopIsReachable() returns (acts: seq<Act>)
    ensures ConfigOk(OneProgram()) && IsRun(OneProgram(), Start(OneProgram()), acts)
    ensures AllThreadsStopped(After(OneProgram(), Start(OneProgram()), acts))
  {
    var g := OneProgram();
    var s := LoaderLeft();
    var first :| Leads(first, s);
    assert !IdleCpu(s, 0);
    EveryScheduleStopsIff(g, first);
    var sch := SomeSchedule(g, s);
    var n: nat :| AllThreadsStopped(sch.state(n));
    acts := Prefix(g, Start(g), first, sch, n);
  }
}
