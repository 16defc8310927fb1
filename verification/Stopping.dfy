/** Why the simulator settles: what every step of every thread brings nearer.

    A lexicographic order: programs still to be loaded, ticks until the next one is, instructions left, processes in
    queues and on CPUs weighed by what they still have to do, threads running, and steps to the next tick. Every step
    of whatever thread lowers it, except a tick after the loader has gone; and a whole slot in which none of the others
    falls is one of a spinning system. */
module Stopping {
  import opened Seqs
  import opened Sched
  import Policy = Sched
  import Barrier
  import Queue
  import opened Simulator
  import opened Attendance
  import opened Shutdown
  import opened Spin

  // ---------------------------------------------------------------------------------------------------------
  // Sums
  // ---------------------------------------------------------------------------------------------------------

  function Add(xs: seq<nat>): nat {
    if xs == [] then 0 else xs[0] + Add(xs[1..])
  }

  lemma {:induction false} AddUpdate(xs: seq<nat>, i: int, x: nat)
    requires 0 <= i < |xs|
    ensures Add(xs[i := x]) + xs[i] == Add(xs) + x
  {
    if i == 0 {
      assert xs[i := x][1..] == xs[1..];
    } else {
      assert xs[i := x][1..] == xs[1..][i - 1 := x];
      AddUpdate(xs[1..], i - 1, x);
    }
  }

  // ---------------------------------------------------------------------------------------------------------
  // The measure
  // ---------------------------------------------------------------------------------------------------------

  function PcLeft(size: seq<int>, pc: seq<int>): seq<nat>
    requires |size| == |pc| && forall p :: 0 <= p < |pc| ==> pc[p] <= size[p]
  {
    seq(|pc|, p requires 0 <= p < |pc| && pc[p] <= size[p] => size[p] - pc[p])
  }

  /** Instructions left in all programs. */
  ghost function Work(g: Config, s: Sim): nat
    requires Base(g, s)
  {
    Add(PcLeft(g.size, s.pc))
  }

  function Lengths(queues: seq<seq<int>>): seq<nat> {
    seq(|queues|, i requires 0 <= i < |queues| => |queues[i]|)
  }

  /** A process to be run first has weight 2; one that is to be put back 4; one that has ended 1. A waiting one counts
      3. */
  function Weight(g: Config, pc: seq<int>, cpu: Cpu): nat
    requires |pc| == |g.size| && (cpu.proc.Some? ==> 0 <= cpu.proc.value < |pc|)
  {
    match cpu.proc
    case None => 0
    case Some(p) => if cpu.loc == Recheck then 2 else if pc[p] >= g.size[p] then 1 else 4
  }

  function Weights(g: Config, s: Sim): seq<nat>
    requires WellFormed(g, s)
  {
    seq(g.cpus, c requires 0 <= c < g.cpus => Weight(g, s.pc, s.cpus[c]))
  }

  function Tokens(g: Config, s: Sim): nat
    requires WellFormed(g, s)
  {
    3 * Add(Lengths(s.sched.queues)) + Add(Weights(g, s))
  }

  function Alive(b: Barrier.Barrier): seq<nat> {
    seq(|b.devs|, d requires 0 <= d < |b.devs| => if b.devs[d].phase == Barrier.Stopped then 0 else 1)
  }

  function Threads(s: Sim): nat {
    Add(Alive(s.bar))
  }

  function LocRank(loc: Loc): nat {
    match loc
    case Top => 10
    case Fetch => 10
    case Recheck => 9
    case IdleCheck => 8
    case SetFinished => 8
    case Leave => 7
    case ToNextSlot => 2
  }

  function LoaderRank(loc: LdLoc): nat {
    match loc
    case LdTop => 10
    case LdAdd => 9
    case LdDone => 9
    case LdLeave => 8
    case LdNextSlot => 2
  }

  /** How far device `d` is from waiting in `next_slot` for the coming tick. */
  function DevRank(s: Sim, d: int): nat
    requires 0 <= d < |s.bar.devs| == |s.cpus| + 1
  {
    var v := s.bar.devs[d];
    if v.phase == Barrier.Stopped then 0
    else if v.phase == Barrier.Waiting then
      if !v.done then 11 else if Barrier.Unreleased(s.bar.timer, d) then 12 else 1
    else if d == 0 then LoaderRank(s.ld.loc)
    else LocRank(s.cpus[d - 1].loc)
  }

  function DevRanks(s: Sim): seq<nat>
    requires |s.bar.devs| == |s.cpus| + 1
  {
    seq(|s.bar.devs|, d requires 0 <= d < |s.bar.devs| => DevRank(s, d))
  }

  function TimerRank(b: Barrier.Barrier): nat {
    var n := |b.devs|;
    match b.timer
    case Head => n + 2
    case Collect(k, _) => if k <= n then 1 + n - k else 0
    case Tick(_) => 0
    case Release(k, _) => if k <= n then n + 3 + n - k else 0
    case Exited => 0
  }

  function ToTick(s: Sim): nat
    requires |s.bar.devs| == |s.cpus| + 1
  {
    Add(DevRanks(s)) + TimerRank(s.bar)
  }

  predicate LoaderGone(s: Sim) {
    |s.bar.devs| > 0 && s.bar.devs[0].phase == Barrier.Stopped
  }

  /** Programs still to be loaded. */
  function ToLoad(g: Config, s: Sim): nat
    requires WellFormed(g, s)
  {
    |g.prio| - s.ld.next
  }

  /** Ticks that the loader still has to wait for before it loads the next program or ends. */
  function TicksToLoad(g: Config, s: Sim): nat
    requires WellFormed(g, s)
  {
    var v, i := s.bar.devs[0], s.ld.next;
    var early := if i < |g.prio| && s.bar.time < g.start[i] then g.start[i] - s.bar.time else 0;
    if early > 0 then early
    else if v.phase == Barrier.Working && s.ld.loc == LdNextSlot then 1
    else if v.phase == Barrier.Waiting && v.slots == s.bar.time then 1
    else 0
  }

  /** Less is left to do, before counting steps to the tick. */
  ghost predicate Nearer(g: Config, s: Sim, s': Sim)
    requires Base(g, s) && Base(g, s')
  {
    Work(g, s') < Work(g, s) ||
    (Work(g, s') == Work(g, s) &&
     (Tokens(g, s') < Tokens(g, s) || (Tokens(g, s') == Tokens(g, s) && Threads(s') < Threads(s))))
  }

  ghost predicate Level(g: Config, s: Sim, s': Sim)
    requires Base(g, s) && Base(g, s')
  {
    Work(g, s') == Work(g, s) && Tokens(g, s') == Tokens(g, s) && Threads(s') == Threads(s)
  }

  // ---------------------------------------------------------------------------------------------------------
  // Steps of a CPU
  // ---------------------------------------------------------------------------------------------------------

  ghost predicate Sound(g: Config, s: Sim) {
    Base(g, s) && FlagsOk(g, s)
  }

  lemma LengthsChange(queues: seq<seq<int>>, i: int, q: seq<int>)
    requires 0 <= i < |queues|
    ensures Add(Lengths(queues[i := q])) + |queues[i]| == Add(Lengths(queues)) + |q|
  {
    var lens := Lengths(queues);
    assert Lengths(queues[i := q]) == lens[i := |q|];
    AddUpdate(lens, i, |q|);
  }

  lemma WeightsChange(g: Config, s: Sim, s': Sim, c: int)
    requires WellFormed(g, s) && WellFormed(g, s') && 0 <= c < g.cpus && s'.pc == s.pc
    requires s'.cpus == s.cpus[c := s'.cpus[c]]
    ensures Add(Weights(g, s')) + Weight(g, s.pc, s.cpus[c]) == Add(Weights(g, s)) + Weight(g, s.pc, s'.cpus[c])
  {
    var was := Weights(g, s);
    assert Weights(g, s') == was[c := Weight(g, s.pc, s'.cpus[c])];
    AddUpdate(was, c, Weight(g, s.pc, s'.cpus[c]));
  }

  /** A CPU that holds `p` runs an instruction of it: one less is left. */
  lemma RunIsNearer(g: Config, s: Sim, c: int, p: int, left: int)
    requires Base(g, s) && 0 <= c < g.cpus && 0 <= p < |g.prio| && s.cpus[c].proc == Some(p)
    requires s.cpus[c].loc == Recheck || s.pc[p] < g.size[p]
    ensures Base(g, RunProc(g, s, c, p, left)) && Nearer(g, s, RunProc(g, s, c, p, left))
  {
    var s' := RunProc(g, s, c, p, left);
    if s.pc[p] < g.size[p] {
      var was, now := PcLeft(g.size, s.pc), PcLeft(g.size, s'.pc);
      assert now == was[p := was[p] - 1];
      AddUpdate(was, p, was[p] - 1);
    } else {
      WeightsChange(g, s, s', c);
    }
  }

  /** A dispatch. */
  lemma DispatchIsNearer(g: Config, s: Sim, c: int, idle: Loc)
    requires Base(g, s) && 0 <= c < g.cpus && s.cpus[c].proc == None && Choose(s.sched).Serve?
    requires Base(g, GetProc(g, s, c, idle))
    ensures Nearer(g, s, GetProc(g, s, c, idle))
  {
    var s' := GetProc(g, s, c, idle);
    ChooseIsWorkConserving(s.sched);
    var j := Choose(s.sched).queue;
    assert s'.sched.queues == s.sched.queues[j := s.sched.queues[j][1..]];
    LengthsChange(s.sched.queues, j, s.sched.queues[j][1..]);
    WeightsChange(g, s, s', c);
  }

  /** One device gets nearer to the tick or further from it. */
  lemma RankChange(s: Sim, s': Sim, d: int)
    requires |s.bar.devs| == |s'.bar.devs| == |s.cpus| + 1 == |s'.cpus| + 1 && 0 <= d < |s.bar.devs|
    requires forall e :: 0 <= e < |s.bar.devs| && e != d ==> DevRank(s', e) == DevRank(s, e)
    ensures Add(DevRanks(s')) + DevRank(s, d) == Add(DevRanks(s)) + DevRank(s', d)
  {
    var was, rank := DevRanks(s), DevRank(s', d);
    assert DevRanks(s') == was[d := rank];
    AddUpdate(was, d, rank);
  }

  /** A step of CPU `c` that changes only where it is. */
  lemma MoveIsNearerTick(g: Config, s: Sim, s': Sim, c: int)
    requires Base(g, s) && Base(g, s') && 0 <= c < g.cpus && s'.pc == s.pc && s'.sched.queues == s.sched.queues
    requires s'.ld == s.ld && s'.cpus == s.cpus[c := s'.cpus[c]] && s'.bar.timer == s.bar.timer && |s'.bar.devs| == |s.bar.devs|
    requires forall d :: 0 <= d < |s.bar.devs| && d != c + 1 ==> s'.bar.devs[d] == s.bar.devs[d]
    requires s'.bar.devs[c + 1].phase != Barrier.Stopped && s.bar.devs[c + 1].phase != Barrier.Stopped
    requires s'.cpus[c].proc == s.cpus[c].proc && Weight(g, s.pc, s'.cpus[c]) == Weight(g, s.pc, s.cpus[c])
    requires DevRank(s', c + 1) < DevRank(s, c + 1)
    ensures Level(g, s, s') && ToTick(s') < ToTick(s)
  {
    WeightsChange(g, s, s', c);
    assert Alive(s'.bar) == Alive(s.bar);
    RankChange(s, s', c + 1);
  }

  /** The next step of CPU `c` does something for a process, or ends the thread. */
  predicate Busy(g: Config, s: Sim, c: int)
    requires WellFormed(g, s) && 0 <= c < g.cpus
  {
    var cpu := s.cpus[c];
    match cpu.loc
    case Top => cpu.proc.Some? || Choose(s.sched).Serve?
    case Fetch => Choose(s.sched).Serve?
    case Recheck => cpu.proc.Some?
    case Leave => true
    case _ => false
  }

  lemma BusyForward(g: Config, s: Sim, c: int)
    requires Sound(g, s) && Enabled(g, s, CpuStep(c)) && Base(g, CpuMove(g, s, c)) && Busy(g, s, c)
    ensures Nearer(g, s, CpuMove(g, s, c))
  {
    var cpu, s' := s.cpus[c], CpuMove(g, s, c);
    assert CpuOk(s, c);
    if cpu.proc.Some? && cpu.loc != Leave {
      var p := cpu.proc.value;
      if cpu.loc == Top && (s.pc[p] >= g.size[p] || cpu.timeLeft == 0) {
        WeightsChange(g, s, s', c);
        if s.pc[p] < g.size[p] {
          var i := g.prio[p];
          LengthsChange(s.sched.queues, i, Queue.Enqueued(s.sched.queues[i], p));
        }
      } else {
        RunIsNearer(g, s, c, p, if cpu.timeLeft == 0 then s.quantum[p] else cpu.timeLeft);
      }
    } else if cpu.loc == Leave {
      var was := Alive(s.bar);
      assert Alive(s'.bar) == was[c + 1 := 0];
      AddUpdate(was, c + 1, 0);
      assert Weights(g, s') == Weights(g, s);
    } else {
      DispatchIsNearer(g, s, c, if cpu.loc == Top then IdleCheck else Recheck);
    }
  }

  lemma SignalForward(g: Config, s: Sim, c: int)
    requires Sound(g, s) && Enabled(g, s, CpuStep(c)) && Base(g, CpuMove(g, s, c)) && s.cpus[c].loc == ToNextSlot
    ensures Level(g, s, CpuMove(g, s, c)) && ToTick(CpuMove(g, s, c)) < ToTick(s)
  {
    assert Barrier.DevOk(s.bar, c + 1);
    MoveIsNearerTick(g, s, CpuMove(g, s, c), c);
  }

  lemma OtherwiseForward(g: Config, s: Sim, c: int)
    requires Sound(g, s) && Enabled(g, s, CpuStep(c)) && Base(g, CpuMove(g, s, c)) && !Busy(g, s, c)
    ensures Level(g, s, CpuMove(g, s, c)) && ToTick(CpuMove(g, s, c)) < ToTick(s)
  {
    assert CpuOk(s, c);
    if s.cpus[c].loc == ToNextSlot {
      SignalForward(g, s, c);
    } else {
      assert CpuMove(g, s, c).bar == s.bar;
      MoveIsNearerTick(g, s, CpuMove(g, s, c), c);
    }
  }

  // ---------------------------------------------------------------------------------------------------------
  // Steps of the timer
  // ---------------------------------------------------------------------------------------------------------

  /** A step that changes nothing but the barrier and the loader's own state, and ends no thread. */
  lemma BarrierStepLevel(g: Config, s: Sim, s': Sim)
    requires Base(g, s) && Base(g, s') && s' == s.(bar := s'.bar, ld := s'.ld, done := s'.done)
    requires |s'.bar.devs| == |s.bar.devs|
    requires forall d :: 0 <= d < |s.bar.devs| ==>
               (s'.bar.devs[d].phase == Barrier.Stopped <==> s.bar.devs[d].phase == Barrier.Stopped)
    ensures Level(g, s, s')
  {
    assert Alive(s'.bar) == Alive(s.bar);
  }

  lemma WakeForward(g: Config, s: Sim, d: int)
    requires Sound(g, s) && Enabled(g, s, Wake(d)) && Base(g, Do(g, s, Wake(d)))
    ensures Level(g, s, Do(g, s, Wake(d))) && ToTick(Do(g, s, Wake(d))) < ToTick(s)
  {
    var s' := Do(g, s, Wake(d));
    BarrierStepLevel(g, s, s');
    assert d > 0 ==> CpuOk(s, d - 1);
    RankChange(s, s', d);
  }

  /** The timer takes a step that touches no device. */
  lemma TimerAlone(g: Config, s: Sim)
    requires Sound(g, s) && Enabled(g, s, TimerStep) && !s.bar.timer.Tick?
    requires s.bar.timer.Release? ==> s.bar.timer.next >= |s.bar.devs|
    ensures var s' := s.(bar := Barrier.TimerMove(s.bar)); |s'.bar.devs| == |s.bar.devs| && ToTick(s') < ToTick(s)
  {
    var s' := s.(bar := Barrier.TimerMove(s.bar));
    assert s'.bar.devs == s.bar.devs;
    assert DevRanks(s') == DevRanks(s);
  }

  lemma TimerForward(g: Config, s: Sim)
    requires Sound(g, s) && Enabled(g, s, TimerStep) && !s.bar.timer.Tick? && Base(g, Do(g, s, TimerStep))
    ensures Level(g, s, Do(g, s, TimerStep)) && ToTick(Do(g, s, TimerStep)) < ToTick(s)
  {
    BarrierStepLevel(g, s, Do(g, s, TimerStep));
    if s.bar.timer.Release? && s.bar.timer.next < |s.bar.devs| {
      assert Barrier.DevOk(s.bar, s.bar.timer.next);
      RankChange(s, s.(bar := Barrier.TimerMove(s.bar)), s.bar.timer.next);
    } else {
      TimerAlone(g, s);
    }
  }

  // ---------------------------------------------------------------------------------------------------------
  // A slot in which nothing happens
  // ---------------------------------------------------------------------------------------------------------

  /** CPU `c` has done something since the last tick. */
  predicate Acted(s: Sim, c: int)
    requires |s.bar.devs| == |s.cpus| + 1 && 0 <= c < |s.cpus|
  {
    var v := s.bar.devs[c + 1];
    if v.phase == Barrier.Working then s.cpus[c].loc != Top
    else v.phase == Barrier.Waiting && v.done && !Barrier.Unreleased(s.bar.timer, c + 1)
  }

  /** If it has, it looked for a process in vain, and it did not find `finished` set before it went to wait. */
  predicate InVain(s: Sim, c: int)
    requires |s.bar.devs| == |s.cpus| + 1 && 0 <= c < |s.cpus| && Policy.Shaped(s.sched)
  {
    var cpu := s.cpus[c];
    if !Acted(s, c) then s.bar.devs[c + 1].phase == Barrier.Stopped || cpu.loc == Top
    else
      && cpu.proc == None && AllEmpty(s.sched)
      && (cpu.loc == IdleCheck || cpu.loc == Leave || ((cpu.loc == ToNextSlot || cpu.loc == Top) && !s.finished))
  }

  ghost predicate IdleSlot(s: Sim)
    requires |s.bar.devs| == |s.cpus| + 1 && Policy.Shaped(s.sched)
  {
    forall c :: 0 <= c < |s.cpus| ==> InVain(s, c)
  }

  /** At a tick a new slot starts. */
  lemma TickStartsSlot(g: Config, s: Sim)
    requires Sound(g, s) && s.bar.timer.Tick? && Base(g, Do(g, s, TimerStep))
    ensures IdleSlot(Do(g, s, TimerStep)) && Level(g, s, Do(g, s, TimerStep))
  {
    var s' := Do(g, s, TimerStep);
    BarrierStepLevel(g, s, s');
    forall c | 0 <= c < g.cpus ensures InVain(s', c) {
      assert CpuOk(s, c);
      if s.bar.devs[c + 1].phase != Barrier.Stopped {
        Barrier.TickMeansAllWait(s.bar, c + 1);
      }
    }
  }

  /** When the next tick comes and the slot was idle, the simulator is spinning, unless all threads have ended. */
  lemma IdleSlotSpins(g: Config, s: Sim)
    requires Sound(g, s) && LoaderGone(s) && IdleSlot(s) && s.bar.timer.Tick? && !AllThreadsStopped(s)
    ensures Spinning(g, s)
  {
    var e :| 0 <= e < |s.bar.devs| && s.bar.devs[e].phase != Barrier.Stopped;
    Barrier.TickMeansAllWait(s.bar, e);
    assert CpuOk(s, e - 1) && InVain(s, e - 1);
    forall c | 0 <= c < g.cpus ensures IdleCpu(s, c) {
      assert CpuOk(s, c) && InVain(s, c);
      if s.bar.devs[c + 1].phase != Barrier.Stopped {
        Barrier.TickMeansAllWait(s.bar, c + 1);
      }
    }
  }

  lemma CpuStepIdle(g: Config, s: Sim, c: int)
    requires Sound(g, s) && Enabled(g, s, CpuStep(c)) && Base(g, CpuMove(g, s, c)) && IdleSlot(s) && !Busy(g, s, c)
    ensures IdleSlot(CpuMove(g, s, c))
  {
    var s' := CpuMove(g, s, c);
    assert CpuOk(s, c) && InVain(s, c) && Barrier.DevOk(s.bar, c + 1);
    CpuMoveConfined(g, s, c);
    ChooseIsWorkConserving(s.sched);
    assert s'.finished == s.finished && (AllEmpty(s.sched) ==> AllEmpty(s'.sched)) && s'.bar.timer == s.bar.timer;
    forall d | 0 <= d < g.cpus ensures InVain(s', d) {
      assert InVain(s, d);
    }
  }

  lemma BarrierStepIdle(g: Config, s: Sim, a: Act)
    requires Sound(g, s) && Enabled(g, s, a) && IdleSlot(s)
    requires a.Wake? || (a.TimerStep? && !s.bar.timer.Tick?)
    ensures |Do(g, s, a).bar.devs| == |s.bar.devs| && IdleSlot(Do(g, s, a))
  {
    var s' := Do(g, s, a);
    forall c | 0 <= c < g.cpus ensures InVain(s', c) {
      assert InVain(s, c) && CpuOk(s, c) && Barrier.DevOk(s.bar, c + 1);
    }
  }

  // ---------------------------------------------------------------------------------------------------------
  // Steps of the loader
  // ---------------------------------------------------------------------------------------------------------

  /** No step but an arrival lowers the number of programs to load, and none but a tick the ticks to wait for. */
  lemma LoaderWaits(g: Config, s: Sim, a: Act)
    requires Sound(g, s) && Enabled(g, s, a) && Base(g, Do(g, s, a))
    requires !(a == LoaderStep && s.ld.loc == LdAdd) && !(a == TimerStep && s.bar.timer.Tick?)
    ensures ToLoad(g, Do(g, s, a)) == ToLoad(g, s) && TicksToLoad(g, Do(g, s, a)) == TicksToLoad(g, s)
  {
    assert Barrier.DevOk(s.bar, 0);
    if a.CpuStep? {
      assert CpuOk(s, a.c);
      CpuMoveConfined(g, s, a.c);
    }
  }

  /** The loader takes another step without loading. */
  lemma LoaderForward(g: Config, s: Sim)
    requires Sound(g, s) && Enabled(g, s, LoaderStep) && s.ld.loc != LdAdd && s.ld.loc != LdLeave
    requires Base(g, LoaderMove(g, s))
    ensures Level(g, s, LoaderMove(g, s)) && ToTick(LoaderMove(g, s)) < ToTick(s)
  {
    var s' := LoaderMove(g, s);
    BarrierStepLevel(g, s, s');
    assert Barrier.DevOk(s.bar, 0);
    RankChange(s, s', 0);
  }

  // ---------------------------------------------------------------------------------------------------------
  // Every step
  // ---------------------------------------------------------------------------------------------------------

  /** All threads have ended, or the CPUs spin. */
  predicate Settled(g: Config, s: Sim) {
    AllThreadsStopped(s) || (WellFormed(g, s) && Spinning(g, s))
  }

  /** What is left in `s'` is less than in `s`. `idle` and `idle'` say that the slot has been idle so far, with the loader
      gone. */
  ghost predicate Less(g: Config, s: Sim, idle: bool, s': Sim, idle': bool)
    requires Base(g, s) && Base(g, s')
  {
    ToLoad(g, s') < ToLoad(g, s) ||
    (ToLoad(g, s') == ToLoad(g, s) &&
     (TicksToLoad(g, s') < TicksToLoad(g, s) ||
      (TicksToLoad(g, s') == TicksToLoad(g, s) &&
       (Nearer(g, s, s') ||
        (Level(g, s, s') && ((!idle && idle') || (idle == idle' && ToTick(s') < ToTick(s))))))))
  }

  /** Every tick the loader lives to see brings it nearer to loading the next program, or to its end; the first one after
      that starts a slot that may be idle. */
  lemma TickForward(g: Config, s: Sim, idle: bool) returns (idle': bool)
    requires Sound(g, s) && s.bar.timer.Tick? && !Settled(g, s) && (idle ==> LoaderGone(s) && IdleSlot(s))
    requires Sound(g, Do(g, s, TimerStep))
    ensures var s' := Do(g, s, TimerStep);
      (idle' ==> LoaderGone(s') && IdleSlot(s')) && Less(g, s, idle, s', idle')
  {
    TickStartsSlot(g, s);
    idle' := LoaderGone(s);
    if !LoaderGone(s) {
      Barrier.TickMeansAllWait(s.bar, 0);
    } else if idle {
      IdleSlotSpins(g, s);
      assert false;
    }
  }

  /** Whatever thread takes the next step, less is left, until the simulator has settled. */
  lemma EveryStepForward(g: Config, s: Sim, a: Act, idle: bool) returns (idle': bool)
    requires Safe(g, s) && Enabled(g, s, a) && !Settled(g, s) && (idle ==> LoaderGone(s) && IdleSlot(s))
    ensures var s' := Do(g, s, a);
      Safe(g, s') && (idle' ==> LoaderGone(s') && IdleSlot(s')) && Less(g, s, idle, s', idle')
  {
    StepSafe(g, s, a);
    if a == TimerStep && s.bar.timer.Tick? {
      idle' := TickForward(g, s, idle);
    } else if a == LoaderStep && s.ld.loc == LdAdd {
      idle' := false;
    } else {
      LoaderWaits(g, s, a);
      idle' := OtherStepForward(g, s, a, idle);
    }
  }

  lemma OtherStepForward(g: Config, s: Sim, a: Act, idle: bool) returns (idle': bool)
    requires Sound(g, s) && Enabled(g, s, a) && !Settled(g, s) && (idle ==> LoaderGone(s) && IdleSlot(s))
    requires !(a == LoaderStep && s.ld.loc == LdAdd) && !(a == TimerStep && s.bar.timer.Tick?)
    requires Base(g, Do(g, s, a))
    ensures var s' := Do(g, s, a);
      && (idle' ==> LoaderGone(s') && IdleSlot(s'))
      && (Nearer(g, s, s') || (Level(g, s, s') && idle == idle' && ToTick(s') < ToTick(s)))
  {
    idle' := idle;
    match a
    case CpuStep(c) =>
      if Busy(g, s, c) {
        BusyForward(g, s, c);
        idle' := false;
      } else {
        OtherwiseForward(g, s, c);
        assert CpuOk(s, c);
        CpuMoveConfined(g, s, c);
        if idle {
          CpuStepIdle(g, s, c);
        }
      }
    case LoaderStep =>
      if s.ld.loc == LdLeave {
        var s', was := LoaderMove(g, s), Alive(s.bar);
        assert Alive(s'.bar) == was[0 := 0];
        AddUpdate(was, 0, 0);
        assert Weights(g, s') == Weights(g, s);
        idle' := false;
      } else {
        LoaderForward(g, s);
      }
    case Wake(d) =>
      WakeForward(g, s, d);
      if idle {
        BarrierStepIdle(g, s, a);
      }
    case TimerStep =>
      TimerForward(g, s);
      if idle {
        BarrierStepIdle(g, s, a);
      }
    case StopTimer =>
  }
}
