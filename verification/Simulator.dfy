/** The whole simulator as an interleaved transition system: the CPU loops and the loader loop of `os.c` on top of the
    scheduler of `Sched` and the slot barrier of `Barrier`.

    One step is one lock-protected section, or one read or write of a shared flag, of one thread. Device 0 of the
    barrier is the loader and device c + 1 is CPU c. Programs do not kill each other here. */
module Simulator {
  import opened Seqs
  import opened Sched
  import Policy = Sched
  import Barrier
  import Queue

  /** The configuration file: CPUs, the quantum, and for each program its priority, length and start time. */
  datatype Config = Config(cpus: nat, timeSlot: int, prio: seq<int>, size: seq<int>, start: seq<int>)

  predicate ConfigOk(g: Config) {
    && g.cpus >= 1 && g.timeSlot >= 1
    && |g.prio| == |g.size| == |g.start|
    && forall p :: 0 <= p < |g.prio| ==> 0 <= g.prio[p] < MAX_PRIO && g.size[p] >= 1
  }

  /** Where a CPU is in `cpu_routine`: at the head of its loop; about to call `get_proc` after giving a process up; at
      the second look at `proc`; about to read `finished` or to set it; about to call `next_slot`; about to detach.
      Inside `next_slot` it is at `Top` already. */
  datatype Loc = Top | Fetch | Recheck | IdleCheck | SetFinished | ToNextSlot | Leave

  datatype Cpu = Cpu(loc: Loc, proc: Option<int>, timeLeft: int)

  /** Where the loader is in `ld_routine`; `next` is the program it loads next. */
  datatype LdLoc = LdTop | LdAdd | LdNextSlot | LdDone | LdLeave

  datatype Loader = Loader(loc: LdLoc, next: nat)

  /** Where a process is. */
  datatype Place = NotLoaded | Ready | OnCpu(cpu: int) | Gone

  /** `pc` and `quantum` are the PCB fields `pc` and `time_slot`. The other fields are history: for each process all
      credit charged for it and where it is; for the programs loaded so far the slot of arrival; and for each CPU in how
      many slots it ran an instruction and in how many it found nothing to run. */
  datatype Sim = Sim(
    bar: Barrier.Barrier, sched: Sched<int>, cpus: seq<Cpu>, ld: Loader, done: bool, finished: bool,
    pc: seq<int>, quantum: seq<int>,
    charged: seq<int>, place: seq<Place>, added: seq<int>, ran: seq<nat>, idle: seq<nat>)

  function Boot(g: Config): Sim {
    var n := |g.prio|;
    Sim(Barrier.Init(g.cpus + 1), Policy.Init(), seq(g.cpus, _ => Cpu(Top, None, 0)), Loader(LdTop, 0), false, false,
        seq(n, _ => 0), seq(n, _ => 0), seq(n, _ => 0), seq(n, _ => NotLoaded),
        [], seq(g.cpus, _ => 0), seq(g.cpus, _ => 0))
  }

  /** The slot of the last arrival. */
  function LastAdd(s: Sim): int {
    if s.added == [] then -1 else s.added[|s.added| - 1]
  }

  /** Only known processes are queued. */
  predicate Known(queues: seq<seq<int>>, n: nat) {
    forall i, k :: 0 <= i < |queues| && 0 <= k < |queues[i]| ==> 0 <= queues[i][k] < n
  }

  predicate WellFormed(g: Config, s: Sim) {
    && ConfigOk(g) && |s.cpus| == |s.ran| == |s.idle| == g.cpus && |s.bar.devs| == g.cpus + 1
    && |s.pc| == |s.quantum| == |s.charged| == |s.place| == |g.prio|
    && s.ld.next <= |g.prio| && Policy.Shaped(s.sched)
    && Known(s.sched.queues, |g.prio|)
    && (forall c :: 0 <= c < g.cpus ==> s.cpus[c].proc.Some? ==> 0 <= s.cpus[c].proc.value < |g.prio|)
  }

  function SetCpu(s: Sim, c: int, cpu: Cpu): Sim
    requires 0 <= c < |s.cpus|
  {
    s.(cpus := s.cpus[c := cpu])
  }

  // ---------------------------------------------------------------------------------------------------------
  // Steps of a CPU
  // ---------------------------------------------------------------------------------------------------------

  function Picked(s: Sim): (p: int)
    requires Policy.Shaped(s.sched) && Choose(s.sched).Serve?
  {
    Policy.Winner(s.sched)
  }

  lemma PickedInRange(g: Config, s: Sim)
    requires WellFormed(g, s) && Choose(s.sched).Serve?
    ensures 0 <= Picked(s) < |g.prio|
  {
    ScanFinds(s.sched, 0);
    ScanFinds(Refill(s.sched), 0);
  }

  /** `get_proc` on CPU `c`; without a process the CPU goes on at `idle`. */
  function GetProc(g: Config, s: Sim, c: int, idle: Loc): Sim
    requires WellFormed(g, s) && 0 <= c < g.cpus
  {
    if Choose(s.sched).Idle? then
      SetCpu(s, c, Cpu(idle, None, 0)).(sched := Refilled(s.sched), idle := s.idle[c := s.idle[c] + 1])
    else
      PickedInRange(g, s);
      var p := Picked(s);
      var left := g.size[p] - s.pc[p];
      var q := Quantum(left, Refilled(s.sched).slot[Choose(s.sched).queue], g.timeSlot);
      SetCpu(s, c, Cpu(Recheck, Some(p), 0))
      .(sched := GetMlq(s.sched, left, g.timeSlot), quantum := s.quantum[p := q],
        charged := s.charged[p := s.charged[p] + q], place := s.place[p := OnCpu(c)])
  }

  /** `remove_pcb` of the finished process of CPU `c`. */
  function FinishProc(s: Sim, c: int, p: int): Sim
    requires 0 <= c < |s.cpus| && 0 <= p < |s.place|
  {
    SetCpu(s, c, Cpu(Fetch, None, 0))
    .(sched := s.sched.(running := Queue.Without(s.sched.running, p)), place := s.place[p := Gone])
  }

  /** `put_proc` of the process of CPU `c` whose quantum is used up. */
  function PutProc(g: Config, s: Sim, c: int, p: int): Sim
    requires WellFormed(g, s) && 0 <= c < g.cpus && 0 <= p < |g.prio|
  {
    SetCpu(s, c, Cpu(Fetch, None, 0))
    .(sched := AddTo(s.sched, p, g.prio[p]).(running := Queue.Without(s.sched.running, p)), place := s.place[p := Ready])
  }

  /** `run` and the countdown. */
  function RunProc(g: Config, s: Sim, c: int, p: int, timeLeft: int): Sim
    requires WellFormed(g, s) && 0 <= c < g.cpus && 0 <= p < |g.prio|
  {
    SetCpu(s, c, Cpu(ToNextSlot, Some(p), timeLeft - 1))
    .(pc := if s.pc[p] >= g.size[p] then s.pc else s.pc[p := s.pc[p] + 1], ran := s.ran[c := s.ran[c] + 1])
  }

  /** At the head of the loop. */
  function TopMove(g: Config, s: Sim, c: int): Sim
    requires WellFormed(g, s) && 0 <= c < g.cpus
  {
    match s.cpus[c].proc
    case None => GetProc(g, s, c, IdleCheck)
    case Some(p) =>
      if s.pc[p] >= g.size[p] then FinishProc(s, c, p)
      else if s.cpus[c].timeLeft == 0 then PutProc(g, s, c, p)
      else RunProc(g, s, c, p, s.cpus[c].timeLeft)
  }

  /** At the second look at `proc`. */
  function RecheckMove(g: Config, s: Sim, c: int): Sim
    requires WellFormed(g, s) && 0 <= c < g.cpus
  {
    var cpu := s.cpus[c];
    match cpu.proc
    case None => SetCpu(s, c, cpu.(loc := if s.done then SetFinished else ToNextSlot))
    case Some(p) => RunProc(g, s, c, p, if cpu.timeLeft == 0 then s.quantum[p] else cpu.timeLeft)
  }

  function CpuMove(g: Config, s: Sim, c: int): Sim
    requires WellFormed(g, s) && 0 <= c < g.cpus && s.bar.devs[c + 1].phase == Barrier.Working
  {
    var cpu := s.cpus[c];
    match cpu.loc
    case Top => TopMove(g, s, c)
    case Fetch => GetProc(g, s, c, Recheck)
    case Recheck => RecheckMove(g, s, c)
    case IdleCheck => SetCpu(s, c, cpu.(loc := if s.finished then Leave else ToNextSlot))
    case SetFinished => SetCpu(s, c, cpu.(loc := Leave)).(finished := true)
    case ToNextSlot => SetCpu(s, c, cpu.(loc := Top)).(bar := Barrier.Apply(s.bar, Barrier.Signal(c + 1)))
    case Leave => s.(bar := Barrier.Apply(s.bar, Barrier.Detach(c + 1)))
  }

  // ---------------------------------------------------------------------------------------------------------
  // Steps of the loader
  // ---------------------------------------------------------------------------------------------------------

  function LoaderMove(g: Config, s: Sim): Sim
    requires WellFormed(g, s) && s.bar.devs[0].phase == Barrier.Working
  {
    var i := s.ld.next;
    match s.ld.loc
    case LdTop =>
      if i == |g.prio| then s.(ld := Loader(LdDone, i))
      else s.(ld := Loader(if s.bar.time < g.start[i] then LdNextSlot else LdAdd, i))
    case LdAdd =>
      if i == |g.prio| then s
      else s.(ld := Loader(LdNextSlot, i + 1), sched := AddTo(s.sched, i, g.prio[i]), place := s.place[i := Ready],
              added := s.added + [s.bar.time])
    case LdNextSlot => s.(ld := Loader(LdTop, i), bar := Barrier.Apply(s.bar, Barrier.Signal(0)))
    case LdDone => s.(ld := Loader(LdLeave, i), done := true)
    case LdLeave => s.(bar := Barrier.Apply(s.bar, Barrier.Detach(0)))
  }

  // ---------------------------------------------------------------------------------------------------------
  // Runs
  // ---------------------------------------------------------------------------------------------------------

  datatype Act = CpuStep(c: int) | LoaderStep | Wake(d: int) | TimerStep | StopTimer

  predicate Enabled(g: Config, s: Sim, a: Act)
    requires WellFormed(g, s)
  {
    match a
    case CpuStep(c) => 0 <= c < g.cpus && s.bar.devs[c + 1].phase == Barrier.Working
    case LoaderStep => s.bar.devs[0].phase == Barrier.Working
    case Wake(d) => Barrier.Enabled(s.bar, Barrier.Wake(d))
    case TimerStep => Barrier.Enabled(s.bar, Barrier.TimerStep)
    case StopTimer => Barrier.Enabled(s.bar, Barrier.StopTimer)
  }

  function Do(g: Config, s: Sim, a: Act): Sim
    requires WellFormed(g, s) && Enabled(g, s, a)
  {
    match a
    case CpuStep(c) => CpuMove(g, s, c)
    case LoaderStep => LoaderMove(g, s)
    case Wake(d) => s.(bar := Barrier.Apply(s.bar, Barrier.Wake(d)))
    case TimerStep => s.(bar := Barrier.Apply(s.bar, Barrier.TimerStep))
    case StopTimer => s.(bar := Barrier.Apply(s.bar, Barrier.StopTimer))
  }
}
