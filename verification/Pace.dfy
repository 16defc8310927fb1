/** The pace of the simulator: when programs are loaded, and how much a CPU does in a time slot. */
module Pace {
  import opened Seqs
  import opened Sched
  import Barrier
  import opened Simulator
  import opened Attendance
  import opened Shutdown
  import opened Placement
  import opened Spin
  import opened Stopping
  import opened Schedules

  // ---------------------------------------------------------------------------------------------------------
  // Loading
  // ---------------------------------------------------------------------------------------------------------

  function Later(a: int, b: int): int {
    if a > b then a else b
  }

  /** The first slot in which the loader can look at program `p`: it loads one program a slot, in the order of the
      configuration. */
  function Earliest(g: Config, p: nat): int
    requires p <= |g.start|
    decreases p, 0
  {
    if p == 0 then 0 else LoadSlot(g, p - 1) + 1
  }

  /** The slot in which program `p` is to be loaded. */
  function LoadSlot(g: Config, p: nat): int
    requires p < |g.start|
    decreases p, 1
  {
    Later(g.start[p], Earliest(g, p))
  }

  /** The slot in which the loader looks next, or is looking now. */
  function LoaderSlot(s: Sim): int
    requires |s.bar.devs| > 0
  {
    var v := s.bar.devs[0];
    if v.phase == Barrier.Working && s.ld.loc != LdNextSlot then v.slots else v.slots + 1
  }

  /** The programs loaded so far came in their slots, and the loader is not past the slot of the next one. */
  predicate LoadOk(g: Config, s: Sim)
    requires |s.bar.devs| > 0
  {
    && |s.added| == s.ld.next <= |g.start|
    && (forall p :: 0 <= p < |s.added| ==> s.added[p] == LoadSlot(g, p))
    && (s.ld.next < |g.start| ==>
          && Earliest(g, s.ld.next) <= LoaderSlot(s) <= LoadSlot(g, s.ld.next)
          && (s.ld.loc == LdAdd ==> g.start[s.ld.next] <= LoaderSlot(s)))
  }

  lemma LoadStep(g: Config, s: Sim, a: Act)
    requires Safe(g, s) && LoadOk(g, s) && Enabled(g, s, a)
    ensures |Do(g, s, a).bar.devs| > 0 && LoadOk(g, Do(g, s, a))
  {
    assert Barrier.DevOk(s.bar, 0);
    if a.CpuStep? {
      assert CpuOk(s, a.c);
      CpuMoveConfined(g, s, a.c);
    }
  }

  lemma {:induction false} RunLoads(g: Config, s: Sim, acts: seq<Act>)
    requires Safe(g, s) && LoadOk(g, s) && IsRun(g, s, acts)
    ensures LoadOk(g, After(g, s, acts))
    decreases |acts|
  {
    if acts != [] {
      LoadStep(g, s, acts[0]);
      StepSafe(g, s, acts[0]);
      RunLoads(g, Do(g, s, acts[0]), acts[1..]);
    }
  }

  lemma {:induction false} LoadSlotsGrow(g: Config, p: nat, q: nat)
    requires p <= q < |g.start|
    ensures 0 <= LoadSlot(g, p) <= LoadSlot(g, q) && g.start[p] <= LoadSlot(g, p)
    decreases q
  {
    if q > 0 {
      LoadSlotsGrow(g, if p == q then p - 1 else p, q - 1);
    }
  }

  lemma ArrivedInTime(g: Config, s: Sim, p: int)
    requires Safe(g, s) && LoadOk(g, s) && 0 <= p < s.ld.next
    ensures g.start[p] <= LoadSlot(g, p) <= s.bar.time
  {
    assert Barrier.DevOk(s.bar, 0);
    LoadSlotsGrow(g, p, s.ld.next - 1);
  }

  /** When programs arrive does not depend on the interleaving: in every reachable state exactly the first so many
      programs have arrived, each in the slot of its start time, or in the one after its predecessor's if that is later,
      and the clock has reached it. */
  lemma ArrivalTimes(g: Config, acts: seq<Act>, p: int)
    requires ConfigOk(g) && IsRun(g, Start(g), acts) && 0 <= p < After(g, Start(g), acts).ld.next
    ensures var s := After(g, Start(g), acts);
      && |s.added| == s.ld.next <= |g.start|
      && s.added[p] == (if p == 0 then Later(g.start[0], 0) else Later(g.start[p], s.added[p - 1] + 1))
      && g.start[p] <= s.added[p] <= s.bar.time
  {
    InitSafe(g);
    RunLoads(g, Start(g), acts);
    RunSafe(g, Start(g), acts);
    ArrivedInTime(g, After(g, Start(g), acts), p);
  }

  lemma {:induction false} AlwaysLoads(g: Config, sch: Schedule, n: nat)
    requires ConfigOk(g) && IsSchedule(g, Start(g), sch)
    ensures Base(g, sch.state(n)) && LoadOk(g, sch.state(n))
    decreases n
  {
    InitSafe(g);
    if n > 0 {
      var t, a := sch.state(n - 1), sch.act(n - 1);
      AlwaysLoads(g, sch, n - 1);
      AlwaysSafe(g, Start(g), sch, n - 1);
      assert Goes(g, t, a, sch.state(n));
      LoadStep(g, t, a);
      ApplyBase(g, t, a);
    }
  }

  /** Every infinite schedule loads every program, in its slot. */
  lemma EveryProgramLoads(g: Config, sch: Schedule, p: int) returns (n: nat)
    requires ConfigOk(g) && IsSchedule(g, Start(g), sch) && 0 <= p < |g.prio|
    ensures forall m: nat :: m >= n ==> p < |sch.state(m).added| && sch.state(m).added[p] == LoadSlot(g, p)
  {
    n := EveryScheduleSettles(g, sch);
    InitSafe(g);
    forall m: nat | m >= n ensures p < |sch.state(m).added| && sch.state(m).added[p] == LoadSlot(g, p) {
      AlwaysLoads(g, sch, m);
      AlwaysSafe(g, Start(g), sch, m);
      assert LoaderGone(sch.state(m));
    }
  }

  // ---------------------------------------------------------------------------------------------------------
  // Turns
  // ---------------------------------------------------------------------------------------------------------

  /** CPU `c` has still to run an instruction in this slot, or to find that there is none. */
  predicate Due(s: Sim, c: int)
    requires 0 <= c < |s.cpus| && |s.bar.devs| == |s.cpus| + 1
  {
    var cpu := s.cpus[c];
    s.bar.devs[c + 1].phase == Barrier.Working
    && (cpu.loc == Top || cpu.loc == Fetch || (cpu.loc == Recheck && cpu.proc.Some?))
  }

  /** The slots in which CPU `c` has had its turn. */
  function Turns(s: Sim, c: int): nat
    requires 0 <= c < |s.cpus| && |s.bar.devs| == |s.cpus| + 1
  {
    s.bar.devs[c + 1].slots + if Due(s, c) then 0 else 1
  }

  /** In each of them it has run one instruction, or found nothing to run. */
  predicate TurnOk(s: Sim, c: int)
    requires 0 <= c < |s.cpus| == |s.ran| == |s.idle| && |s.bar.devs| == |s.cpus| + 1
  {
    s.ran[c] + s.idle[c] == Turns(s, c)
  }

  ghost predicate TurnsOk(g: Config, s: Sim)
    requires WellFormed(g, s)
  {
    forall c :: 0 <= c < g.cpus ==> TurnOk(s, c)
  }

  lemma GetCounts(g: Config, s: Sim, c: int, idle: Loc, d: int)
    requires WellFormed(g, s) && 0 <= c < g.cpus && 0 <= d < g.cpus
    ensures var s' := GetProc(g, s, c, idle);
      && s'.ran == s.ran && |s'.idle| == g.cpus && s'.idle[d] >= s.idle[d] && (d != c ==> s'.idle[d] == s.idle[d])
  {
  }

  /** A step of CPU `c` only adds turns, and none of another CPU. */
  lemma OthersTurns(g: Config, s: Sim, c: int, d: int)
    requires WellFormed(g, s) && Enabled(g, s, CpuStep(c)) && 0 <= d < g.cpus
    ensures var s' := CpuMove(g, s, c);
      && |s'.ran| == |s'.idle| == g.cpus && s'.ran[d] >= s.ran[d] && s'.idle[d] >= s.idle[d]
      && (d != c ==> s'.ran[d] == s.ran[d] && s'.idle[d] == s.idle[d])
  {
    if Asks(s, c) {
      GetCounts(g, s, c, if s.cpus[c].loc == Top then IdleCheck else Recheck, d);
    }
  }

  lemma GetTurn(g: Config, s: Sim, c: int, idle: Loc)
    requires WellFormed(g, s) && 0 <= c < g.cpus && s.bar.devs[c + 1].phase == Barrier.Working && TurnOk(s, c)
    requires Due(s, c) && (idle == IdleCheck || idle == Recheck) && WellFormed(g, GetProc(g, s, c, idle))
    ensures TurnOk(GetProc(g, s, c, idle), c)
  {
  }

  lemma TopTurn(g: Config, s: Sim, c: int)
    requires WellFormed(g, s) && 0 <= c < g.cpus && s.bar.devs[c + 1].phase == Barrier.Working && TurnOk(s, c)
    requires s.cpus[c].loc == Top && s.cpus[c].proc.Some? && WellFormed(g, TopMove(g, s, c))
    ensures TurnOk(TopMove(g, s, c), c)
  {
  }

  /** The turn of CPU `c` ends when it runs an instruction or finds nothing. */
  lemma OwnTurn(g: Config, s: Sim, c: int)
    requires WellFormed(g, s) && Enabled(g, s, CpuStep(c)) && CpuOk(s, c) && TurnOk(s, c) && WellFormed(g, CpuMove(g, s, c))
    ensures TurnOk(CpuMove(g, s, c), c)
  {
    var cpu, s' := s.cpus[c], CpuMove(g, s, c);
    if cpu.loc == ToNextSlot || cpu.loc == Leave {
      assert s'.ran == s.ran && s'.idle == s.idle;
    } else if Asks(s, c) {
      GetTurn(g, s, c, if cpu.loc == Top then IdleCheck else Recheck);
    } else if cpu.loc == Top {
      TopTurn(g, s, c);
    } else {
      assert s'.bar == s.bar;
    }
  }

  lemma TurnStep(g: Config, s: Sim, a: Act)
    requires Safe(g, s) && TurnsOk(g, s) && Enabled(g, s, a) && WellFormed(g, Do(g, s, a))
    ensures TurnsOk(g, Do(g, s, a))
  {
    if a.CpuStep? {
      assert CpuOk(s, a.c) && TurnOk(s, a.c);
      OwnTurn(g, s, a.c);
      CpuMoveConfined(g, s, a.c);
    }
    forall c | 0 <= c < g.cpus ensures TurnOk(Do(g, s, a), c) {
      assert TurnOk(s, c) && CpuOk(s, c);
      if a.CpuStep? && a.c != c {
        OthersTurns(g, s, a.c, c);
      }
    }
  }

  lemma {:induction false} RunTurns(g: Config, s: Sim, acts: seq<Act>)
    requires Safe(g, s) && TurnsOk(g, s) && IsRun(g, s, acts)
    ensures TurnsOk(g, After(g, s, acts))
    decreases |acts|
  {
    if acts != [] {
      StepSafe(g, s, acts[0]);
      TurnStep(g, s, acts[0]);
      RunTurns(g, Do(g, s, acts[0]), acts[1..]);
    }
  }

  /** A live CPU has had all its turns of the slots before, and possibly the one of the current slot. */
  lemma TurnsNow(g: Config, s: Sim, c: int)
    requires Base(g, s) && 0 <= c < g.cpus
    ensures Turns(s, c) <= s.bar.time + 1
    ensures s.bar.devs[c + 1].phase != Barrier.Stopped ==> s.bar.time <= Turns(s, c)
  {
    assert Barrier.DevOk(s.bar, c + 1);
  }

  /** Turns are only added, and none by a CPU whose thread has ended. */
  lemma StepCounts(g: Config, s: Sim, a: Act, c: int)
    requires Base(g, s) && Enabled(g, s, a) && 0 <= c < g.cpus && (a.CpuStep? ==> CpuOk(s, a.c))
    requires Base(g, Do(g, s, a))
    ensures var s' := Do(g, s, a);
      && s'.ran[c] >= s.ran[c] && s'.idle[c] >= s.idle[c]
      && (s.bar.devs[c + 1].phase == Barrier.Stopped ==>
            s'.ran[c] == s.ran[c] && s'.bar.devs[c + 1].phase == Barrier.Stopped)
  {
    if a.CpuStep? {
      CpuMoveConfined(g, s, a.c);
      OthersTurns(g, s, a.c, c);
    }
  }

  lemma {:induction false} CountsGrow(g: Config, s: Sim, acts: seq<Act>, c: int)
    requires Safe(g, s) && IsRun(g, s, acts) && 0 <= c < g.cpus
    ensures var t := After(g, s, acts);
      && t.ran[c] >= s.ran[c] && t.idle[c] >= s.idle[c]
      && (s.bar.devs[c + 1].phase == Barrier.Stopped ==> t.ran[c] == s.ran[c])
    decreases |acts|
  {
    if acts != [] {
      StepSafe(g, s, acts[0]);
      assert acts[0].CpuStep? ==> CpuOk(s, acts[0].c);
      StepCounts(g, s, acts[0], c);
      CountsGrow(g, Do(g, s, acts[0]), acts[1..], c);
    }
  }

  /** Between two ticks of the clock, in every interleaving, a CPU runs at most one instruction. */
  lemma OneInstructionPerSlot(g: Config, acts: seq<Act>, more: seq<Act>, c: int)
    requires ConfigOk(g) && IsRun(g, Start(g), acts) && IsRun(g, After(g, Start(g), acts), more) && 0 <= c < g.cpus
    requires After(g, After(g, Start(g), acts), more).bar.time == After(g, Start(g), acts).bar.time
    ensures var s := After(g, Start(g), acts); s.ran[c] <= After(g, s, more).ran[c] <= s.ran[c] + 1
  {
    var s := After(g, Start(g), acts);
    var t := After(g, s, more);
    InitSafe(g);
    RunTurns(g, Start(g), acts);
    RunSafe(g, Start(g), acts);
    RunTurns(g, s, more);
    CountsGrow(g, s, more, c);
    TurnsNow(g, s, c);
    TurnsNow(g, t, c);
    assert TurnOk(s, c) && TurnOk(t, c);
  }

  // ---------------------------------------------------------------------------------------------------------
  // What the turns count
  // ---------------------------------------------------------------------------------------------------------

  /** Only a CPU that asks while nothing waits has an idle turn, and it always has one. */
  lemma IdleMeansEmpty(g: Config, s: Sim, a: Act, c: int)
    requires Base(g, s) && Enabled(g, s, a) && 0 <= c < g.cpus && (a.CpuStep? ==> CpuOk(s, a.c)) && Base(g, Do(g, s, a))
    ensures Do(g, s, a).idle[c] == s.idle[c] + if a == CpuStep(c) && Asks(s, c) && AllEmpty(s.sched) then 1 else 0
  {
    ChooseIsWorkConserving(s.sched);
  }

  /** The turn of CPU `c` from `s` to `s'` runs an instruction of `p`. */
  predicate Runs(g: Config, s: Sim, s': Sim, c: int, p: int) {
    && 0 <= c < |s.cpus| == |s.ran| && 0 <= p < |s.pc| == |g.size| && s.cpus[c].proc == Some(p)
    && (s.cpus[c].loc == Recheck || s.pc[p] < g.size[p])
    && s'.ran == s.ran[c := s.ran[c] + 1]
    && s'.pc == if s.pc[p] >= g.size[p] then s.pc else s.pc[p := s.pc[p] + 1]
  }

  /** A step that changes a program counter is one of a CPU that holds the process; it runs one instruction, and that is
      counted. No other step is counted. */
  lemma RunIsCounted(g: Config, s: Sim, a: Act)
    requires Base(g, s) && Enabled(g, s, a) && (a.CpuStep? ==> CpuOk(s, a.c))
    ensures var s' := Do(g, s, a);
      || (s'.pc == s.pc && s'.ran == s.ran)
      || (a.CpuStep? && s.cpus[a.c].proc.Some? && Runs(g, s, s', a.c, s.cpus[a.c].proc.value))
  {
  }

  /** A turn adds at most as much to the program counters as to the count; exactly as much in a good state. */
  lemma RunsSum(g: Config, s: Sim, s': Sim, c: int, p: int)
    requires Base(g, s) && Runs(g, s, s', c, p)
    ensures Sum(s'.ran) == Sum(s.ran) + 1 && Sum(s.pc) <= Sum(s'.pc) <= Sum(s.pc) + 1
    ensures Good(g, s) ==> Sum(s'.pc) == Sum(s.pc) + 1
  {
    SumUpdate(s.ran, c, s.ran[c] + 1);
    SumUpdate(s.pc, p, s.pc[p] + 1);
    if Good(g, s) {
      assert CpuHolds(g, s, c) && ProcOk(g, s, p);
    }
  }

  lemma CountStep(g: Config, s: Sim, a: Act)
    requires Base(g, s) && Enabled(g, s, a) && (a.CpuStep? ==> CpuOk(s, a.c))
    ensures var s' := Do(g, s, a); Sum(s'.pc) - Sum(s.pc) <= Sum(s'.ran) - Sum(s.ran)
    ensures var s' := Do(g, s, a); Good(g, s) ==> Sum(s'.pc) - Sum(s.pc) == Sum(s'.ran) - Sum(s.ran)
  {
    RunIsCounted(g, s, a);
    var s' := Do(g, s, a);
    if s'.pc != s.pc || s'.ran != s.ran {
      RunsSum(g, s, s', a.c, s.cpus[a.c].proc.value);
    }
  }

  /** All program counters together are at most the turns that ran an instruction; exactly these if the lists have
      room. */
  lemma {:induction false} RunCounts(g: Config, s: Sim, acts: seq<Act>)
    requires Safe(g, s) && IsRun(g, s, acts) && Sum(s.pc) <= Sum(s.ran)
    ensures Sum(After(g, s, acts).pc) <= Sum(After(g, s, acts).ran)
    ensures Good(g, s) && Roomy(g, s, acts) && Sum(s.pc) == Sum(s.ran) ==>
              Sum(After(g, s, acts).pc) == Sum(After(g, s, acts).ran)
    decreases |acts|
  {
    if acts != [] {
      StepSafe(g, s, acts[0]);
      assert acts[0].CpuStep? ==> CpuOk(s, acts[0].c);
      CountStep(g, s, acts[0]);
      if Good(g, s) && Roomy(g, s, acts) {
        StepGoodIff(g, s, acts[0]);
      }
      RunCounts(g, Do(g, s, acts[0]), acts[1..]);
    }
  }

  lemma {:induction false} SumAtMost(xs: seq<int>, m: int)
    requires forall i :: 0 <= i < |xs| ==> xs[i] <= m
    ensures Sum(xs) <= |xs| * m
  {
    if xs != [] {
      SumAtMost(xs[1..], m);
    }
  }

  lemma {:induction false} SumZero(xs: seq<int>)
    requires forall i :: 0 <= i < |xs| ==> xs[i] == 0
    ensures Sum(xs) == 0
  {
    if xs != [] {
      SumZero(xs[1..]);
    }
  }

  lemma StartPace(g: Config)
    requires ConfigOk(g)
    ensures Good(g, Start(g)) && TurnsOk(g, Start(g)) && Sum(Start(g).pc) == Sum(Start(g).ran) == 0
  {
    InitSafe(g);
    SumZero(Start(g).pc);
    SumZero(Start(g).ran);
  }

  lemma PaceNow(g: Config, s: Sim, c: int)
    requires Base(g, s) && TurnsOk(g, s) && Sum(s.pc) <= Sum(s.ran) && 0 <= c < g.cpus
    ensures Sum(s.pc) <= g.cpus * (s.bar.time + 1) && s.ran[c] + s.idle[c] == Turns(s, c) <= s.bar.time + 1
  {
    forall d | 0 <= d < g.cpus ensures s.ran[d] <= s.bar.time + 1 {
      TurnsNow(g, s, d);
      assert TurnOk(s, d);
    }
    SumAtMost(s.ran, s.bar.time + 1);
    TurnsNow(g, s, c);
    assert TurnOk(s, c);
  }

  lemma RunPace(g: Config, s: Sim, acts: seq<Act>)
    requires Good(g, s) && TurnsOk(g, s) && Sum(s.pc) == Sum(s.ran) && IsRun(g, s, acts)
    ensures var t := After(g, s, acts);
      TurnsOk(g, t) && Sum(t.pc) <= Sum(t.ran) && (Roomy(g, s, acts) ==> Sum(t.pc) == Sum(t.ran))
  {
    RunTurns(g, s, acts);
    RunCounts(g, s, acts);
  }

  /** The pace in numbers: in every interleaving, when the clock shows `t`, at most one instruction per CPU has been run in
      each of the slots 0 to t. In the turns it has had, a CPU has run one instruction each time but those in which it
      found all queues empty; and if the lists have room, these instructions are all that has been run. */
  lemma PaceBound(g: Config, acts: seq<Act>, c: int)
    requires ConfigOk(g) && IsRun(g, Start(g), acts) && 0 <= c < g.cpus
    ensures var s := After(g, Start(g), acts);
      && Sum(s.pc) <= g.cpus * (s.bar.time + 1)
      && s.ran[c] + s.idle[c] == Turns(s, c) <= s.bar.time + 1
      && (Roomy(g, Start(g), acts) ==> Sum(s.pc) == Sum(s.ran))
  {
    StartPace(g);
    RunPace(g, Start(g), acts);
    PaceNow(g, After(g, Start(g), acts), c);
  }

  // ---------------------------------------------------------------------------------------------------------
  // Dispatch
  // ---------------------------------------------------------------------------------------------------------

  /** The credit of priority `j` at a dispatch: what is left, or full credit if no waiting process has any. */
  ghost function CreditAt(s: Sched<int>, j: int): int
    requires Shaped(s) && 0 <= j < MAX_PRIO
  {
    if HasCredit(s) then s.slot[j] else MAX_PRIO - j
  }

  /** A CPU that asks while something waits gets the head of the first queue with credit, for a quantum that is the least
      of the rest of the program, the credit and the time slot; as much is charged to the process and taken from the
      credit. */
  lemma DispatchIsCharged(g: Config, s: Sim, c: int) returns (j: int)
    requires Base(g, s) && Enabled(g, s, CpuStep(c)) && CpuOk(s, c) && Asks(s, c) && !AllEmpty(s.sched)
    ensures 0 <= j < MAX_PRIO && s.sched.queues[j] != [] && CreditAt(s.sched, j) > 0
    ensures forall i :: 0 <= i < j ==> s.sched.queues[i] == [] || CreditAt(s.sched, i) == 0
    ensures var s', p, credit := CpuMove(g, s, c), s.sched.queues[j][0], CreditAt(s.sched, j);
      && 0 <= p < |s.pc| && |s'.quantum| == |s'.charged| == |s.pc| && |s'.cpus| == g.cpus && |s'.sched.slot| == MAX_PRIO
      && s'.cpus[c] == Cpu(Recheck, Some(p), 0) && s'.sched.queues == s.sched.queues[j := s.sched.queues[j][1..]]
      && var q := s'.quantum[p];
         && q <= g.size[p] - s.pc[p] && q <= credit && q <= g.timeSlot
         && (q == g.size[p] - s.pc[p] || q == credit || q == g.timeSlot)
         && s'.charged[p] == s.charged[p] + q && s'.sched.slot[j] == credit - q
  {
    ChooseIsWorkConserving(s.sched);
    j := Choose(s.sched).queue;
    var p := Picked(s);
    PickedInRange(g, s);
    GetLists(s.sched, g.size[p] - s.pc[p], g.timeSlot);
    QuantumIsLeast(g.size[p] - s.pc[p], Refilled(s.sched).slot[j], g.timeSlot);
  }
}
