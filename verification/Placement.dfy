/** Where processes are and what they have been charged, over all interleavings of the simulator.

    As long as every list has room for the process that joins it, every loaded and unfinished process is in exactly one
    place, and the credit charged for it is exactly what it runs; a process that finds no room is lost. */
module Placement {
  import opened Seqs
  import opened Sched
  import Policy = Sched
  import Barrier
  import opened Queue
  import opened Simulator
  import opened Attendance
  import opened Shutdown

  predicate In(place: seq<Place>, prio: seq<int>, i: int, x: int)
    requires |place| == |prio|
  {
    0 <= x < |place| && prio[x] == i && place[x] == Ready
  }

  predicate On(place: seq<Place>, x: int) {
    0 <= x < |place| && place[x].OnCpu?
  }

  /** Queue `i` holds exactly the ready processes of priority `i`, each once. */
  ghost predicate QueueOk(g: Config, s: Sim, i: int)
    requires WellFormed(g, s) && 0 <= i < MAX_PRIO
  {
    forall x :: Occ(s.sched.queues[i], x) == if In(s.place, g.prio, i, x) then 1 else 0
  }

  /** The running list holds exactly the processes on a CPU, each once. */
  ghost predicate RunningOk(s: Sim) {
    forall x :: Occ(s.sched.running, x) == if On(s.place, x) then 1 else 0
  }

  /** CPU `c` holds the process that is on it. */
  predicate CpuHolds(g: Config, s: Sim, c: int)
    requires WellFormed(g, s) && 0 <= c < g.cpus
  {
    s.cpus[c].proc.Some? ==> s.place[s.cpus[c].proc.value] == OnCpu(c)
  }

  /** Process `p`: on a CPU only if that CPU holds it; not loaded exactly beyond the loader; and its account. */
  predicate ProcOk(g: Config, s: Sim, p: int)
    requires WellFormed(g, s) && 0 <= p < |g.prio|
  {
    && (s.place[p] == NotLoaded <==> p >= s.ld.next)
    && match s.place[p]
       case NotLoaded => s.pc[p] == 0 && s.charged[p] == 0
       case Ready => s.charged[p] == s.pc[p] < g.size[p]
       case Gone => s.charged[p] == s.pc[p] == g.size[p]
       case OnCpu(c) =>
         && 0 <= c < g.cpus && s.cpus[c].proc == Some(p) && s.charged[p] <= g.size[p]
         && if s.cpus[c].loc == Recheck then
              s.cpus[c].timeLeft == 0 && 1 <= s.quantum[p] && s.charged[p] == s.pc[p] + s.quantum[p]
            else
              0 <= s.cpus[c].timeLeft && s.charged[p] == s.pc[p] + s.cpus[c].timeLeft
  }

  /** The placement of a simulator without kills, with the accounts of all processes. `Homes` has the placement under
      kills, with the `running_list` field, over runs of the scheduler alone, and `Scheduler.Placed` is the same statement
      about the scheduler's objects. Both of these allow for lost processes. */
  ghost predicate Placed(g: Config, s: Sim)
    requires WellFormed(g, s)
  {
    && (forall i :: 0 <= i < MAX_PRIO ==> QueueOk(g, s, i))
    && RunningOk(s)
    && (forall c :: 0 <= c < g.cpus ==> CpuHolds(g, s, c))
    && (forall p :: 0 <= p < |g.prio| ==> ProcOk(g, s, p))
  }

  /** The processes that are loaded and not finished. */
  function Live(place: seq<Place>): set<int> {
    set x | 0 <= x < |place| && (place[x].Ready? || place[x].OnCpu?)
  }

  /** No more live processes than a list holds. */
  predicate FewLive(s: Sim) {
    |Live(s.place)| <= MAX_QUEUE_SIZE
  }

  /** There are no more live processes than processes. */
  lemma {:induction false} LiveBelow(place: seq<Place>)
    ensures |Live(place)| <= |place|
  {
    if place != [] {
      var n := |place| - 1;
      LiveBelow(place[..n]);
      var last := if place[n].Ready? || place[n].OnCpu? then {n} else {};
      assert Live(place) == Live(place[..n]) + last;
    }
  }

  /** A list of live processes without repetition that lacks one is not full. */
  lemma ShortList(q: seq<int>, live: set<int>, p: int)
    requires |live| <= MAX_QUEUE_SIZE && (forall x :: Occ(q, x) <= if x in live then 1 else 0)
    requires p in live && p !in q
    ensures |q| < MAX_QUEUE_SIZE
  {
    forall k | 0 <= k < |q| ensures q[k] in live {
      assert Occ(q, q[k]) > 0;
    }
    PigeonHole(q, live);
  }

  // ---------------------------------------------------------------------------------------------------------
  // Steps
  // ---------------------------------------------------------------------------------------------------------

  /** A process that a step does not touch keeps its part of the invariant. */
  lemma Untouched(g: Config, s: Sim, s': Sim, c: int, p: int)
    requires WellFormed(g, s) && WellFormed(g, s') && 0 <= p < |g.prio| && ProcOk(g, s, p)
    requires s'.place[p] == s.place[p] && s'.pc[p] == s.pc[p] && s'.charged[p] == s.charged[p]
    requires s'.quantum[p] == s.quantum[p] && (p >= s'.ld.next <==> p >= s.ld.next)
    requires s.place[p] != OnCpu(c) && forall d :: 0 <= d < g.cpus && d != c ==> s'.cpus[d] == s.cpus[d]
    ensures ProcOk(g, s', p)
  {
  }

  /** The process a dispatch picks is a ready one of that queue's priority. */
  lemma PickedIsReady(g: Config, s: Sim)
    requires Base(g, s) && Placed(g, s) && Choose(s.sched).Serve?
    ensures var j := Choose(s.sched).queue; var p := Picked(s);
      && 0 <= j < MAX_PRIO && s.sched.queues[j] != [] && s.sched.queues[j][0] == p
      && 0 <= p < |g.prio| && s.place[p] == Ready && g.prio[p] == j
  {
    ChooseIsWorkConserving(s.sched);
    var j := Choose(s.sched).queue;
    assert QueueOk(g, s, j);
    assert Occ(s.sched.queues[j], Picked(s)) > 0;
  }

  /** What a dispatch does to queues and running list. */
  lemma GetLists(s: Sched<int>, left: int, timeSlot: int)
    requires SchedOk(s) && Choose(s).Serve?
    ensures var j := Choose(s).queue; var s' := GetMlq(s, left, timeSlot);
      && 0 <= j < MAX_PRIO && s.queues[j] != []
      && s'.queues == s.queues[j := s.queues[j][1..]] && s'.running == Enqueued(s.running, s.queues[j][0])
      && Refilled(s).slot[j] >= 1
  {
    ChooseIsWorkConserving(s);
  }

  lemma GetProcPlaced(g: Config, s: Sim, c: int, idle: Loc)
    requires Base(g, s) && Placed(g, s) && 0 <= c < g.cpus && s.cpus[c].proc == None
    requires (idle == Recheck || idle == IdleCheck) && (Choose(s.sched).Serve? ==> |s.sched.running| < MAX_QUEUE_SIZE)
    ensures Base(g, GetProc(g, s, c, idle)) && Placed(g, GetProc(g, s, c, idle))
  {
    var s' := GetProc(g, s, c, idle);
    GetProcBase(g, s, c, idle);
    if Choose(s.sched).Idle? {
      QuietPlaced(g, s, s', c);
    } else {
      DispatchPlaced(g, s, c, idle);
    }
  }

  lemma DispatchPlaced(g: Config, s: Sim, c: int, idle: Loc)
    requires Base(g, s) && Placed(g, s) && 0 <= c < g.cpus && s.cpus[c].proc == None
    requires Choose(s.sched).Serve? && |s.sched.running| < MAX_QUEUE_SIZE && Base(g, GetProc(g, s, c, idle))
    ensures Placed(g, GetProc(g, s, c, idle))
  {
    var s', p := GetProc(g, s, c, idle), Picked(s);
    PickedIsReady(g, s);
    assert ProcOk(g, s, p);
    var left := g.size[p] - s.pc[p];
    GetLists(s.sched, left, g.timeSlot);
    QuantumIsLeast(left, Refilled(s.sched).slot[g.prio[p]], g.timeSlot);
    forall i | 0 <= i < MAX_PRIO ensures QueueOk(g, s', i) {
      assert QueueOk(g, s, i);
      var q := s.sched.queues[i];
      forall x ensures Occ(s'.sched.queues[i], x) == if In(s'.place, g.prio, i, x) then 1 else 0 {
        assert q != [] ==> Occ(q, x) == (if q[0] == x then 1 else 0) + Occ(q[1..], x);
      }
    }
    forall x ensures Occ(s'.sched.running, x) == if On(s'.place, x) then 1 else 0 {
      EnqueuedOcc(s.sched.running, p, x);
    }
    forall d | 0 <= d < g.cpus ensures CpuHolds(g, s', d) {
      assert CpuHolds(g, s, d);
    }
    forall q | 0 <= q < |g.prio| ensures ProcOk(g, s', q) {
      assert ProcOk(g, s, q);
      if q != p {
        Untouched(g, s, s', c, q);
      }
    }
  }

  /** A step of CPU `c` that moves no process: only its own `loc` may change, and not to or from `Recheck` with a
      process in hand. */
  lemma QuietPlaced(g: Config, s: Sim, s': Sim, c: int)
    requires WellFormed(g, s) && WellFormed(g, s') && Placed(g, s)
    requires s'.sched.queues == s.sched.queues && s'.sched.running == s.sched.running && s'.place == s.place
    requires s'.pc == s.pc && s'.charged == s.charged && s'.quantum == s.quantum && s'.ld.next == s.ld.next
    requires forall d :: 0 <= d < g.cpus && d != c ==> s'.cpus[d] == s.cpus[d]
    requires 0 <= c < g.cpus ==>
               && s'.cpus[c].proc == s.cpus[c].proc
               && (s.cpus[c].proc.Some? ==> s'.cpus[c].timeLeft == s.cpus[c].timeLeft && s.cpus[c].loc != Recheck
                                            && s'.cpus[c].loc != Recheck)
    ensures Placed(g, s')
  {
    forall i | 0 <= i < MAX_PRIO ensures QueueOk(g, s', i) {
      assert QueueOk(g, s, i);
    }
    forall d | 0 <= d < g.cpus ensures CpuHolds(g, s', d) {
      assert CpuHolds(g, s, d);
    }
    forall p | 0 <= p < |g.prio| ensures ProcOk(g, s', p) {
      assert ProcOk(g, s, p);
    }
  }

  lemma LeaveRunning(s: Sim, s': Sim, p: int, c: int, to: Place)
    requires RunningOk(s) && 0 <= p < |s.place| && s.place[p] == OnCpu(c) && !to.OnCpu?
    requires s'.place == s.place[p := to] && s'.sched.running == Without(s.sched.running, p)
    ensures RunningOk(s')
  {
    assert Occ(s.sched.running, p) == 1;
    forall x ensures Occ(s'.sched.running, x) == if On(s'.place, x) then 1 else 0 {
      WithoutOcc(s.sched.running, p, x);
    }
  }

  /** Queues when a process that is elsewhere becomes ready. */
  lemma JoinQueue(g: Config, s: Sim, s': Sim, p: int)
    requires WellFormed(g, s) && WellFormed(g, s') && 0 <= p < |g.prio| && s'.place == s.place[p := Ready]
    requires !s.place[p].Ready? && |s.sched.queues[g.prio[p]]| < MAX_QUEUE_SIZE
    requires s'.sched.queues == AddTo(s.sched, p, g.prio[p]).queues
    requires forall i :: 0 <= i < MAX_PRIO ==> QueueOk(g, s, i)
    ensures forall i :: 0 <= i < MAX_PRIO ==> QueueOk(g, s', i)
  {
    forall i | 0 <= i < MAX_PRIO ensures QueueOk(g, s', i) {
      assert QueueOk(g, s, i);
      forall x ensures Occ(s'.sched.queues[i], x) == if In(s'.place, g.prio, i, x) then 1 else 0 {
        if i == g.prio[p] {
          EnqueuedOcc(s.sched.queues[i], p, x);
        }
      }
    }
  }

  /** The process of CPU `c` leaves it: finished, or back to its queue. */
  lemma GiveUpPlaced(g: Config, s: Sim, s': Sim, c: int, p: int)
    requires Base(g, s) && Placed(g, s) && 0 <= c < g.cpus && 0 <= p < |g.prio|
    requires s.pc[p] >= g.size[p] || |s.sched.queues[g.prio[p]]| < MAX_QUEUE_SIZE
    requires s.cpus[c] == Cpu(Top, Some(p), s.cpus[c].timeLeft) && WellFormed(g, s')
    requires (s.pc[p] >= g.size[p] && s' == FinishProc(s, c, p))
          || (s.pc[p] < g.size[p] && s.cpus[c].timeLeft == 0 && s' == PutProc(g, s, c, p))
    ensures Placed(g, s') && s.cpus[c].timeLeft == 0
    ensures s.pc[p] >= g.size[p] ==> s.charged[p] == g.size[p]
  {
    assert CpuHolds(g, s, c) && ProcOk(g, s, p);
    var to := s'.place[p];
    LeaveRunning(s, s', p, c, to);
    if to == Ready {
      JoinQueue(g, s, s', p);
    } else {
      forall i | 0 <= i < MAX_PRIO ensures QueueOk(g, s', i) {
        assert QueueOk(g, s, i);
      }
    }
    forall d | 0 <= d < g.cpus ensures CpuHolds(g, s', d) {
      assert CpuHolds(g, s, d);
    }
    forall q | 0 <= q < |g.prio| ensures ProcOk(g, s', q) {
      assert ProcOk(g, s, q);
      if q != p {
        Untouched(g, s, s', c, q);
      }
    }
  }

  lemma RunProcPlaced(g: Config, s: Sim, c: int, p: int)
    requires Base(g, s) && Placed(g, s) && 0 <= c < g.cpus && 0 <= p < |g.prio| && s.cpus[c].proc == Some(p)
    requires s.cpus[c].loc == Recheck || (s.cpus[c].loc == Top && s.pc[p] < g.size[p] && s.cpus[c].timeLeft != 0)
    ensures var left := if s.cpus[c].timeLeft == 0 then s.quantum[p] else s.cpus[c].timeLeft;
      Placed(g, RunProc(g, s, c, p, left))
  {
    assert CpuHolds(g, s, c) && ProcOk(g, s, p);
    var left := if s.cpus[c].timeLeft == 0 then s.quantum[p] else s.cpus[c].timeLeft;
    var s' := RunProc(g, s, c, p, left);
    forall i | 0 <= i < MAX_PRIO ensures QueueOk(g, s', i) {
      assert QueueOk(g, s, i);
    }
    forall d | 0 <= d < g.cpus ensures CpuHolds(g, s', d) {
      assert CpuHolds(g, s, d);
    }
    forall q | 0 <= q < |g.prio| ensures ProcOk(g, s', q) {
      assert ProcOk(g, s, q);
      if q != p {
        Untouched(g, s, s', c, q);
      }
    }
  }

  lemma AddPlaced(g: Config, s: Sim)
    requires Base(g, s) && Placed(g, s) && Enabled(g, s, LoaderStep) && s.ld.loc == LdAdd && s.ld.next < |g.prio|
    requires |s.sched.queues[g.prio[s.ld.next]]| < MAX_QUEUE_SIZE
    ensures Base(g, LoaderMove(g, s)) && Placed(g, LoaderMove(g, s))
  {
    var s', p := LoaderMove(g, s), s.ld.next;
    LoaderMoveBase(g, s);
    assert ProcOk(g, s, p);
    JoinQueue(g, s, s', p);
    assert RunningOk(s') by {
      assert forall x :: On(s'.place, x) == On(s.place, x);
    }
    forall d | 0 <= d < g.cpus ensures CpuHolds(g, s', d) {
      assert CpuHolds(g, s, d);
    }
    forall q | 0 <= q < |g.prio| ensures ProcOk(g, s', q) {
      assert ProcOk(g, s, q);
    }
  }

  // ---------------------------------------------------------------------------------------------------------
  // All steps and all runs
  // ---------------------------------------------------------------------------------------------------------

  ghost predicate Good(g: Config, s: Sim) {
    Safe(g, s) && Placed(g, s)
  }

  /** CPU `c` is about to call `get_proc`. */
  predicate Asks(s: Sim, c: int)
    requires 0 <= c < |s.cpus|
  {
    s.cpus[c].loc == Fetch || (s.cpus[c].loc == Top && s.cpus[c].proc.None?)
  }

  /** CPU `c` is about to put `p` back. */
  predicate PutsBack(g: Config, s: Sim, c: int, p: int)
    requires WellFormed(g, s) && 0 <= c < g.cpus && 0 <= p < |g.prio|
  {
    s.cpus[c].loc == Top && s.cpus[c].proc == Some(p) && s.pc[p] < g.size[p] && s.cpus[c].timeLeft == 0
  }

  /** The list that a process joins in this step, if one does, is not full. */
  predicate Room(g: Config, s: Sim, a: Act)
    requires WellFormed(g, s) && Enabled(g, s, a)
  {
    match a
    case LoaderStep =>
      s.ld.loc == LdAdd && s.ld.next < |g.prio| ==> |s.sched.queues[g.prio[s.ld.next]]| < MAX_QUEUE_SIZE
    case CpuStep(c) =>
      && (Asks(s, c) && Choose(s.sched).Serve? ==> |s.sched.running| < MAX_QUEUE_SIZE)
      && (s.cpus[c].proc.Some? && PutsBack(g, s, c, s.cpus[c].proc.value) ==>
            |s.sched.queues[g.prio[s.cpus[c].proc.value]]| < MAX_QUEUE_SIZE)
    case _ => true
  }

  lemma CpuMovePlaced(g: Config, s: Sim, c: int)
    requires Good(g, s) && Enabled(g, s, CpuStep(c)) && Room(g, s, CpuStep(c))
    ensures Base(g, CpuMove(g, s, c)) && Placed(g, CpuMove(g, s, c))
  {
    var cpu, s' := s.cpus[c], CpuMove(g, s, c);
    CpuMoveBase(g, s, c);
    assert CpuOk(s, c);
    match cpu.loc
    case Top =>
      if cpu.proc.None? {
        GetProcPlaced(g, s, c, IdleCheck);
      } else if s.pc[cpu.proc.value] >= g.size[cpu.proc.value] || cpu.timeLeft == 0 {
        GiveUpPlaced(g, s, s', c, cpu.proc.value);
      } else {
        RunProcPlaced(g, s, c, cpu.proc.value);
      }
    case Fetch => GetProcPlaced(g, s, c, Recheck);
    case Recheck =>
      if cpu.proc.None? {
        QuietPlaced(g, s, s', c);
      } else {
        RunProcPlaced(g, s, c, cpu.proc.value);
      }
    case _ => QuietPlaced(g, s, s', c);
  }

  /** A process that becomes ready or running while the list stays as it was is in no list. */
  lemma Lost(g: Config, s: Sim, s': Sim, p: int)
    requires WellFormed(g, s) && WellFormed(g, s') && Placed(g, s) && 0 <= p < |g.prio|
    requires || (!s.place[p].Ready? && s'.place[p] == Ready && s'.sched.queues == s.sched.queues)
             || (!s.place[p].OnCpu? && s'.place[p].OnCpu? && s'.sched.running == s.sched.running)
    ensures !Placed(g, s')
  {
    if s'.place[p] == Ready {
      assert QueueOk(g, s, g.prio[p]);
      assert Occ(s'.sched.queues[g.prio[p]], p) == 0;
      assert !QueueOk(g, s', g.prio[p]);
    } else {
      assert Occ(s'.sched.running, p) == 0;
      assert !RunningOk(s');
    }
  }

  /** A step of a CPU that finds a list full loses the process. */
  lemma CpuMoveLoses(g: Config, s: Sim, c: int)
    requires Good(g, s) && Enabled(g, s, CpuStep(c)) && !Room(g, s, CpuStep(c)) && WellFormed(g, CpuMove(g, s, c))
    ensures !Placed(g, CpuMove(g, s, c))
  {
    var cpu, s' := s.cpus[c], CpuMove(g, s, c);
    assert CpuOk(s, c) && CpuHolds(g, s, c);
    if Asks(s, c) {
      PickedIsReady(g, s);
      GetLists(s.sched, g.size[Picked(s)] - s.pc[Picked(s)], g.timeSlot);
      Lost(g, s, s', Picked(s));
    } else {
      var p := cpu.proc.value;
      assert s.sched.queues[g.prio[p] := s.sched.queues[g.prio[p]]] == s.sched.queues;
      Lost(g, s, s', p);
    }
  }

  /** Exactly when a step keeps every process in one place, and its account: the list a process joins has room. */
  lemma StepGoodIff(g: Config, s: Sim, a: Act)
    requires Good(g, s) && Enabled(g, s, a)
    ensures Good(g, Do(g, s, a)) <==> Room(g, s, a)
  {
    StepSafe(g, s, a);
    if a.CpuStep? {
      if Room(g, s, a) {
        CpuMovePlaced(g, s, a.c);
      } else {
        CpuMoveLoses(g, s, a.c);
      }
    } else if !(a.LoaderStep? && s.ld.loc == LdAdd) {
      QuietPlaced(g, s, Do(g, s, a), -1);
    } else if Room(g, s, a) {
      AddPlaced(g, s);
    } else {
      var p := s.ld.next;
      assert ProcOk(g, s, p);
      assert s.sched.queues[g.prio[p] := s.sched.queues[g.prio[p]]] == s.sched.queues;
      Lost(g, s, Do(g, s, a), p);
    }
  }

  /** `Room` at every step of a run. */
  predicate Roomy(g: Config, s: Sim, acts: seq<Act>)
    requires Base(g, s) && IsRun(g, s, acts)
    decreases |acts|
  {
    acts == [] ||
    (Room(g, s, acts[0]) && (ApplyBase(g, s, acts[0]); Roomy(g, Do(g, s, acts[0]), acts[1..])))
  }

  lemma {:induction false} RunGood(g: Config, s: Sim, acts: seq<Act>)
    requires Good(g, s) && IsRun(g, s, acts) && Roomy(g, s, acts)
    ensures Good(g, After(g, s, acts))
    decreases |acts|
  {
    if acts != [] {
      StepGoodIff(g, s, acts[0]);
      RunGood(g, Do(g, s, acts[0]), acts[1..]);
    }
  }

  // ---------------------------------------------------------------------------------------------------------
  // When there is room
  // ---------------------------------------------------------------------------------------------------------

  /** No more live processes than a list holds, now and after the step: then there is room. */
  lemma FewLiveRoom(g: Config, s: Sim, a: Act)
    requires Good(g, s) && Enabled(g, s, a) && FewLive(s) && FewLive(Do(g, s, a))
    ensures Room(g, s, a)
  {
    var live := Live(s.place);
    if a.LoaderStep? && s.ld.loc == LdAdd {
      var p := s.ld.next;
      assert ProcOk(g, s, p) && QueueOk(g, s, g.prio[p]);
      assert Live(s.place[p := Ready]) == Live(s.place) + {p};
      assert Occ(s.sched.queues[g.prio[p]], p) == 0;
      ShortList(s.sched.queues[g.prio[p]], Live(Do(g, s, a).place), p);
    } else if a.CpuStep? {
      assert CpuOk(s, a.c) && CpuHolds(g, s, a.c);
      if Asks(s, a.c) && Choose(s.sched).Serve? {
        PickedIsReady(g, s);
        assert Occ(s.sched.running, Picked(s)) == 0;
        ShortList(s.sched.running, live, Picked(s));
      } else if s.cpus[a.c].proc.Some? {
        var p := s.cpus[a.c].proc.value;
        assert QueueOk(g, s, g.prio[p]);
        assert Occ(s.sched.queues[g.prio[p]], p) == 0;
        ShortList(s.sched.queues[g.prio[p]], live, p);
      }
    }
  }

  /** At most MAX_QUEUE_SIZE live processes in every state of a run. */
  predicate FewLiveAlong(g: Config, s: Sim, acts: seq<Act>)
    requires Base(g, s) && IsRun(g, s, acts)
    decreases |acts|
  {
    FewLive(s) &&
    (acts == [] || (ApplyBase(g, s, acts[0]); FewLiveAlong(g, Do(g, s, acts[0]), acts[1..])))
  }

  lemma {:induction false} FewLiveRoomy(g: Config, s: Sim, acts: seq<Act>)
    requires Good(g, s) && IsRun(g, s, acts) && FewLiveAlong(g, s, acts)
    ensures Roomy(g, s, acts)
    decreases |acts|
  {
    if acts != [] {
      ApplyBase(g, s, acts[0]);
      FewLiveRoom(g, s, acts[0]);
      StepGoodIff(g, s, acts[0]);
      FewLiveRoomy(g, Do(g, s, acts[0]), acts[1..]);
    }
  }

  lemma FewPrograms(g: Config, s: Sim, a: Act)
    requires Good(g, s) && Enabled(g, s, a) && |g.prio| <= MAX_QUEUE_SIZE
    ensures Room(g, s, a)
  {
    ApplyBase(g, s, a);
    LiveBelow(s.place);
    LiveBelow(Do(g, s, a).place);
    FewLiveRoom(g, s, a);
  }

  /** With no more programs than a list holds every run has room. */
  lemma {:induction false} FewProgramsRoomy(g: Config, s: Sim, acts: seq<Act>)
    requires Good(g, s) && IsRun(g, s, acts) && |g.prio| <= MAX_QUEUE_SIZE
    ensures Roomy(g, s, acts)
    decreases |acts|
  {
    if acts != [] {
      FewPrograms(g, s, acts[0]);
      StepGoodIff(g, s, acts[0]);
      FewProgramsRoomy(g, Do(g, s, acts[0]), acts[1..]);
    }
  }

  /** How many places hold process `p`: the ready queue of its priority, the running list. */
  function Places(g: Config, s: Sim, p: int): nat
    requires WellFormed(g, s) && 0 <= p < |g.prio|
  {
    Occ(s.sched.queues[g.prio[p]], p) + Occ(s.sched.running, p)
  }

  /** Process conservation, and credit charged equals instructions run, in every run in which each list a process joins
      has room: a loaded process is in exactly one place until it is finished, never in a queue of another priority; and
      at its end a process has been charged exactly its length. */
  lemma ProcessConservation(g: Config, acts: seq<Act>, p: int)
    requires ConfigOk(g) && IsRun(g, Start(g), acts) && Roomy(g, Start(g), acts) && 0 <= p < |g.prio|
    ensures var s := After(g, Start(g), acts);
      && Places(g, s, p) == (if s.place[p].Ready? || s.place[p].OnCpu? then 1 else 0)
      && (s.place[p].NotLoaded? <==> p >= s.ld.next)
      && (forall i :: 0 <= i < MAX_PRIO && i != g.prio[p] ==> p !in s.sched.queues[i])
      && s.pc[p] <= s.charged[p] <= g.size[p]
      && (s.place[p].Gone? ==> s.charged[p] == s.pc[p] == g.size[p])
      && (s.place[p].Ready? ==> s.charged[p] == s.pc[p] < g.size[p])
  {
    RunGood(g, Start(g), acts);
    var s := After(g, Start(g), acts);
    assert ProcOk(g, s, p) && QueueOk(g, s, g.prio[p]);
    forall i | 0 <= i < MAX_PRIO && i != g.prio[p] ensures p !in s.sched.queues[i] {
      assert QueueOk(g, s, i);
      assert Occ(s.sched.queues[i], p) == 0;
    }
  }

  /** Shutdown and conservation together: in every such run that ends with all threads stopped, every program has run to
      its end and has been charged its length. */
  lemma EveryProgramEnds(g: Config, acts: seq<Act>, p: int)
    requires ConfigOk(g) && IsRun(g, Start(g), acts) && Roomy(g, Start(g), acts) && 0 <= p < |g.prio|
    requires AllThreadsStopped(After(g, Start(g), acts))
    ensures var s := After(g, Start(g), acts);
      s.place[p] == Gone && s.charged[p] == s.pc[p] == g.size[p]
  {
    ShutdownSafety(g, acts);
    RunGood(g, Start(g), acts);
    var s := After(g, Start(g), acts);
    assert ProcOk(g, s, p) && QueueOk(g, s, g.prio[p]);
    assert Occ(s.sched.queues[g.prio[p]], p) == 0;
  }
}
