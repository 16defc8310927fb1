/** Where a process is listed, over runs of the scheduler with kills: the invariant behind `kill_in_queue`, which
    decides by the `running_list` field of a process from which list to take it. */
module Homes {
  import opened Seqs
  import opened Queue
  import opened Sched

  /** `flagged` are the processes whose `running_list` field is set, `held` those a CPU holds, `known` all that ever
      arrived; `out` those that have ended, were killed, or were dropped by a full list. */
  datatype Home = Home(sched: Sched<int>, flagged: set<int>, held: set<int>, known: set<int>, out: set<int>)

  /** Dispatch, arrival, put-back, end on the CPU, and the kill of a process met in some list. */
  datatype Act = Dispatch(left: int) | Arrive(pid: int) | Return(pid: int) | End(pid: int) | Kill(pid: int)

  /** Processes arrive once; a CPU gives up only what it holds. */
  predicate Owed(h: Home, a: Act) {
    match a
    case Dispatch(left) => left >= 1
    case Arrive(p) => p !in h.known
    case Return(p) => p in h.held
    case End(p) => p in h.held
    case Kill(_) => true
  }

  /** Every process has a priority in range. */
  ghost predicate Ranked(prio: int -> int) {
    forall p :: 0 <= prio(p) < MAX_PRIO
  }

  /** `out` after `p` joined a list. */
  function Joined(out: set<int>, p: int, room: bool): set<int> {
    if room then out - {p} else out + {p}
  }

  function Do(h: Home, a: Act, prio: int -> int, timeSlot: int): Home
    requires Shaped(h.sched) && Owed(h, a) && (!a.Dispatch? ==> 0 <= prio(a.pid) < MAX_PRIO)
  {
    var s := h.sched;
    match a
    case Dispatch(left) =>
      if Choose(s).Idle? then h.(sched := Refilled(s))
      else
        h.(sched := GetMlq(s, left, timeSlot), flagged := h.flagged + {Winner(s)}, held := h.held + {Winner(s)},
           out := Joined(h.out, Winner(s), |s.running| < MAX_QUEUE_SIZE))
    case Arrive(p) =>
      h.(sched := Step(s, Add(p, prio(p)), timeSlot), known := h.known + {p},
         out := Joined(h.out, p, |s.queues[prio(p)]| < MAX_QUEUE_SIZE))
    case Return(p) =>
      Home(Step(s, PutBack(p, prio(p)), timeSlot), h.flagged - {p}, h.held - {p}, h.known,
           Joined(h.out, p, |s.queues[prio(p)]| < MAX_QUEUE_SIZE))
    case End(p) => h.(sched := Step(s, Finish(p), timeSlot), held := h.held - {p}, out := h.out + {p})
    case Kill(p) =>
      h.(sched := Step(s, if p in h.flagged then Finish(p) else Op.Kill(p, prio(p)), timeSlot), out := h.out + {p})
  }

  /** Queue `i` lists exactly the processes of priority `i` that are not out and whose field is clear, each once. */
  ghost predicate QueueHome(h: Home, prio: int -> int, i: int)
    requires Shaped(h.sched) && 0 <= i < MAX_PRIO
  {
    forall x :: Occ(h.sched.queues[i], x) ==
                if x in h.known && x !in h.flagged && x !in h.out && prio(x) == i then 1 else 0
  }

  /** The running list lists exactly the processes that are not out and whose field is set, each once. */
  ghost predicate RunningHome(h: Home) {
    forall x :: Occ(h.sched.running, x) == if x in h.flagged && x !in h.out then 1 else 0
  }

  ghost predicate HomeOk(h: Home, prio: int -> int) {
    && SchedOk(h.sched) && h.held <= h.flagged <= h.known && RunningHome(h)
    && forall i :: 0 <= i < MAX_PRIO ==> QueueHome(h, prio, i)
  }

  // ---------------------------------------------------------------------------------------------------------
  // Steps
  // ---------------------------------------------------------------------------------------------------------

  /** The head of queue `i` moves to the running list, and its field is set. */
  lemma DispatchHome(h: Home, h': Home, prio: int -> int, i: int)
    requires HomeOk(h, prio) && SchedOk(h'.sched) && 0 <= i < MAX_PRIO && h.sched.queues[i] != []
    requires var p := h.sched.queues[i][0];
      && h'.sched.queues == h.sched.queues[i := h.sched.queues[i][1..]]
      && h'.sched.running == Enqueued(h.sched.running, p)
      && h'.flagged == h.flagged + {p} && h'.held == h.held + {p} && h'.known == h.known
      && h'.out == Joined(h.out, p, |h.sched.running| < MAX_QUEUE_SIZE)
    ensures HomeOk(h', prio)
  {
    var q := h.sched.queues[i];
    assert QueueHome(h, prio, i) && Occ(q, q[0]) > 0;
    forall x ensures Occ(h'.sched.running, x) == if x in h'.flagged && x !in h'.out then 1 else 0 {
      EnqueuedOcc(h.sched.running, q[0], x);
    }
    forall j | 0 <= j < MAX_PRIO ensures QueueHome(h', prio, j) {
      assert QueueHome(h, prio, j);
      assert forall x :: Occ(q, x) == (if q[0] == x then 1 else 0) + Occ(q[1..], x);
    }
  }

  /** A process that is in no queue joins the queue of its priority, with its field clear. */
  lemma JoinHome(h: Home, h': Home, prio: int -> int, p: int)
    requires HomeOk(h, prio) && 0 <= prio(p) < MAX_PRIO && (p in h.flagged || p !in h.known)
    requires Shaped(h'.sched) && h'.sched.queues == AddTo(h.sched, p, prio(p)).queues
    requires h'.flagged == h.flagged - {p} && h'.known == h.known + {p}
    requires h'.out == Joined(h.out, p, |h.sched.queues[prio(p)]| < MAX_QUEUE_SIZE)
    ensures forall j :: 0 <= j < MAX_PRIO ==> QueueHome(h', prio, j)
  {
    forall j | 0 <= j < MAX_PRIO ensures QueueHome(h', prio, j) {
      assert QueueHome(h, prio, j);
      forall x ensures Occ(h'.sched.queues[j], x) ==
                       if x in h'.known && x !in h'.flagged && x !in h'.out && prio(x) == j then 1 else 0 {
        if j == prio(p) {
          EnqueuedOcc(h.sched.queues[j], p, x);
        }
      }
    }
  }

  lemma LeaveHome(q: seq<int>, p: int)
    ensures forall x :: Occ(Without(q, p), x) == if x == p && p in q then Occ(q, x) - 1 else Occ(q, x)
  {
    forall x ensures Occ(Without(q, p), x) == if x == p && p in q then Occ(q, x) - 1 else Occ(q, x) {
      WithoutOcc(q, p, x);
    }
  }

  /** The running list loses `p`, whose field is cleared, or which is out. */
  lemma LeaveRunning(h: Home, h': Home, p: int)
    requires RunningHome(h) && h'.sched.running == Without(h.sched.running, p)
    requires forall x :: x != p ==> (x in h'.flagged <==> x in h.flagged) && (x in h'.out <==> x in h.out)
    requires p !in h'.flagged || p in h'.out
    ensures RunningHome(h')
  {
    LeaveHome(h.sched.running, p);
    forall x ensures Occ(h'.sched.running, x) == if x in h'.flagged && x !in h'.out then 1 else 0 {
      assert Occ(h.sched.running, x) == if x in h.flagged && x !in h.out then 1 else 0;
    }
  }

  /** The queues keep what they list, and only processes that are in none go out. */
  lemma SameQueues(h: Home, h': Home, prio: int -> int)
    requires HomeOk(h, prio) && Shaped(h'.sched) && h'.sched.queues == h.sched.queues
    requires h'.flagged == h.flagged && h'.known == h.known
    requires forall x :: x !in h.flagged ==> (x in h'.out <==> x in h.out)
    ensures forall j :: 0 <= j < MAX_PRIO ==> QueueHome(h', prio, j)
  {
    forall j | 0 <= j < MAX_PRIO ensures QueueHome(h', prio, j) {
      assert QueueHome(h, prio, j);
    }
  }

  lemma GetHome(h: Home, left: int, prio: int -> int, timeSlot: int)
    requires HomeOk(h, prio) && left >= 1 && timeSlot >= 1
    ensures HomeOk(Do(h, Dispatch(left), prio, timeSlot), prio)
  {
    var s, h' := h.sched, Do(h, Dispatch(left), prio, timeSlot);
    ChooseIsWorkConserving(s);
    GetMlqOk(s, left, timeSlot);
    if Choose(s).Serve? {
      DispatchHome(h, h', prio, Choose(s).queue);
    } else {
      SameQueues(h, h', prio);
    }
  }

  lemma KillHome(h: Home, p: int, prio: int -> int, timeSlot: int)
    requires HomeOk(h, prio) && timeSlot >= 1 && Ranked(prio)
    ensures HomeOk(Do(h, Act.Kill(p), prio, timeSlot), prio)
  {
    var h' := Do(h, Act.Kill(p), prio, timeSlot);
    if p in h.flagged {
      SameQueues(h, h', prio);
      LeaveRunning(h, h', p);
    } else {
      LeaveHome(h.sched.queues[prio(p)], p);
      forall j | 0 <= j < MAX_PRIO ensures QueueHome(h', prio, j) {
        assert QueueHome(h, prio, j);
      }
    }
  }

  lemma StepHome(h: Home, a: Act, prio: int -> int, timeSlot: int)
    requires HomeOk(h, prio) && Owed(h, a) && timeSlot >= 1 && Ranked(prio)
    ensures HomeOk(Do(h, a, prio, timeSlot), prio)
  {
    var h' := Do(h, a, prio, timeSlot);
    match a
    case Dispatch(left) => GetHome(h, left, prio, timeSlot);
    case Arrive(p) => JoinHome(h, h', prio, p);
    case Return(p) =>
      JoinHome(h, h', prio, p);
      LeaveRunning(h, h', p);
    case End(p) =>
      SameQueues(h, h', prio);
      LeaveRunning(h, h', p);
    case Kill(p) => KillHome(h, p, prio, timeSlot);
  }

  // ---------------------------------------------------------------------------------------------------------
  // Runs
  // ---------------------------------------------------------------------------------------------------------

  function Start(): Home {
    Home(Init(), {}, {}, {}, {})
  }

  ghost predicate IsRun(h: Home, acts: seq<Act>, prio: int -> int, timeSlot: int)
    requires HomeOk(h, prio) && timeSlot >= 1 && Ranked(prio)
    decreases |acts|
  {
    acts == [] ||
    (Owed(h, acts[0])
     && (StepHome(h, acts[0], prio, timeSlot); IsRun(Do(h, acts[0], prio, timeSlot), acts[1..], prio, timeSlot)))
  }

  ghost function After(h: Home, acts: seq<Act>, prio: int -> int, timeSlot: int): (h': Home)
    requires HomeOk(h, prio) && timeSlot >= 1 && Ranked(prio)
    requires IsRun(h, acts, prio, timeSlot)
    ensures HomeOk(h', prio)
    decreases |acts|
  {
    if acts == [] then h
    else
      StepHome(h, acts[0], prio, timeSlot);
      After(Do(h, acts[0], prio, timeSlot), acts[1..], prio, timeSlot)
  }

  /** In every run a process that has arrived is out, or where its fields say, and in no second place. */
  lemma ListedAtHome(acts: seq<Act>, prio: int -> int, timeSlot: int, p: int, i: int)
    requires timeSlot >= 1 && Ranked(prio) && 0 <= i < MAX_PRIO
    requires IsRun(Start(), acts, prio, timeSlot)
    ensures var h := After(Start(), acts, prio, timeSlot);
      && Occ(h.sched.running, p) == (if p in h.flagged && p !in h.out then 1 else 0)
      && (p in h.known ==>
            Occ(h.sched.queues[i], p) == if p !in h.flagged && p !in h.out && prio(p) == i then 1 else 0)
      && (p !in h.known ==> p !in h.sched.queues[i] && p !in h.sched.running)
  {
    var h := After(Start(), acts, prio, timeSlot);
    assert QueueHome(h, prio, i);
    assert Occ(h.sched.running, p) == if p in h.flagged && p !in h.out then 1 else 0;
    assert Occ(h.sched.queues[i], p) == if p in h.known && p !in h.flagged && p !in h.out && prio(p) == i then 1 else 0;
  }

  /** So a kill takes a process it meets in any list out of all of them, and moves no other. */
  lemma KillTakesOut(acts: seq<Act>, prio: int -> int, timeSlot: int, p: int, i: int, x: int)
    requires timeSlot >= 1 && Ranked(prio) && 0 <= i < MAX_PRIO
    requires IsRun(Start(), acts, prio, timeSlot)
    ensures var h := After(Start(), acts, prio, timeSlot); var s' := Do(h, Act.Kill(p), prio, timeSlot).sched;
      && Occ(s'.running, x) == (if x == p then 0 else Occ(h.sched.running, x))
      && Occ(s'.queues[i], x) == (if x == p then 0 else Occ(h.sched.queues[i], x))
  {
    var h := After(Start(), acts, prio, timeSlot);
    ListedAtHome(acts, prio, timeSlot, p, i);
    ListedAtHome(acts, prio, timeSlot, p, prio(p));
    LeaveHome(h.sched.running, p);
    LeaveHome(h.sched.queues[prio(p)], p);
  }

  // ---------------------------------------------------------------------------------------------------------
  // Who is out
  // ---------------------------------------------------------------------------------------------------------

  /** The list that a process joins in this step is not full. */
  predicate HasRoom(h: Home, a: Act, prio: int -> int)
    requires Shaped(h.sched) && (!a.Dispatch? ==> 0 <= prio(a.pid) < MAX_PRIO)
  {
    match a
    case Dispatch(_) => Choose(h.sched).Serve? ==> |h.sched.running| < MAX_QUEUE_SIZE
    case Arrive(p) => |h.sched.queues[prio(p)]| < MAX_QUEUE_SIZE
    case Return(p) => |h.sched.queues[prio(p)]| < MAX_QUEUE_SIZE
    case _ => true
  }

  ghost predicate RoomAlong(h: Home, acts: seq<Act>, prio: int -> int, timeSlot: int)
    requires HomeOk(h, prio) && timeSlot >= 1 && Ranked(prio) && IsRun(h, acts, prio, timeSlot)
    decreases |acts|
  {
    acts == [] ||
    (HasRoom(h, acts[0], prio)
     && (StepHome(h, acts[0], prio, timeSlot); RoomAlong(Do(h, acts[0], prio, timeSlot), acts[1..], prio, timeSlot)))
  }

  /** Which processes have ended or been killed and not come back since, by the run alone. */
  function Ended(acts: seq<Act>, out: set<int>): set<int> {
    if acts == [] then out
    else
      match acts[0]
      case Dispatch(_) => Ended(acts[1..], out)
      case Arrive(p) => Ended(acts[1..], out - {p})
      case Return(p) => Ended(acts[1..], out - {p})
      case End(p) => Ended(acts[1..], out + {p})
      case Kill(p) => Ended(acts[1..], out + {p})
  }

  lemma {:induction false} RunOut(h: Home, acts: seq<Act>, prio: int -> int, timeSlot: int)
    requires HomeOk(h, prio) && timeSlot >= 1 && Ranked(prio) && IsRun(h, acts, prio, timeSlot)
    requires RoomAlong(h, acts, prio, timeSlot)
    ensures After(h, acts, prio, timeSlot).out == Ended(acts, h.out)
    decreases |acts|
  {
    if acts != [] {
      var h' := Do(h, acts[0], prio, timeSlot);
      StepHome(h, acts[0], prio, timeSlot);
      if acts[0].Dispatch? && Choose(h.sched).Serve? {
        ChooseIsWorkConserving(h.sched);
        assert QueueHome(h, prio, Choose(h.sched).queue);
        assert Occ(h.sched.queues[Choose(h.sched).queue], Winner(h.sched)) > 0;
        assert h.out - {Winner(h.sched)} == h.out;
      }
      RunOut(h', acts[1..], prio, timeSlot);
    }
  }

  /** Conservation under kills: in every run in which each list that a process joins has room, a process is listed exactly
      if it has arrived and has not ended or been killed since it last arrived or was put back; then it is in the list
      its fields name, once. */
  lemma ListedIff(acts: seq<Act>, prio: int -> int, timeSlot: int, p: int)
    requires timeSlot >= 1 && Ranked(prio)
    requires IsRun(Start(), acts, prio, timeSlot) && RoomAlong(Start(), acts, prio, timeSlot)
    ensures var h := After(Start(), acts, prio, timeSlot); var listed := p in h.known && p !in Ended(acts, {});
      && Occ(h.sched.running, p) == (if listed && p in h.flagged then 1 else 0)
      && Occ(h.sched.queues[prio(p)], p) == (if listed && p !in h.flagged then 1 else 0)
      && forall i :: 0 <= i < MAX_PRIO && i != prio(p) ==> p !in h.sched.queues[i]
  {
    var h := After(Start(), acts, prio, timeSlot);
    RunOut(Start(), acts, prio, timeSlot);
    ListedAtHome(acts, prio, timeSlot, p, prio(p));
    forall i | 0 <= i < MAX_PRIO && i != prio(p) ensures p !in h.sched.queues[i] {
      ListedAtHome(acts, prio, timeSlot, p, i);
    }
  }
}
