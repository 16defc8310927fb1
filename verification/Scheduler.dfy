/** The scheduler of `sched.c` with its static state: 140 queue objects, the credit array, the running list and the
    flag, updated in place and proved against the policy in `Sched`. */
module Scheduler {
  import opened Queue
  import opened Sched

  /** `p` was the head of queue `i`, got its quantum, and was charged for it. */
  ghost predicate Charged(s: Sched<Pcb>, i: int, p: Pcb, timeSlot: int, s': Sched<Pcb>)
    reads p
  {
    && Shaped(s) && 0 <= i < MAX_PRIO && s.queues[i] != [] && p == s.queues[i][0]
    && p.timeSlot == Quantum(p.size - p.pc, s.slot[i], timeSlot)
    && s' == Charge(s, i, p.timeSlot)
  }

  /** `p` was the head of queue `i`, got its quantum and runs. */
  ghost predicate Dispatched(s: Sched<Pcb>, i: int, p: Pcb, timeSlot: int, s': Sched<Pcb>)
    reads p
  {
    && Shaped(s) && 0 <= i < MAX_PRIO && s.queues[i] != [] && p == s.queues[i][0] && p.onRunningList
    && p.timeSlot == Quantum(p.size - p.pc, s.slot[i], timeSlot)
    && s' == Grant(s, i, p.timeSlot)
  }

  /** `p` is the process the policy picks, and the new state is the policy's. */
  ghost predicate Picked(s: Sched<Pcb>, p: Pcb, timeSlot: int, s': Sched<Pcb>)
    reads p
  {
    && Shaped(s) && Choose(s).Serve? && p == Winner(s) && p.onRunningList
    && p.timeSlot == Quantum(p.size - p.pc, Refilled(s).slot[Choose(s).queue], timeSlot)
    && s' == GetMlq(s, p.size - p.pc, timeSlot)
  }

  ghost predicate Distinct(q: seq<Pcb>) {
    forall j, k :: 0 <= j < k < |q| ==> q[j] != q[k]
  }

  ghost function Members(queues: seq<seq<Pcb>>, running: seq<Pcb>): set<Pcb> {
    (set i, k | 0 <= i < |queues| && 0 <= k < |queues[i]| :: queues[i][k]) + (set p | p in running)
  }

  /** Fields as they should be, except perhaps that of `p`. */
  ghost predicate PlacedBut(queues: seq<seq<Pcb>>, running: seq<Pcb>, p: Pcb?)
    reads Members(queues, running)`onRunningList
  {
    && (forall i, k :: 0 <= i < |queues| && 0 <= k < |queues[i]| ==>
                         queues[i][k].prio == i && (queues[i][k] != p ==> !queues[i][k].onRunningList))
    && (forall k :: 0 <= k < |running| ==>
                      running[k].prio < |queues| && (running[k] != p ==> running[k].onRunningList))
    && (forall i :: 0 <= i < |queues| ==> Distinct(queues[i])) && Distinct(running)
  }

  /** The placement that `killall` relies on: a process waits in the queue of its own priority with its `running_list`
      field clear, or is on the running list with the field set, and is listed once. */
  ghost predicate Placed(queues: seq<seq<Pcb>>, running: seq<Pcb>)
    reads Members(queues, running)`onRunningList
  {
    PlacedBut(queues, running, null)
  }

  lemma WithoutDistinct(q: seq<Pcb>, p: Pcb)
    requires Distinct(q)
    ensures var w := Without(q, p); Distinct(w) && forall k :: 0 <= k < |w| ==> w[k] in q && w[k] != p
  {
    if p in q {
      var i :| 0 <= i < |q| && q[i] == p;
      WithoutAt(q, i);
    } else {
      WithoutAbsent(q, p);
    }
  }

  /** A dispatch keeps the placement. */
  lemma DispatchPlaced(queues: seq<seq<Pcb>>, running: seq<Pcb>, i: int, p: Pcb)
    requires 0 <= i < |queues| && queues[i] != [] && p == queues[i][0] && p.onRunningList && p !in running
    requires PlacedBut(queues, running, p)
    ensures Placed(queues[i := queues[i][1..]], Enqueued(running, p))
  {
    var now: seq<seq<Pcb>> := queues[i := queues[i][1..]];
    forall j: int, k: int | 0 <= j < |now| && 0 <= k < |now[j]| ensures now[j][k].prio == j && !now[j][k].onRunningList {
      var k' := if j == i then k + 1 else k;
      assert now[j][k] == queues[j][k'] && now[j][k] != p;
    }
  }

  /** A put-back keeps the placement. */
  lemma PutPlaced(queues: seq<seq<Pcb>>, running: seq<Pcb>, p: Pcb)
    requires p.prio < |queues| && !p.onRunningList && p !in queues[p.prio] && PlacedBut(queues, running, p)
    ensures Placed(queues[p.prio := Enqueued(queues[p.prio], p)], Without(running, p))
  {
    WithoutDistinct(running, p);
    var rest := Without(running, p);
    forall k | 0 <= k < |rest| ensures rest[k].onRunningList && rest[k].prio < |queues| {
      assert rest[k] in running;
    }
  }

  /** An arrival keeps the placement. */
  lemma AddPlaced(queues: seq<seq<Pcb>>, running: seq<Pcb>, p: Pcb)
    requires Placed(queues, running) && p.prio < |queues| && !p.onRunningList && p !in queues[p.prio]
    ensures Placed(queues[p.prio := Enqueued(queues[p.prio], p)], running)
  {
  }

  /** A dispatch keeps the flag invariant. */
  lemma PickedOk(s: Sched<Pcb>, p: Pcb, timeSlot: int, s': Sched<Pcb>)
    requires SchedOk(s) && Picked(s, p, timeSlot, s') && p.pc <= p.size && timeSlot >= 1
    ensures SchedOk(s')
  {
    GetMlqOk(s, p.size - p.pc, timeSlot);
  }

  lemma PickedLists(s: Sched<Pcb>, p: Pcb, timeSlot: int, s': Sched<Pcb>) returns (i: int)
    requires SchedOk(s) && Picked(s, p, timeSlot, s')
    ensures 0 <= i < |s.queues| && s.queues[i] != [] && p == s.queues[i][0] && p.onRunningList
    ensures s'.queues == s.queues[i := s.queues[i][1..]] && s'.running == Enqueued(s.running, p)
  {
    ChooseIsWorkConserving(s);
    i := Choose(s).queue;
  }

  class Scheduler {
    const mlq: seq<Queue>
    const running: Queue
    const slot: array<int>
    const timeSlot: int
    var resetSlot: bool
    /** The contents of the queues, by priority. */
    ghost var queues: seq<seq<Pcb>>

    /** Everything that makes up this scheduler, apart from the processes. */
    ghost function Repr(): set<object>
      reads this
    {
      {this, running, running.proc, slot} + (set i | 0 <= i < |mlq| :: mlq[i] as object)
        + (set i | 0 <= i < |mlq| :: mlq[i].proc as object)
    }

    ghost function Lists(): set<Queue>
      reads this
    {
      set i | 0 <= i < |mlq| :: mlq[i]
    }

    ghost function Buffers(): set<array<Pcb?>>
      reads this
    {
      set i | 0 <= i < |mlq| :: mlq[i].proc
    }

    ghost predicate Separate()
      reads this
    {
      && |mlq| == MAX_PRIO
      && slot as object != running.proc
      && (forall i :: 0 <= i < MAX_PRIO ==>
            mlq[i] != running && mlq[i].proc != running.proc && mlq[i].proc as object != slot)
      && (forall i, j :: 0 <= i < j < MAX_PRIO ==> mlq[i] != mlq[j] && mlq[i].proc != mlq[j].proc)
    }

    /** The queues hold what `queues` says; a process waits only in the queue of its own priority. */
    ghost predicate Valid()
      reads this, Repr()
    {
      && Separate() && slot.Length == MAX_PRIO && timeSlot >= 1 && running.Valid() && |queues| == MAX_PRIO
      && (forall i :: 0 <= i < MAX_PRIO ==> mlq[i].Valid() && mlq[i].Contents() == queues[i])
      && (forall i, k :: 0 <= i < MAX_PRIO && 0 <= k < |queues[i]| ==> queues[i][k].prio == i)
    }

    ghost predicate WellPlaced()
      requires Valid()
      reads this, Repr(), Members(queues, running.Contents())`onRunningList
    {
      Placed(queues, running.Contents())
    }

    ghost function State(): Sched<Pcb>
      requires Valid()
      reads this, Repr()
    {
      Sched(queues, slot[..], resetSlot, running.Contents())
    }

    /** `init_scheduler`. */
    constructor (timeSlotNum: int)
      requires timeSlotNum >= 1
      ensures Valid() && fresh(Repr()) && State() == Init() && timeSlot == timeSlotNum && WellPlaced()
    {
      var qs: seq<Queue> := [];
      var i := 0;
      while i < MAX_PRIO
        invariant 0 <= i <= MAX_PRIO && |qs| == i
        invariant forall k :: 0 <= k < i ==> fresh(qs[k]) && fresh(qs[k].proc) && qs[k].Valid() && qs[k].Contents() == []
        invariant forall j, k :: 0 <= j < k < i ==> qs[j] != qs[k] && qs[j].proc != qs[k].proc
      {
        var q := new Queue();
        qs := qs + [q];
        i := i + 1;
      }
      mlq := qs;
      running := new Queue();
      slot := new int[MAX_PRIO](k => MAX_PRIO - k);
      timeSlot := timeSlotNum;
      resetSlot := false;
      queues := seq(MAX_PRIO, _ => []);
      new;
      assert slot[..] == Full();
    }

    /** The processes in the ready queues. */
    ghost function Waiting(): set<Pcb>
      requires |queues| == MAX_PRIO
      reads this
    {
      set i, k | 0 <= i < MAX_PRIO && 0 <= k < |queues[i]| :: queues[i][k]
    }

    ghost function Running(): set<Pcb>
      requires running.Valid()
      reads running, running.proc
    {
      set p | p in running.Contents()
    }

    /** `dequeue` on the queue of priority `i`: as all in it have this priority, the head is taken. */
    method TakeHead(i: int) returns (p: Pcb?)
      requires Valid() && 0 <= i < MAX_PRIO
      modifies this`queues, {mlq[i]}`size, mlq[i].proc
      ensures Valid() && slot[..] == old(slot[..]) && running.Contents() == old(running.Contents())
      ensures old(queues)[i] == [] ==> p == null && queues == old(queues)
      ensures old(queues)[i] != [] ==> p == old(queues)[i][0] && queues == old(queues)[i := old(queues)[i][1..]]
    {
      p := mlq[i].DequeueEqual(i);
      queues := queues[i := mlq[i].Contents()];
    }

    /** The charge for a process taken from queue `i`. */
    method ChargeFor(i: int, p: Pcb, q: int)
      requires Valid() && 0 <= i < MAX_PRIO
      modifies slot, this`resetSlot, p`timeSlot
      ensures Valid() && p.timeSlot == q
      ensures State() == old(State()).(slot := old(slot[..])[i := old(slot[i]) - q], resetSlot := true)
    {
      slot[i] := slot[i] - q;
      p.timeSlot := q;
      resetSlot := true;
    }

    /** The body of the scan loop of `get_mlq_proc` at priority `i`. */
    method TryQueue(i: int) returns (p: Pcb?)
      requires Valid() && 0 <= i < MAX_PRIO
      modifies this`queues, this`resetSlot, {mlq[i]}`size, mlq[i].proc, slot, Waiting()`timeSlot
      ensures Valid()
      ensures p == null <==> old(slot[i]) == 0 || old(queues)[i] == []
      ensures p == null ==> State() == old(State())
      ensures p != null ==> Charged(old(State()), i, p, timeSlot, State())
    {
      if slot[i] == 0 {
        return null;
      }
      p := TakeHead(i);
      if p != null {
        var q := p.size - p.pc;
        if q > slot[i] {
          q := slot[i];
        }
        if q > timeSlot {
          q := timeSlot;
        }
        ChargeFor(i, p, q);
      }
    }

    /** One scan loop of `get_mlq_proc`. */
    method ScanOnce() returns (p: Pcb?)
      requires Valid()
      modifies this`queues, this`resetSlot, Lists()`size, Buffers(), slot, Waiting()`timeSlot
      ensures Valid()
      ensures p == null <==> Scan(old(State()), 0) == MAX_PRIO
      ensures p == null ==> State() == old(State())
      ensures p != null ==> Charged(old(State()), Scan(old(State()), 0), p, timeSlot, State())
    {
      ghost var s := State();
      var i := 0;
      p := null;
      while i < MAX_PRIO
        invariant 0 <= i <= MAX_PRIO && Valid() && State() == s && Scan(s, i) == Scan(s, 0) && p == null
      {
        p := TryQueue(i);
        if p != null {
          assert Scan(s, 0) == i && Charged(s, i, p, timeSlot, State());
          return;
        }
        i := i + 1;
      }
    }

    /** `enqueue(&running_list, proc)` and the note in the process. */
    method Run(p: Pcb)
      requires Valid()
      modifies {running}`size, running.proc, p`onRunningList
      ensures Valid() && p.onRunningList
      ensures State() == old(State()).(running := Enqueued(old(running.Contents()), p))
    {
      running.Enqueue(p);
      p.onRunningList := true;
    }

    /** The refill loop. */
    method RefillCredits()
      requires Valid()
      modifies slot, this`resetSlot
      ensures Valid() && State() == Refill(old(State()))
    {
      var i := 0;
      while i < MAX_PRIO
        invariant 0 <= i <= MAX_PRIO && Valid() && forall k :: 0 <= k < i ==> slot[k] == MAX_PRIO - k
        invariant State() == old(State()).(slot := slot[..])
      {
        slot[i] := MAX_PRIO - i;
        i := i + 1;
      }
      resetSlot := false;
      assert slot[..] == Full();
    }

    /** One pass of `get_mlq_proc`: scan, and run what was found. */
    method ScanAndRun(ghost q: seq<seq<Pcb>>, ghost run: seq<Pcb>) returns (p: Pcb?)
      requires Valid() && PlacedBut(q, run, null)
      modifies this`queues, this`resetSlot, Lists()`size, Buffers(), slot, {running}`size, running.proc
      modifies Waiting()`timeSlot, Waiting()`onRunningList
      ensures Valid()
      ensures p == null ==> Scan(old(State()), 0) == MAX_PRIO && State() == old(State())
      ensures p != null ==> Dispatched(old(State()), Scan(old(State()), 0), p, timeSlot, State())
      ensures PlacedBut(q, run, p)
    {
      ghost var s := State();
      p := ScanOnce();
      if p != null {
        Run(p);
        assert State() == Grant(s, Scan(s, 0), p.timeSlot);
      }
    }

    /** The second pass of `get_mlq_proc`, after all credits are refilled. */
    method RefillAndRun(ghost q: seq<seq<Pcb>>, ghost run: seq<Pcb>) returns (p: Pcb?)
      requires Valid() && PlacedBut(q, run, null)
      modifies this`queues, this`resetSlot, Lists()`size, Buffers(), slot, {running}`size, running.proc
      modifies Waiting()`timeSlot, Waiting()`onRunningList
      ensures Valid()
      ensures p == null ==> Scan(Refill(old(State())), 0) == MAX_PRIO && State() == Refill(old(State()))
      ensures p != null ==> Dispatched(Refill(old(State())), Scan(Refill(old(State())), 0), p, timeSlot, State())
      ensures PlacedBut(q, run, p)
    {
      RefillCredits();
      p := ScanAndRun(q, run);
    }

    /** `get_mlq_proc`: the decision and the new state are those of the policy. Of the fields at most that of `p` has
        changed. */
    method GetMlqProc() returns (p: Pcb?)
      requires Valid() && SchedOk(State()) && WellPlaced()
      modifies this`queues, this`resetSlot, Lists()`size, Buffers(), slot, {running}`size, running.proc
      modifies Waiting()`timeSlot, Waiting()`onRunningList
      ensures Valid()
      ensures p == null <==> AllEmpty(old(State()))
      ensures p == null ==> State() == Refilled(old(State()))
      ensures p != null ==> Picked(old(State()), p, timeSlot, State())
      ensures PlacedBut(old(queues), old(running.Contents()), p)
    {
      ghost var s, q, run := State(), queues, running.Contents();
      ChooseIsWorkConserving(s);
      p := ScanAndRun(q, run);
      if p == null && resetSlot {
        p := RefillAndRun(q, run);
      }
    }

    /** `get_proc`: moreover the flag invariant and the placement hold again. */
    method GetProc() returns (p: Pcb?)
      requires Valid() && SchedOk(State()) && WellPlaced()
      modifies this`queues, this`resetSlot, Lists()`size, Buffers(), slot, {running}`size, running.proc
      modifies Waiting()`timeSlot, Waiting()`onRunningList
      ensures Valid() && WellPlaced() && (p == null || p.pc <= p.size ==> SchedOk(State()))
      ensures p == null ==> State() == Refilled(old(State()))
      ensures p != null ==> Picked(old(State()), p, timeSlot, State())
    {
      ghost var s := State();
      p := GetMlqProc();
      ghost var t := State();
      if p == null {
        ChooseIsWorkConserving(s);
        GetMlqOk(s, 0, timeSlot);
      } else {
        var i := PickedLists(s, p, timeSlot, t);
        DispatchPlaced(s.queues, s.running, i, p);
        if p.pc <= p.size {
          PickedOk(s, p, timeSlot, t);
        }
      }
      assert Placed(t.queues, t.running);
    }

    /** `add_proc`: a new process joins the queue of its priority. */
    method AddProc(p: Pcb)
      requires Valid() && p.prio < MAX_PRIO
      modifies this`queues, {mlq[p.prio]}`size, mlq[p.prio].proc, p`hasReadyQueue
      ensures Valid() && p.hasReadyQueue && State() == AddTo(old(State()), p, p.prio)
      ensures old(WellPlaced()) && !p.onRunningList && p !in old(queues)[p.prio] ==> WellPlaced()
    {
      ghost var q, run, placed := queues, running.Contents(), WellPlaced();
      p.hasReadyQueue := true;
      mlq[p.prio].Enqueue(p);
      queues := queues[p.prio := mlq[p.prio].Contents()];
      if placed && !p.onRunningList && p !in q[p.prio] {
        AddPlaced(q, run, p);
      }
    }

    /** `put_proc`: from the running list back to the queue of its priority. */
    method PutProc(p: Pcb)
      requires Valid() && p.prio < MAX_PRIO
      modifies this`queues, {mlq[p.prio]}`size, mlq[p.prio].proc, {running}`size, running.proc
      modifies p`hasReadyQueue, p`onRunningList
      ensures Valid() && p.hasReadyQueue && !p.onRunningList
      ensures State() == AddTo(old(State()), p, p.prio).(running := Without(old(running.Contents()), p))
      ensures old(WellPlaced()) && old(p.onRunningList) ==> WellPlaced()
    {
      ghost var q, run, placed := queues, running.Contents(), WellPlaced();
      AddProc(p);
      running.RemoveProc(p);
      p.onRunningList := false;
      if placed && old(p.onRunningList) {
        PutPlaced(q, run, p);
      }
    }

    /** `remove_pcb` of a process that finished on a CPU. */
    method RemoveRunning(p: Pcb)
      requires Valid()
      modifies {running}`size, running.proc
      ensures Valid() && State() == old(State()).(running := Without(old(running.Contents()), p))
      ensures old(WellPlaced()) ==> WellPlaced()
    {
      ghost var q, run, placed := queues, running.Contents(), WellPlaced();
      running.RemoveProc(p);
      if placed {
        WithoutDistinct(run, p);
      }
    }
  }
}
