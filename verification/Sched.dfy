/** The multi-level-queue policy of `sched.c` on values: 140 FIFO queues, a credit per priority, and the static flag
    `reset_slot` that decides whether an unsuccessful scan refills the credits and tries again.

    `T` is whatever stands for a process: an object for the scheduler class, a number for runs. */
module Sched {
  import opened Queue

  const MAX_PRIO := 140

  datatype Sched<T> = Sched(queues: seq<seq<T>>, slot: seq<int>, resetSlot: bool, running: seq<T>)

  /** Full credit: MAX_PRIO - i for priority i. */
  function Full(): seq<int> {
    seq(MAX_PRIO, i => MAX_PRIO - i)
  }

  /** `init_scheduler`. */
  function Init<T>(): (s: Sched<T>)
    ensures SchedOk(s)
  {
    Sched(seq(MAX_PRIO, _ => []), Full(), false, [])
  }

  predicate Shaped<T>(s: Sched<T>) {
    |s.queues| == MAX_PRIO && |s.slot| == MAX_PRIO
  }

  /** Credits stay in range, and a clear flag means that no credit has been spent since the last refill. */
  predicate SchedOk<T>(s: Sched<T>) {
    && Shaped(s)
    && (forall i :: 0 <= i < MAX_PRIO ==> 0 <= s.slot[i] <= MAX_PRIO - i)
    && (!s.resetSlot ==> s.slot == Full())
  }

  /** One scan: the first queue from `i` on that has credit and a process, or MAX_PRIO. */
  function Scan<T>(s: Sched<T>, i: int): (r: int)
    requires Shaped(s) && 0 <= i <= MAX_PRIO
    ensures i <= r <= MAX_PRIO
    decreases MAX_PRIO - i
  {
    if i == MAX_PRIO then MAX_PRIO
    else if s.slot[i] != 0 && s.queues[i] != [] then i
    else Scan(s, i + 1)
  }

  function Refill<T>(s: Sched<T>): Sched<T> {
    s.(slot := Full(), resetSlot := false)
  }

  /** What `get_mlq_proc` decides: nothing to run, or the queue to serve, with or without a refill before. */
  datatype Choice = Idle | Serve(refill: bool, queue: int)

  function Choose<T>(s: Sched<T>): Choice
    requires Shaped(s)
  {
    var i := Scan(s, 0);
    if i < MAX_PRIO then Serve(false, i)
    else if s.resetSlot then
      var j := Scan(Refill(s), 0);
      if j < MAX_PRIO then Serve(true, j) else Idle
    else Idle
  }

  /** The quantum of a process with `left` instructions to run, served at credit `credit`. */
  function Quantum(left: int, credit: int, timeSlot: int): int {
    var q := if left > credit then credit else left;
    if q > timeSlot then timeSlot else q
  }

  /** The quantum is the least of the three. */
  lemma QuantumIsLeast(left: int, credit: int, timeSlot: int)
    ensures var q := Quantum(left, credit, timeSlot);
      q <= left && q <= credit && q <= timeSlot && (q == left || q == credit || q == timeSlot)
  {
  }

  /** The head of queue `i` leaves it, and `q` slots are charged to the queue's credit. */
  function Charge<T>(s: Sched<T>, i: int, q: int): Sched<T>
    requires Shaped(s) && 0 <= i < MAX_PRIO && s.queues[i] != []
  {
    Sched(s.queues[i := s.queues[i][1..]], s.slot[i := s.slot[i] - q], true, s.running)
  }

  /** Serve queue `i`: its head runs for `q` slots. */
  function Grant<T>(s: Sched<T>, i: int, q: int): Sched<T>
    requires Shaped(s) && 0 <= i < MAX_PRIO && s.queues[i] != []
  {
    Charge(s, i, q).(running := Enqueued(s.running, s.queues[i][0]))
  }

  lemma {:induction false} ScanFinds<T>(s: Sched<T>, i: int)
    requires Shaped(s) && 0 <= i <= MAX_PRIO
    ensures var r := Scan(s, i);
      && (forall j :: i <= j < r ==> s.slot[j] == 0 || s.queues[j] == [])
      && (r < MAX_PRIO ==> s.slot[r] != 0 && s.queues[r] != [])
    decreases MAX_PRIO - i
  {
    if i < MAX_PRIO && !(s.slot[i] != 0 && s.queues[i] != []) {
      ScanFinds(s, i + 1);
    }
  }

  /** The state the grant starts from. */
  function Refilled<T>(s: Sched<T>): Sched<T>
    requires Shaped(s)
  {
    match Choose(s)
    case Idle => if s.resetSlot then Refill(s) else s
    case Serve(refill, _) => if refill then Refill(s) else s
  }

  /** `get_mlq_proc`, given how many instructions the process it picks has left. */
  function GetMlq<T>(s: Sched<T>, left: int, timeSlot: int): Sched<T>
    requires Shaped(s)
  {
    ScanFinds(Refill(s), 0);
    ScanFinds(s, 0);
    match Choose(s)
    case Idle => Refilled(s)
    case Serve(_, i) => Grant(Refilled(s), i, Quantum(left, Refilled(s).slot[i], timeSlot))
  }

  predicate AllEmpty<T>(s: Sched<T>)
    requires Shaped(s)
  {
    forall i :: 0 <= i < MAX_PRIO ==> s.queues[i] == []
  }

  /** Some process waits at a priority that still has credit. */
  predicate HasCredit<T>(s: Sched<T>)
    requires Shaped(s)
  {
    exists i :: 0 <= i < MAX_PRIO && s.slot[i] != 0 && s.queues[i] != []
  }

  /** Work conservation, and what the two-pass scan with its flag amounts to: nothing is returned only when nothing
      waits, and then all credits are full and the flag is clear; credits are refilled exactly when no waiting priority
      has any left; the queue served is the lowest-numbered one with a process and credit. */
  lemma ChooseIsWorkConserving<T>(s: Sched<T>)
    requires SchedOk(s)
    ensures Choose(s).Idle? <==> AllEmpty(s)
    ensures Choose(s).Idle? ==> Refilled(s) == Sched(s.queues, Full(), false, s.running)
    ensures Choose(s).Serve? ==>
              var i := Choose(s).queue; var t := Refilled(s);
              && (Choose(s).refill <==> !HasCredit(s))
              && 0 <= i < MAX_PRIO && t.slot[i] > 0 && s.queues[i] != [] && t.queues == s.queues
              && forall j :: 0 <= j < i ==> t.slot[j] == 0 || s.queues[j] == []
  {
    ScanFinds(s, 0);
    ScanFinds(Refill(s), 0);
  }

  /** The flag invariant survives every call. */
  lemma GetMlqOk<T>(s: Sched<T>, left: int, timeSlot: int)
    requires SchedOk(s) && left >= 0 && timeSlot >= 1
    ensures SchedOk(GetMlq(s, left, timeSlot))
  {
    ChooseIsWorkConserving(s);
  }

  // ---------------------------------------------------------------------------------------------------------
  // Runs of the scheduler
  // ---------------------------------------------------------------------------------------------------------

  /** What happens to the scheduler: a dispatch, an arrival or a put-back at a priority, the end of a running process,
      the kill of a waiting one. Processes are numbers here. */
  datatype Op =
    | Get(left: int)
    | Add(pid: int, prio: int)
    | PutBack(pid: int, prio: int)
    | Finish(pid: int)
    | Kill(pid: int, prio: int)

  /** A dispatched process has an instruction left; priorities are in range. */
  predicate OpOk(op: Op) {
    match op
    case Get(left) => left >= 1
    case Finish(_) => true
    case _ => 0 <= op.prio < MAX_PRIO
  }

  function AddTo<T>(s: Sched<T>, p: T, i: int): Sched<T>
    requires Shaped(s) && 0 <= i < MAX_PRIO
  {
    s.(queues := s.queues[i := Enqueued(s.queues[i], p)])
  }

  function Step(s: Sched<int>, op: Op, timeSlot: int): Sched<int>
    requires Shaped(s) && OpOk(op)
  {
    match op
    case Get(left) => GetMlq(s, left, timeSlot)
    case Add(p, i) => AddTo(s, p, i)
    case PutBack(p, i) => AddTo(s, p, i).(running := Without(s.running, p))
    case Finish(p) => s.(running := Without(s.running, p))
    case Kill(p, i) => s.(queues := s.queues[i := Without(s.queues[i], p)])
  }

  /** `q` after `p` came to it: last, or not at all if `q` is full. */
  predicate CameTo<T(==)>(q: seq<T>, p: T, q': seq<T>) {
    q' == if |q| < MAX_QUEUE_SIZE then q + [p] else q
  }

  /** `q` after `p` left it: the first occurrence is gone and the others keep their order. */
  ghost predicate LeftFrom<T>(q: seq<T>, p: T, q': seq<T>) {
    if p !in q then q' == q
    else exists k :: 0 <= k < |q| && q[k] == p && (forall j :: 0 <= j < k ==> q[j] != p) && q' == q[..k] + q[k + 1..]
  }

  lemma {:induction false} FirstPlace<T>(q: seq<T>, p: T) returns (k: int)
    requires p in q
    ensures 0 <= k < |q| && q[k] == p && forall j :: 0 <= j < k ==> q[j] != p
  {
    k := 0;
    if q[0] != p {
      var t := q[1..];
      var i := FirstPlace(t, p);
      k := i + 1;
      assert forall j :: 0 < j < k ==> q[j] == t[j - 1];
    }
  }

  lemma WithoutLeaves<T>(q: seq<T>, p: T)
    ensures LeftFrom(q, p, Without(q, p))
  {
    if p in q {
      var k := FirstPlace(q, p);
      WithoutAt(q, k);
    } else {
      WithoutAbsent(q, p);
    }
  }

  /** What the steps other than a dispatch do to the lists. Credits and flag stay, and so does every list not named. */
  lemma StepLists(s: Sched<int>, op: Op, timeSlot: int)
    requires Shaped(s) && OpOk(op) && !op.Get?
    ensures var s' := Step(s, op, timeSlot);
      && |s'.queues| == MAX_PRIO && s'.slot == s.slot && s'.resetSlot == s.resetSlot
      && (op.Finish? || forall i :: 0 <= i < MAX_PRIO && i != op.prio ==> s'.queues[i] == s.queues[i])
      && match op
         case Add(p, i) => CameTo(s.queues[i], p, s'.queues[i]) && s'.running == s.running
         case PutBack(p, i) => CameTo(s.queues[i], p, s'.queues[i]) && LeftFrom(s.running, p, s'.running)
         case Finish(p) => s'.queues == s.queues && LeftFrom(s.running, p, s'.running)
         case Kill(p, i) => LeftFrom(s.queues[i], p, s'.queues[i]) && s'.running == s.running
  {
    if op.PutBack? || op.Finish? {
      WithoutLeaves(s.running, op.pid);
    } else if op.Kill? {
      WithoutLeaves(s.queues[op.prio], op.pid);
    }
  }

  lemma StepOk(s: Sched<int>, op: Op, timeSlot: int)
    requires SchedOk(s) && OpOk(op) && timeSlot >= 1
    ensures SchedOk(Step(s, op, timeSlot))
  {
    if op.Get? {
      GetMlqOk(s, op.left, timeSlot);
    }
  }

  function Run(s: Sched<int>, ops: seq<Op>, timeSlot: int): (s': Sched<int>)
    requires SchedOk(s) && timeSlot >= 1 && forall k :: 0 <= k < |ops| ==> OpOk(ops[k])
    ensures SchedOk(s')
    decreases |ops|
  {
    if ops == [] then s
    else
      StepOk(s, ops[0], timeSlot);
      Run(Step(s, ops[0], timeSlot), ops[1..], timeSlot)
  }

  // ---------------------------------------------------------------------------------------------------------
  // No starvation
  // ---------------------------------------------------------------------------------------------------------

  function Sum(xs: seq<int>): int {
    if xs == [] then 0 else xs[0] + Sum(xs[1..])
  }

  lemma {:induction false} SumUpdate(xs: seq<int>, i: int, x: int)
    requires 0 <= i < |xs|
    ensures Sum(xs[i := x]) == Sum(xs) - xs[i] + x
  {
    if i == 0 {
      assert xs[i := x][1..] == xs[1..];
    } else {
      assert xs[i := x][1..] == xs[1..][i - 1 := x];
      SumUpdate(xs[1..], i - 1, x);
    }
  }

  lemma {:induction false} SumBounds(xs: seq<int>, ys: seq<int>)
    requires |xs| == |ys| && forall i :: 0 <= i < |xs| ==> 0 <= xs[i] <= ys[i]
    ensures 0 <= Sum(xs) <= Sum(ys)
  {
    if xs != [] {
      SumBounds(xs[1..], ys[1..]);
    }
  }

  /** All credit there is: 140 + 139 + ... + 1. */
  const ALL_CREDIT := 9870

  lemma {:induction false} SumCountdown(xs: seq<int>, n: int)
    requires 0 <= n && |xs| == n && forall i :: 0 <= i < n ==> xs[i] == n - i
    ensures 2 * Sum(xs) == n * (n + 1)
  {
    if n > 0 {
      SumCountdown(xs[1..], n - 1);
      assert (n - 1) * n + 2 * n == n * (n + 1);
    }
  }

  lemma CreditBounds<T>(s: Sched<T>)
    requires SchedOk(s)
    ensures 0 <= Sum(s.slot) <= ALL_CREDIT
  {
    SumBounds(s.slot, Full());
    SumCountdown(Full(), MAX_PRIO);
  }

  /** Position, exhausted credit, remaining credit, in this order of weight. */
  function Rank<T>(s: Sched<T>, i: int, k: int): int
    requires Shaped(s) && 0 <= i < MAX_PRIO
  {
    Weigh(k, s.slot[i] == 0, Sum(s.slot))
  }

  function Weigh(k: int, exhausted: bool, credit: int): int {
    (2 * k + if exhausted then 1 else 0) * (ALL_CREDIT + 1) + credit
  }

  predicate WaitsAt<T(==)>(s: Sched<T>, p: T, i: int, k: int) {
    Shaped(s) && 0 <= i < MAX_PRIO && 0 <= k < |s.queues[i]| && s.queues[i][k] == p
  }

  /** The process a dispatch returns. */
  function Winner<T>(s: Sched<T>): (p: T)
    requires Shaped(s) && Choose(s).Serve?
  {
    ScanFinds(s, 0);
    ScanFinds(Refill(s), 0);
    s.queues[Choose(s).queue][0]
  }

  /** The step takes `p` out of its ready queue: dispatched or killed. */
  predicate Takes(s: Sched<int>, op: Op, p: int)
    requires Shaped(s)
  {
    (op.Get? && Choose(s).Serve? && Winner(s) == p) || (op.Kill? && op.pid == p)
  }

  /** Some step of the run does. */
  predicate Taken(s: Sched<int>, ops: seq<Op>, p: int, timeSlot: int)
    requires SchedOk(s) && timeSlot >= 1 && forall k :: 0 <= k < |ops| ==> OpOk(ops[k])
    decreases |ops|
  {
    ops != [] &&
    (Takes(s, ops[0], p) || (StepOk(s, ops[0], timeSlot); Taken(Step(s, ops[0], timeSlot), ops[1..], p, timeSlot)))
  }

  function Gets(ops: seq<Op>): nat {
    if ops == [] then 0 else (if ops[0].Get? then 1 else 0) + Gets(ops[1..])
  }

  /** What a dispatch does to the queues and the credits. */
  lemma GetEffect(s: Sched<int>, left: int, timeSlot: int) returns (j: int, q: int)
    requires SchedOk(s) && left >= 1 && timeSlot >= 1 && !AllEmpty(s)
    ensures var s' := GetMlq(s, left, timeSlot); var t := Refilled(s);
      && Choose(s).Serve? && j == Choose(s).queue && 0 <= j < MAX_PRIO && s.queues[j] != []
      && s'.queues == s.queues[j := s.queues[j][1..]] && s'.slot == t.slot[j := t.slot[j] - q]
      && 1 <= q <= t.slot[j] && Winner(s) == s.queues[j][0]
      && t.slot == if Choose(s).refill then Full() else s.slot
  {
    ChooseIsWorkConserving(s);
    j := Choose(s).queue;
    q := Quantum(left, Refilled(s).slot[j], timeSlot);
  }

  /** A dispatch of another process brings `p` nearer in the lexicographic order. */
  lemma GetProgress(s: Sched<int>, left: int, timeSlot: int, p: int, i: int, k: int) returns (k': int)
    requires SchedOk(s) && left >= 1 && timeSlot >= 1 && WaitsAt(s, p, i, k) && !Takes(s, Get(left), p)
    ensures var s' := GetMlq(s, left, timeSlot); WaitsAt(s', p, i, k') && Rank(s', i, k') < Rank(s, i, k)
  {
    var s', t := GetMlq(s, left, timeSlot), Refilled(s);
    var j, q := GetEffect(s, left, timeSlot);
    k' := if j == i then k - 1 else k;
    GetMlqOk(s, left, timeSlot);
    SumUpdate(t.slot, j, t.slot[j] - q);
    CreditBounds(s);
    CreditBounds(s');
    if Choose(s).refill {
      ChooseIsWorkConserving(s);
      assert s.slot[i] == 0;
    }
  }

  lemma {:induction false} WithoutKeeps(q: seq<int>, x: int, k: int) returns (k': int)
    requires 0 <= k < |q| && q[k] != x
    ensures 0 <= k' <= k && k' < |Without(q, x)| && Without(q, x)[k'] == q[k]
  {
    if q[0] == x {
      k' := k - 1;
    } else if k == 0 {
      k' := 0;
    } else {
      k' := WithoutKeeps(q[1..], x, k - 1);
      k' := k' + 1;
    }
  }

  lemma StepProgress(s: Sched<int>, op: Op, timeSlot: int, p: int, i: int, k: int) returns (k': int)
    requires SchedOk(s) && OpOk(op) && timeSlot >= 1 && WaitsAt(s, p, i, k) && !Takes(s, op, p)
    ensures var s' := Step(s, op, timeSlot);
      WaitsAt(s', p, i, k') && Rank(s', i, k') <= Rank(s, i, k) - if op.Get? then 1 else 0
  {
    if op.Get? {
      k' := GetProgress(s, op.left, timeSlot, p, i, k);
    } else if op.Kill? && op.prio == i {
      k' := WithoutKeeps(s.queues[i], op.pid, k);
    } else {
      k' := k;
    }
  }

  /** Starvation freedom with a bound, under any arrivals, put-backs, finishes and kills in between: a process at
      position `k` of queue `i` leaves the queue, or fewer than `Rank` dispatches have happened. */
  lemma {:induction false} NoStarvation(s: Sched<int>, ops: seq<Op>, timeSlot: int, p: int, i: int, k: int)
    requires SchedOk(s) && timeSlot >= 1 && forall j :: 0 <= j < |ops| ==> OpOk(ops[j])
    requires WaitsAt(s, p, i, k)
    ensures Taken(s, ops, p, timeSlot) || Gets(ops) <= Rank(s, i, k)
    decreases |ops|
  {
    if ops == [] {
      RankIsNat(s, i, k);
    } else if Takes(s, ops[0], p) {
    } else {
      StepOk(s, ops[0], timeSlot);
      var s', rest := Step(s, ops[0], timeSlot), ops[1..];
      var k' := StepProgress(s, ops[0], timeSlot, p, i, k);
      NoStarvation(s', rest, timeSlot, p, i, k');
    }
  }

  lemma RankIsNat<T>(s: Sched<T>, i: int, k: int)
    requires SchedOk(s) && 0 <= i < MAX_PRIO && 0 <= k
    ensures 0 <= Rank(s, i, k) <= (2 * k + 2) * (ALL_CREDIT + 1) - 1
  {
    CreditBounds(s);
  }

  /** The bound in numbers: two rounds of all credit per process ahead. */
  lemma StarvationBound(s: Sched<int>, ops: seq<Op>, timeSlot: int, p: int, i: int, k: int)
    requires SchedOk(s) && timeSlot >= 1 && forall j :: 0 <= j < |ops| ==> OpOk(ops[j])
    requires WaitsAt(s, p, i, k) && Gets(ops) >= 2 * (k + 1) * (ALL_CREDIT + 1)
    ensures Taken(s, ops, p, timeSlot)
  {
    NoStarvation(s, ops, timeSlot, p, i, k);
    RankIsNat(s, i, k);
  }

  // ---------------------------------------------------------------------------------------------------------
  // Proportional share
  // ---------------------------------------------------------------------------------------------------------

  datatype Event = Granted(prio: int, quantum: int) | CreditRefilled

  /** What one step writes into the history. */
  function Events(s: Sched<int>, op: Op, timeSlot: int): seq<Event>
    requires Shaped(s)
  {
    if !op.Get? then []
    else
      ScanFinds(Refill(s), 0);
      match Choose(s)
      case Idle => if s.resetSlot then [CreditRefilled] else []
      case Serve(refill, i) =>
        (if refill then [CreditRefilled] else []) + [Granted(i, Quantum(op.left, Refilled(s).slot[i], timeSlot))]
  }

  /** Quanta granted to priority `i` since the last refill in the history. */
  function Since(log: seq<Event>, i: int): int {
    if log == [] then 0
    else
      match log[|log| - 1]
      case CreditRefilled => 0
      case Granted(j, q) => (if i == j then q else 0) + Since(log[..|log| - 1], i)
  }

  /** Credit left plus quanta granted is the full share, for every priority. */
  ghost predicate Balanced<T>(s: Sched<T>, log: seq<Event>)
    requires Shaped(s)
  {
    forall i :: 0 <= i < MAX_PRIO ==> s.slot[i] + Since(log, i) == MAX_PRIO - i
  }

  lemma SinceAppend(log: seq<Event>, e: Event, i: int)
    ensures Since(log + [e], i) == if e.CreditRefilled? then 0 else (if i == e.prio then e.quantum else 0) + Since(log, i)
  {
    assert (log + [e])[..|log + [e]| - 1] == log;
  }

  lemma StepBalanced(s: Sched<int>, op: Op, timeSlot: int, log: seq<Event>)
    requires SchedOk(s) && OpOk(op) && timeSlot >= 1 && Balanced(s, log)
    ensures Balanced(Step(s, op, timeSlot), log + Events(s, op, timeSlot))
  {
    assert log + [] == log;
    if op.Get? {
      ChooseIsWorkConserving(s);
      forall i | 0 <= i < MAX_PRIO
        ensures Step(s, op, timeSlot).slot[i] + Since(log + Events(s, op, timeSlot), i) == MAX_PRIO - i
      {
        SinceAppend(log, CreditRefilled, i);
        if Choose(s).Serve? {
          var j := Choose(s).queue;
          var e := Granted(j, Quantum(op.left, Refilled(s).slot[j], timeSlot));
          SinceAppend(log, e, i);
          SinceAppend(log + [CreditRefilled], e, i);
          assert log + ([CreditRefilled] + [e]) == log + [CreditRefilled] + [e];
          assert log + ([] + [e]) == log + [e];
        }
      }
    }
  }

  function History(s: Sched<int>, ops: seq<Op>, timeSlot: int, log: seq<Event>): seq<Event>
    requires SchedOk(s) && timeSlot >= 1 && forall k :: 0 <= k < |ops| ==> OpOk(ops[k])
    decreases |ops|
  {
    if ops == [] then log
    else
      StepOk(s, ops[0], timeSlot);
      History(Step(s, ops[0], timeSlot), ops[1..], timeSlot, log + Events(s, ops[0], timeSlot))
  }

  lemma {:induction false} RunBalanced(s: Sched<int>, ops: seq<Op>, timeSlot: int, log: seq<Event>)
    requires SchedOk(s) && timeSlot >= 1 && (forall k :: 0 <= k < |ops| ==> OpOk(ops[k])) && Balanced(s, log)
    ensures Balanced(Run(s, ops, timeSlot), History(s, ops, timeSlot, log))
    decreases |ops|
  {
    if ops != [] {
      StepBalanced(s, ops[0], timeSlot, log);
      StepOk(s, ops[0], timeSlot);
      RunBalanced(Step(s, ops[0], timeSlot), ops[1..], timeSlot, log + Events(s, ops[0], timeSlot));
    }
  }

  /** Exact proportional share over every run from `init_scheduler`: no priority is ever granted more than its share
      between refills, and whenever a dispatch refills, every priority with a process waiting has been granted
      exactly MAX_PRIO - i. */
  lemma ProportionalShare(ops: seq<Op>, timeSlot: int, i: int)
    requires timeSlot >= 1 && (forall k :: 0 <= k < |ops| ==> OpOk(ops[k])) && 0 <= i < MAX_PRIO
    ensures var s := Run(Init(), ops, timeSlot); var log := History(Init(), ops, timeSlot, []);
      && Since(log, i) <= MAX_PRIO - i
      && (Choose(s) != Idle && Choose(s).refill && s.queues[i] != [] ==> Since(log, i) == MAX_PRIO - i)
  {
    RunBalanced(Init(), ops, timeSlot, []);
    var s := Run(Init(), ops, timeSlot);
    ChooseIsWorkConserving(s);
  }
}
