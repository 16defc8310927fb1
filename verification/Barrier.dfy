/** The time-slot barrier of `timer.c` as a transition system: one timer thread and the attached devices.

    Each lock-protected section is one step, and a condition wait is a step that is enabled once its condition holds.
    `slots` counts, for each device, the calls of `next_slot` that have returned. */
module Barrier {

  /** Between two calls of `next_slot`, inside one, or after `detach_event`. */
  datatype Phase = Working | Waiting | Stopped

  datatype Device = Device(phase: Phase, done: bool, fsh: bool, slots: nat)

  /** Where the timer is: at the head of its loop; waiting for device `k` with `fsh` detached ones seen so far; about
      to advance the clock; about to release device `k`; or gone. */
  datatype Timer = Head | Collect(k: nat, fsh: nat) | Tick(seen: nat) | Release(next: nat, all: bool) | Exited

  datatype Barrier = Barrier(time: nat, timer: Timer, stop: bool, devs: seq<Device>)

  /** `attach_event` for each device, `start_timer`. */
  function Init(n: nat): Barrier {
    Barrier(0, Head, false, seq(n, _ => Device(Working, false, false, 0)))
  }

  /** Steps of the timer, of a device, and of `main` stopping the timer after all threads have been joined. */
  datatype Act = TimerStep | Signal(d: int) | Wake(d: int) | Detach(d: int) | StopTimer

  predicate Enabled(b: Barrier, a: Act) {
    match a
    case TimerStep =>
      b.timer != Exited && (b.timer.Collect? && b.timer.k < |b.devs| ==> b.devs[b.timer.k].done || b.devs[b.timer.k].fsh)
    case Signal(d) => 0 <= d < |b.devs| && b.devs[d].phase == Working
    case Wake(d) => 0 <= d < |b.devs| && b.devs[d].phase == Waiting && !b.devs[d].done
    case Detach(d) => 0 <= d < |b.devs| && b.devs[d].phase == Working
    case StopTimer => forall d :: 0 <= d < |b.devs| ==> b.devs[d].phase == Stopped
  }

  function TimerMove(b: Barrier): Barrier
    requires b.timer != Exited
  {
    match b.timer
    case Head => if b.stop then b.(timer := Exited) else b.(timer := Collect(0, 0))
    case Collect(k, fsh) =>
      if k < |b.devs| then b.(timer := Collect(k + 1, fsh + if b.devs[k].fsh then 1 else 0))
      else b.(timer := Tick(fsh))
    case Tick(seen) => b.(time := b.time + 1, timer := Release(0, seen == |b.devs|))
    case Release(k, all) =>
      if k < |b.devs| then b.(devs := b.devs[k := b.devs[k].(done := false)], timer := Release(k + 1, all))
      else b.(timer := if all then Exited else Head)
  }

  function Apply(b: Barrier, a: Act): Barrier
    requires Enabled(b, a)
  {
    match a
    case TimerStep => TimerMove(b)
    case Signal(d) => b.(devs := b.devs[d := b.devs[d].(phase := Waiting, done := true)])
    case Wake(d) => b.(devs := b.devs[d := b.devs[d].(phase := Working, slots := b.devs[d].slots + 1)])
    case Detach(d) => b.(devs := b.devs[d := b.devs[d].(phase := Stopped, fsh := true)])
    case StopTimer => b.(stop := true)
  }

  // ---------------------------------------------------------------------------------------------------------
  // The invariant
  // ---------------------------------------------------------------------------------------------------------

  /** The timer is in its release phase and has not come to device `d` yet. */
  predicate Unreleased(t: Timer, d: int) {
    t.Release? && t.next <= d
  }

  /** The timer has passed device `d` in this round, or all of them. */
  predicate Collected(t: Timer, d: int) {
    (t.Collect? && d < t.k) || t.Tick?
  }

  /** A working device is in the current slot. A waiting one is in the current slot too, unless the clock has ticked
      without it: then it is one behind, and either marked done and not yet released, or released and not yet awake. */
  predicate DevOk(b: Barrier, d: int)
    requires 0 <= d < |b.devs|
  {
    var v := b.devs[d];
    && (v.fsh <==> v.phase == Stopped) && v.slots <= b.time
    && (v.phase == Working ==> !v.done && v.slots == b.time && !Unreleased(b.timer, d))
    && (v.phase == Waiting && v.done ==> v.slots == if Unreleased(b.timer, d) then b.time - 1 else b.time)
    && (v.phase == Waiting && !v.done ==> v.slots == b.time - 1 && !Unreleased(b.timer, d))
    && (Collected(b.timer, d) ==> v.phase == Stopped || (v.phase == Waiting && v.done))
  }

  /** What the timer has counted. */
  predicate TimerOk(b: Barrier) {
    var n := |b.devs|;
    match b.timer
    case Head => true
    case Collect(k, fsh) => k <= n && fsh <= k && (fsh == k ==> AllStopped(b, k))
    case Tick(seen) => seen <= n && (seen == n ==> AllStopped(b, n))
    case Release(k, all) => k <= n && b.time > 0 && (all ==> AllStopped(b, n))
    case Exited => AllStopped(b, n)
  }

  predicate AllStopped(b: Barrier, n: int)
    requires n <= |b.devs|
  {
    forall d :: 0 <= d < n ==> b.devs[d].phase == Stopped
  }

  predicate BarrierOk(b: Barrier) {
    && TimerOk(b)
    && (b.stop ==> AllStopped(b, |b.devs|))
    && forall d :: 0 <= d < |b.devs| ==> DevOk(b, d)
  }

  lemma ApplyOk(b: Barrier, a: Act)
    requires BarrierOk(b) && Enabled(b, a)
    ensures BarrierOk(Apply(b, a)) && |Apply(b, a).devs| == |b.devs|
  {
    var b' := Apply(b, a);
    if b.timer.Collect? && b.timer.k < |b.devs| {
      assert DevOk(b, b.timer.k);
    }
    forall d | 0 <= d < |b.devs| ensures DevOk(b', d) {
      assert DevOk(b, d);
    }
  }

  // ---------------------------------------------------------------------------------------------------------
  // What the invariant gives
  // ---------------------------------------------------------------------------------------------------------

  /** No device works in a slot before every live device has finished the one before: all live devices are in the slot
      of a working one, or one behind and inside `next_slot`. */
  lemma Lockstep(b: Barrier, d: int, e: int)
    requires BarrierOk(b) && 0 <= d < |b.devs| && 0 <= e < |b.devs|
    requires b.devs[d].phase == Working && b.devs[e].phase != Stopped
    ensures b.devs[d].slots == b.time
    ensures b.devs[e].slots == b.time || (b.devs[e].slots == b.time - 1 && b.devs[e].phase == Waiting)
    ensures b.timer != Exited
  {
    assert DevOk(b, d) && DevOk(b, e);
  }

  predicate Final(b: Barrier) {
    b.timer == Exited && AllStopped(b, |b.devs|)
  }

  /** Deadlock freedom: while no device is in the middle of its work, the timer or a released device can move, unless
      everything has ended. */
  lemma NoDeadlock(b: Barrier) returns (a: Act)
    requires BarrierOk(b) && !Final(b) && forall d :: 0 <= d < |b.devs| ==> b.devs[d].phase != Working
    ensures Enabled(b, a) && (a.Wake? || a == TimerStep)
  {
    if d :| 0 <= d < |b.devs| && b.devs[d].phase == Waiting && !b.devs[d].done {
      a := Wake(d);
    } else {
      a := TimerStep;
      if b.timer.Collect? && b.timer.k < |b.devs| {
        assert DevOk(b, b.timer.k);
      }
    }
  }

  /** When the clock is about to tick, every live device sits in `next_slot` of the current slot. */
  lemma TickMeansAllWait(b: Barrier, d: int)
    requires BarrierOk(b) && b.timer.Tick? && 0 <= d < |b.devs| && b.devs[d].phase != Stopped
    ensures b.devs[d].phase == Waiting && b.devs[d].done && b.devs[d].slots == b.time
  {
    assert DevOk(b, d);
  }

  // ---------------------------------------------------------------------------------------------------------
  // The end of the timer
  // ---------------------------------------------------------------------------------------------------------

  /** `k` steps of the timer, or fewer if it leaves its loop before. */
  function TimerSteps(b: Barrier, k: nat): Barrier
    requires AllStopped(b, |b.devs|) && BarrierOk(b)
    decreases k
  {
    if k == 0 || b.timer == Exited then b
    else
      TimerCanStep(b);
      TimerSteps(TimerMove(b), k - 1)
  }

  lemma TimerCanStep(b: Barrier)
    requires AllStopped(b, |b.devs|) && BarrierOk(b) && b.timer != Exited
    ensures Enabled(b, TimerStep) && BarrierOk(TimerMove(b)) && |TimerMove(b).devs| == |b.devs|
    ensures AllStopped(TimerMove(b), |b.devs|)
  {
    if b.timer.Collect? && b.timer.k < |b.devs| {
      assert DevOk(b, b.timer.k);
    }
    ApplyOk(b, TimerStep);
  }

  /** How many steps the timer is from its end, when all devices are detached. It may have to finish a round in which it
      did not find all of them so; then comes one more round, unless it has been told to stop. */
  function StepsLeft(b: Barrier): nat {
    var n, head := |b.devs|, if b.stop then 1 else 2 * |b.devs| + 4;
    match b.timer
    case Exited => 0
    case Release(k, all) => if k > n then 0 else 1 + n - k + if all then 0 else head
    case Tick(seen) => n + 2 + if seen == n then 0 else head
    case Collect(k, fsh) => if k > n then 0 else 2 * n + 3 - k + if fsh == k then 0 else head
    case Head => head
  }

  /** Once all devices are detached the timer leaves its loop after exactly so many steps: in its second round at the latest
      by itself, and at the end of its round when it is told to stop. */
  lemma {:induction false} TimerLeaves(b: Barrier, k: nat)
    requires AllStopped(b, |b.devs|) && BarrierOk(b)
    ensures TimerSteps(b, k).timer == Exited <==> k >= StepsLeft(b)
    decreases k
  {
    if k > 0 && b.timer != Exited {
      TimerCanStep(b);
      if b.timer.Collect? && b.timer.k < |b.devs| {
        assert DevOk(b, b.timer.k);
      }
      TimerLeaves(TimerMove(b), k - 1);
    }
  }
}
