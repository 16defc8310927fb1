/** The bounded process queue of `queue.c`: a fixed array shifted in place, proved against operations on sequences. */
module Queue {
  import opened Seqs

  const MAX_QUEUE_SIZE := 10

  /** A process control block, as far as the scheduler and killall touch it. `path` is the 100-byte name buffer. */
  class Pcb {
    const pid: int
    const prio: nat
    const size: nat
    const path: seq<char>
    var pc: nat
    var timeSlot: int
    var onRunningList: bool
    var hasReadyQueue: bool

    /** `load` and the loader: a fresh process at its first instruction, in no list. */
    constructor (pid: int, prio: nat, size: nat, path: seq<char>)
      ensures this.pid == pid && this.prio == prio && this.size == size && this.path == path
      ensures pc == 0 && timeSlot == 0 && !onRunningList && !hasReadyQueue
    {
      this.pid, this.prio, this.size, this.path := pid, prio, size, path;
      pc, timeSlot, onRunningList, hasReadyQueue := 0, 0, false, false;
    }
  }

  // The queue as a sequence.

  /** A full queue drops the process. */
  function Enqueued<T>(q: seq<T>, p: T): seq<T> {
    if |q| >= MAX_QUEUE_SIZE then q else q + [p]
  }

  /** The first occurrence of `p` removed, the others in order. */
  function Without<T(==)>(q: seq<T>, p: T): seq<T> {
    if q == [] then []
    else if q[0] == p then q[1..]
    else [q[0]] + Without(q[1..], p)
  }

  /** The index of the smallest priority value, the first one among equals. */
  ghost predicate IsFirstMin(q: seq<Pcb>, k: int) {
    && 0 <= k < |q|
    && (forall j :: 0 <= j < |q| ==> q[k].prio <= q[j].prio)
    && (forall j :: 0 <= j < k ==> q[k].prio < q[j].prio)
  }

  /** `p` is the first minimum of `q`, and `rest` is `q` without it. */
  ghost predicate TakenAt(q: seq<Pcb>, k: int, p: Pcb, rest: seq<Pcb>) {
    IsFirstMin(q, k) && p == q[k] && rest == q[..k] + q[k + 1..]
  }

  lemma {:induction false} WithoutAt<T>(q: seq<T>, i: int)
    requires 0 <= i < |q| && forall j :: 0 <= j < i ==> q[j] != q[i]
    ensures Without(q, q[i]) == q[..i] + q[i + 1..]
  {
    if i > 0 {
      WithoutAt(q[1..], i - 1);
      assert q[1..][i - 1] == q[i];
      assert [q[0]] + (q[1..][..i - 1] + q[1..][i..]) == q[..i] + q[i + 1..];
    }
  }

  lemma {:induction false} WithoutAbsent<T>(q: seq<T>, p: T)
    requires p !in q
    ensures Without(q, p) == q
  {
    if q != [] {
      assert q[0] in q;
      WithoutAbsent(q[1..], p);
    }
  }

  /** A process that joins is counted once more, unless the queue was full. */
  lemma EnqueuedOcc<T>(q: seq<T>, p: T, x: T)
    ensures Occ(Enqueued(q, p), x) == Occ(q, x) + if x == p && |q| < MAX_QUEUE_SIZE then 1 else 0
  {
    OccConcat(q, [p], x);
  }

  lemma {:induction false} WithoutOcc<T>(q: seq<T>, p: T, x: T)
    ensures Occ(Without(q, p), x) == if x == p && p in q then Occ(q, x) - 1 else Occ(q, x)
  {
    if q != [] && q[0] != p {
      WithoutOcc(q[1..], p, x);
      assert ([q[0]] + Without(q[1..], p))[1..] == Without(q[1..], p);
    }
  }

  // Filtering while walking.

  /** The elements to keep, in order. */
  function Filter<T>(q: seq<T>, keep: T -> bool): seq<T> {
    if q == [] then []
    else if keep(q[0]) then [q[0]] + Filter(q[1..], keep)
    else Filter(q[1..], keep)
  }

  lemma {:induction false} FilterMember<T>(q: seq<T>, keep: T -> bool, p: T)
    ensures p in Filter(q, keep) <==> p in q && keep(p)
  {
    if q != [] {
      FilterMember(q[1..], keep, p);
      assert p in q <==> p == q[0] || p in q[1..];
    }
  }

  lemma {:induction false} FilterAll<T>(q: seq<T>, keep: T -> bool)
    requires forall k :: 0 <= k < |q| ==> keep(q[k])
    ensures Filter(q, keep) == q
  {
    if q != [] {
      FilterAll(q[1..], keep);
    }
  }

  /** Behind elements to keep, removing the first occurrence of an element to drop removes the place looked at, and
      leaves the outcome of the filter. */
  lemma {:induction false} FilterDrop<T>(q: seq<T>, i: int, keep: T -> bool)
    requires 0 <= i < |q| && !keep(q[i]) && forall j :: 0 <= j < i ==> keep(q[j])
    ensures var r := Without(q, q[i]);
      && Filter(r, keep) == Filter(q, keep) && |r| == |q| - 1 && forall j :: 0 <= j < i ==> keep(r[j])
  {
    if i > 0 {
      assert q[1..][i - 1] == q[i];
      FilterDrop(q[1..], i - 1, keep);
    }
  }

  lemma {:induction false} WithoutMembers<T>(q: seq<T>, p: T)
    ensures |Without(q, p)| <= |q| && forall k :: 0 <= k < |Without(q, p)| ==> Without(q, p)[k] in q
  {
    if q != [] && q[0] != p {
      WithoutMembers(q[1..], p);
    }
  }

  lemma {:induction false} WithoutOthers<T>(q: seq<T>, p: T, x: T)
    requires x in q && x != p
    ensures x in Without(q, p)
  {
    if q[0] != p && q[0] != x {
      WithoutOthers(q[1..], p, x);
    }
  }

  class Queue {
    const proc: array<Pcb?>
    var size: int

    ghost predicate Valid()
      reads this, proc
    {
      proc.Length == MAX_QUEUE_SIZE && 0 <= size <= MAX_QUEUE_SIZE && forall k :: 0 <= k < size ==> proc[k] != null
    }

    ghost function Contents(): (s: seq<Pcb>)
      requires Valid()
      reads this, proc
      ensures |s| == size && forall k :: 0 <= k < size ==> s[k] == proc[k]
    {
      proc[..size]
    }

    constructor ()
      ensures Valid() && fresh(this) && fresh(proc) && Contents() == []
    {
      proc := new Pcb?[MAX_QUEUE_SIZE](_ => null);
      size := 0;
    }

    method IsEmpty() returns (b: bool)
      requires Valid()
      ensures b == (Contents() == [])
    {
      b := size == 0;
    }

    method Enqueue(p: Pcb)
      requires Valid()
      modifies this`size, proc
      ensures Valid() && Contents() == Enqueued(old(Contents()), p)
    {
      if size >= MAX_QUEUE_SIZE {
        return;
      }
      proc[size] := p;
      size := size + 1;
    }

    /** The shift loop shared by `dequeue` and `remove_proc`: close the gap at `i`. */
    method CloseGap(i: int)
      requires Valid() && 0 <= i < size
      modifies this`size, proc
      ensures Valid() && Contents() == old(Contents())[..i] + old(Contents())[i + 1..]
    {
      ghost var was := Contents();
      var j := i;
      while j < size - 1
        invariant i <= j <= size - 1 && size == old(size) && Valid()
        invariant forall k :: 0 <= k < i ==> proc[k] == was[k]
        invariant forall k :: i <= k < j ==> proc[k] == was[k + 1]
        invariant forall k :: j < k < size ==> proc[k] == was[k]
      {
        proc[j] := proc[j + 1];
        j := j + 1;
      }
      size := size - 1;
    }

    /** The process with the smallest priority value, the longest queued among equals. */
    method Dequeue() returns (p: Pcb?)
      requires Valid()
      modifies this`size, proc
      ensures Valid()
      ensures old(Contents()) == [] ==> p == null && Contents() == []
      ensures old(Contents()) != [] ==> p != null && exists k :: TakenAt(old(Contents()), k, p, Contents())
    {
      if size == 0 {
        return null;
      }
      ghost var was := Contents();
      var maxIndex := 0;
      var i := 1;
      while i < size
        invariant 1 <= i <= size && 0 <= maxIndex < i && Contents() == was
        invariant forall j :: 0 <= j < i ==> was[maxIndex].prio <= was[j].prio
        invariant forall j :: 0 <= j < maxIndex ==> was[maxIndex].prio < was[j].prio
      {
        if proc[i].prio < proc[maxIndex].prio {
          maxIndex := i;
        }
        i := i + 1;
      }
      p := proc[maxIndex];
      assert IsFirstMin(was, maxIndex);
      CloseGap(maxIndex);
      assert TakenAt(was, maxIndex, p, Contents());
    }

    /** `dequeue` on a queue of equals: the head. */
    method DequeueEqual(ghost prio: nat) returns (p: Pcb?)
      requires Valid() && forall k :: 0 <= k < |Contents()| ==> Contents()[k].prio == prio
      modifies this`size, proc
      ensures Valid() && (p == null <==> old(Contents()) == [])
      ensures Contents() == if p == null then [] else old(Contents())[1..]
      ensures p != null ==> p == old(Contents())[0]
    {
      ghost var was := Contents();
      p := Dequeue();
      if p != null {
        ghost var k :| TakenAt(was, k, p, Contents());
        assert was[k].prio == was[0].prio;
        assert was[..0] + was[1..] == was[1..];
      }
    }

    method RemoveProc(p: Pcb)
      requires Valid()
      modifies this`size, proc
      ensures Valid() && Contents() == Without(old(Contents()), p)
    {
      ghost var was := Contents();
      var i := 0;
      while i < size
        invariant 0 <= i <= size && Contents() == was && forall j :: 0 <= j < i ==> was[j] != p
      {
        if proc[i] == p {
          WithoutAt(was, i);
          CloseGap(i);
          return;
        }
        i := i + 1;
      }
      WithoutAbsent(was, p);
    }
  }
}
