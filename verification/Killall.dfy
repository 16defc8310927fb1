/** `sys_killall.c`: comparing a name with the last component of a path buffer, and removing every match from a
    process queue while walking over it. */
module Killall {
  import opened Queue
  import opened Sched
  import opened Scheduler

  /** The C string held in a buffer: everything before the first NUL. */
  function CString(s: seq<char>): seq<char> {
    if s == [] || s[0] == '\0' then [] else [s[0]] + CString(s[1..])
  }

  /** Everything behind the last slash. */
  function LastComponent(s: seq<char>): seq<char> {
    if s == [] || s[|s| - 1] == '/' then []
    else LastComponent(s[..|s| - 1]) + [s[|s| - 1]]
  }

  predicate Matches(name: seq<char>, path: seq<char>) {
    CString(name) == LastComponent(CString(path))
  }

  /** A suffix without a slash, preceded by a slash or by nothing, is the last component. */
  lemma {:induction false} LastComponentIs(s: seq<char>, k: int)
    requires 0 <= k <= |s| && '/' !in s[k..] && (k > 0 ==> s[k - 1] == '/')
    ensures LastComponent(s) == s[k..]
  {
    if k < |s| {
      var t := s[..|s| - 1];
      assert s[|s| - 1] == s[k..][|s| - k - 1];
      assert t[k..] == s[k..][..|s| - k - 1];
      LastComponentIs(t, k);
      assert s[k..] == t[k..] + [s[|s| - 1]];
    }
  }

  lemma {:induction false} CStringShape(s: seq<char>)
    requires '\0' in s
    ensures var r := CString(s); |r| < |s| && r == s[..|r|] && s[|r|] == '\0' && '\0' !in r
  {
    if s[0] != '\0' {
      assert '\0' in s[1..];
      CStringShape(s[1..]);
      assert s[..|CString(s)|] == [s[0]] + s[1..][..|CString(s[1..])|];
    }
  }

  /** The prefix of a buffer up to a NUL is its C string. */
  lemma {:induction false} CStringIs(s: seq<char>, k: int)
    requires 0 <= k < |s| && s[k] == '\0' && '\0' !in s[..k]
    ensures CString(s) == s[..k]
  {
    if k > 0 {
      assert s[0] == s[..k][0];
      assert s[1..][..k - 1] == s[..k][1..];
      CStringIs(s[1..], k - 1);
    }
  }

  /** Where the string in the 100-character path buffer ends: the first loop of `check_name`. */
  method FindEnd(path: seq<char>) returns (end: int)
    requires '\0' in path && |path| <= 100
    ensures 0 <= end < |path| && path[end] == '\0' && CString(path) == path[..end]
  {
    end := 0;
    ghost var nul :| 0 <= nul < |path| && path[nul] == '\0';
    while end < 100 && path[end] != '\0'
      invariant 0 <= end <= nul && forall j :: 0 <= j < end ==> path[j] != '\0'
      decreases nul - end
    {
      end := end + 1;
    }
    CStringIs(path, end);
  }

  /** Where its last component starts: the second loop, which walks back to a slash or past the front. */
  method FindStart(path: seq<char>, end: int) returns (start: int)
    requires 0 <= end < |path| && path[end] == '\0'
    ensures 0 <= start <= end && LastComponent(path[..end]) == path[start..end]
  {
    var i := end;
    while i >= 0 && path[i] != '/'
      invariant -1 <= i <= end && forall j :: i < j < end ==> path[j] != '/'
    {
      i := i - 1;
    }
    start := i + 1;
    LastComponentIs(path[..end], start);
    assert path[..end][start..] == path[start..end];
  }

  /** `text` stands in the buffer from `at` on, closed by a NUL. */
  predicate Holds(buffer: seq<char>, at: int, text: seq<char>) {
    && 0 <= at && at + |text| < |buffer| && buffer[at + |text|] == '\0'
    && forall j :: 0 <= j < |text| ==> buffer[at + j] == text[j] && text[j] != '\0'
  }

  /** The third loop of `check_name`: compare two terminated strings. */
  method Compare(procName: seq<char>, path: seq<char>, start: int, ghost name: seq<char>, ghost last: seq<char>)
    returns (same: bool)
    requires Holds(procName, 0, name) && Holds(path, start, last)
    ensures same == (name == last)
  {
    var nameIndex, pathIndex := 0, start;
    same := true;
    while procName[nameIndex] != '\0' && path[pathIndex] != '\0'
      invariant 0 <= nameIndex <= |name| && nameIndex <= |last| && pathIndex == start + nameIndex && same
      invariant forall j :: 0 <= j < nameIndex ==> name[j] == last[j]
      decreases |name| - nameIndex
    {
      if procName[nameIndex] != path[pathIndex] {
        same := false;
        break;
      }
      nameIndex := nameIndex + 1;
      pathIndex := pathIndex + 1;
    }
    assert nameIndex < |name| ==> procName[0 + nameIndex] == name[nameIndex];
    assert nameIndex < |last| ==> path[start + nameIndex] == last[nameIndex];
    if procName[nameIndex] != '\0' || path[pathIndex] != '\0' {
      same := false;
    }
  }

  /** `check_name`. Both buffers hold a terminated string, the path within its 100 characters. */
  method CheckName(procName: seq<char>, path: seq<char>) returns (same: bool)
    requires '\0' in procName && '\0' in path && |path| <= 100
    ensures same == Matches(procName, path)
  {
    var end := FindEnd(path);
    var start := FindStart(path, end);
    CStringShape(procName);
    CStringShape(path);
    assert '\0' !in path[..end];
    assert forall j :: start <= j < end ==> path[j] == path[..end][j];
    same := Compare(procName, path, start, CString(procName), path[start..end]);
  }

  /** The processes a killall of `name` spares. */
  ghost function Spared(name: seq<char>): Pcb -> bool {
    (p: Pcb) => !Matches(name, p.path)
  }

  /** A process of the list `q` is where its fields say: in the running list if its `running_list` field is set, and
      otherwise in the ready queue of its priority. Its path buffer holds a terminated string. */
  predicate AtHome(p: Pcb, q: Queue, running: Queue, mlq: seq<Queue>)
    reads p`onRunningList
  {
    && p.prio < |mlq| && (p.onRunningList <==> q == running) && (!p.onRunningList ==> q == mlq[p.prio])
    && '\0' in p.path && |p.path| <= 100
  }

  ghost predicate AllAtHome(ps: set<Pcb>, q: Queue, running: Queue, mlq: seq<Queue>)
    reads ps`onRunningList
  {
    forall p :: p in ps ==> AtHome(p, q, running, mlq)
  }

  /** One killed process: off the running list with its program ended, or out of its ready queue by `remove_pcb`. */
  method KillOne(q: Queue, running: Queue, mlq: seq<Queue>, p: Pcb)
    requires q.Valid() && p.prio < |mlq| && q == if p.onRunningList then running else mlq[p.prio]
    modifies q`size, q.proc, p`pc, p`hasReadyQueue
    ensures q.Valid() && q.Contents() == Without(old(q.Contents()), p)
    ensures if p.onRunningList then p.pc == p.size && !p.hasReadyQueue
            else p.pc == old(p.pc) && p.hasReadyQueue == old(p.hasReadyQueue)
  {
    if p.onRunningList {
      running.RemoveProc(p);
      p.pc := p.size;
      p.hasReadyQueue := false;
    } else {
      mlq[p.prio].RemoveProc(p);
    }
  }

  /** `keep` spares exactly the processes whose name does not match. */
  ghost predicate Decides(keep: Pcb -> bool, ps: set<Pcb>, procName: seq<char>) {
    forall p {:trigger Matches(procName, p.path)} :: p in ps ==> keep(p) == !Matches(procName, p.path)
  }

  /** One turn of the loop of `kill_in_queue`, for the process `p` at index `i`: a match leaves the list, its program
      ended if it was running; no other process is touched. */
  method KillStep(q: Queue, running: Queue, mlq: seq<Queue>, procName: seq<char>, i: int, p: Pcb,
                  ghost ps: set<Pcb>, ghost keep: Pcb -> bool, ghost gone: set<Pcb>, ghost pcs: map<Pcb, nat>)
    returns (same: bool)
    requires q.Valid() && 0 <= i < q.size && p == q.proc[i] && '\0' in procName && Decides(keep, ps, procName)
    requires p in ps && AllAtHome(ps, q, running, mlq) && Written(ps, gone, pcs, q == running)
    modifies q`size, q.proc, p`pc, p`hasReadyQueue
    ensures q.Valid() && same == !keep(p) && AllAtHome(ps, q, running, mlq)
    ensures q.Contents() == if same then Without(old(q.Contents()), p) else old(q.Contents())
    ensures same && p.onRunningList ==> !p.hasReadyQueue
    ensures Written(ps, if same then gone + {p} else gone, pcs, q == running)
  {
    same := CheckName(procName, p.path);
    if same {
      KillOne(q, running, mlq, p);
    }
  }

  /** The list while it is walked: it filters to what the list filtered to at first, its first `i` processes are
      spared, and `count` are gone. */
  ghost predicate Decided(now: seq<Pcb>, i: int, was: seq<Pcb>, count: int, ps: set<Pcb>, gone: set<Pcb>,
                          keep: Pcb -> bool)
  {
    && gone <= ps && (forall p :: p in ps ==> p in now || p in gone) && (forall p :: p in gone ==> !keep(p))
    && 0 <= i <= |now| && count == |was| - |now| && Filter(now, keep) == Filter(was, keep)
    && (forall j :: 0 <= j < i ==> keep(now[j])) && (forall j :: 0 <= j < |now| ==> now[j] in ps)
  }

  lemma DecidedStep(now: seq<Pcb>, i: int, was: seq<Pcb>, count: int, ps: set<Pcb>, gone: set<Pcb>,
                    keep: Pcb -> bool)
    requires Decided(now, i, was, count, ps, gone, keep) && i < |now|
    ensures keep(now[i]) ==> Decided(now, i + 1, was, count, ps, gone, keep)
    ensures !keep(now[i]) ==> Decided(Without(now, now[i]), i, was, count + 1, ps, gone + {now[i]}, keep)
  {
    if !keep(now[i]) {
      FilterDrop(now, i, keep);
      WithoutMembers(now, now[i]);
      forall p | p in ps ensures p in Without(now, now[i]) || p in gone + {now[i]} {
        if p in now && p != now[i] {
          WithoutOthers(now, now[i], p);
        }
      }
    }
  }

  /** What the fields of the processes say meanwhile: the programs of those `gone` from the running list are ended, and
      all others stand at the instruction where they stood (`pcs`). */
  ghost predicate Written(ps: set<Pcb>, gone: set<Pcb>, pcs: map<Pcb, nat>, ending: bool)
    reads ps`pc
  {
    forall p :: p in ps ==> if ending && p in gone then p.pc == p.size else p in pcs && p.pc == pcs[p]
  }

  /** The loop of `kill_in_queue`, for whatever `keep` says about names. `ps` are the processes of the queue. */
  method Sweep(q: Queue, running: Queue, mlq: seq<Queue>, procName: seq<char>, ghost ps: set<Pcb>,
               ghost keep: Pcb -> bool)
    returns (count: int)
    requires q.Valid() && '\0' in procName && AllAtHome(ps, q, running, mlq) && Decides(keep, ps, procName)
    requires forall p :: p in ps <==> p in q.Contents()
    modifies q`size, q.proc, ps`pc, ps`hasReadyQueue
    ensures q.Valid() && q.Contents() == Filter(old(q.Contents()), keep)
    ensures count == |old(q.Contents())| - |q.Contents()|
    ensures forall p :: p in ps ==> p.pc == if q == running && !keep(p) then p.size else old(p.pc)
  {
    ghost var was := q.Contents();
    ghost var gone: set<Pcb> := {};
    ghost var pcs := map p | p in ps :: p.pc;
    var i := 0;
    count := 0;
    while i < q.size
      invariant q.Valid() && AllAtHome(ps, q, running, mlq) && Written(ps, gone, pcs, q == running)
      invariant Decided(q.Contents(), i, was, count, ps, gone, keep)
      decreases q.size - i
    {
      var proc: Pcb := q.proc[i];
      DecidedStep(q.Contents(), i, was, count, ps, gone, keep);
      var same := KillStep(q, running, mlq, procName, i, proc, ps, keep, gone, pcs);
      if same {
        count := count + 1;
        gone := gone + {proc};
      } else {
        i := i + 1;
      }
    }
    FilterAll(q.Contents(), keep);
    forall p | p in ps && !keep(p) ensures p in gone {
      FilterMember(was, keep, p);
    }
  }

  /** `kill_in_queue`: an exact stable filter. The matching processes are gone, the others keep their order, and the
      count is the number removed. */
  method KillInQueue(q: Queue, running: Queue, mlq: seq<Queue>, procName: seq<char>, ghost ps: set<Pcb>)
    returns (count: int)
    requires q.Valid() && '\0' in procName && AllAtHome(ps, q, running, mlq)
    requires forall p :: p in ps <==> p in q.Contents()
    modifies q`size, q.proc, ps`pc, ps`hasReadyQueue
    ensures q.Valid() && q.Contents() == Filter(old(q.Contents()), Spared(procName))
    ensures count == |old(q.Contents())| - |q.Contents()|
    ensures forall p :: p in ps ==> p.pc == if q == running && !Spared(procName)(p) then p.size else old(p.pc)
  {
    count := Sweep(q, running, mlq, procName, ps, Spared(procName));
  }

  predicate Terminated(path: seq<char>) {
    '\0' in path && |path| <= 100
  }

  lemma FilterSubset(q: seq<Pcb>, keep: Pcb -> bool)
    ensures forall k :: 0 <= k < |Filter(q, keep)| ==> Filter(q, keep)[k] in q
  {
    forall k | 0 <= k < |Filter(q, keep)| ensures Filter(q, keep)[k] in q {
      FilterMember(q, keep, Filter(q, keep)[k]);
    }
  }

  /** `kill_in_queue` on the ready queue of priority `i`. */
  method KillReady(s: Scheduler, i: int, procName: seq<char>) returns (count: int)
    requires s.Valid() && 0 <= i < MAX_PRIO && '\0' in procName
    requires forall k :: 0 <= k < |s.queues[i]| ==> !s.queues[i][k].onRunningList && Terminated(s.queues[i][k].path)
    modifies {s.mlq[i]}`size, s.mlq[i].proc, s`queues, s.Waiting()`pc, s.Waiting()`hasReadyQueue
    ensures s.Valid() && s.queues == old(s.queues)[i := Filter(old(s.queues)[i], Spared(procName))]
    ensures s.slot[..] == old(s.slot[..]) && s.running.Contents() == old(s.running.Contents())
    ensures count == |old(s.queues)[i]| - |s.queues[i]|
    ensures forall p :: p in old(s.Waiting()) ==> p.pc == old(p.pc)
  {
    ghost var was := s.queues[i];
    ghost var ps := set p | p in was;
    count := KillInQueue(s.mlq[i], s.running, s.mlq, procName, ps);
    FilterSubset(was, Spared(procName));
    s.queues := s.queues[i := s.mlq[i].Contents()];
  }

  /** All these processes stand at the instruction where they stood (`pcs`). */
  ghost predicate Kept(ps: set<Pcb>, pcs: map<Pcb, nat>)
    reads ps`pc
  {
    forall p :: p in ps ==> p in pcs && p.pc == pcs[p]
  }

  /** `kill_in_queue` on the running list: the matches leave it with their programs ended. */
  method KillRunning(s: Scheduler, procName: seq<char>, ghost ps: set<Pcb>, ghost others: set<Pcb>,
                     ghost pcs: map<Pcb, nat>) returns (count: int)
    requires others !! ps && Kept(others, pcs)
    requires s.Valid() && '\0' in procName
    requires forall p :: p in ps <==> p in s.running.Contents()
    requires forall p :: p in ps ==> p.onRunningList && p.prio < MAX_PRIO && Terminated(p.path)
    modifies {s.running}`size, s.running.proc, ps`pc, ps`hasReadyQueue
    ensures s.Valid() && s.running.Contents() == Filter(old(s.running.Contents()), Spared(procName))
    ensures s.queues == old(s.queues) && s.slot[..] == old(s.slot[..])
    ensures count == |old(s.running.Contents())| - |s.running.Contents()|
    ensures forall p :: p in ps ==> p.pc == if Spared(procName)(p) then old(p.pc) else p.size
    ensures Kept(others, pcs)
  {
    count := KillInQueue(s.running, s.running, s.mlq, procName, ps);
  }

  // ---------------------------------------------------------------------------------------------------------
  // All queues
  // ---------------------------------------------------------------------------------------------------------

  /** How many processes the queues hold together. */
  function Total(queues: seq<seq<Pcb>>): int {
    if queues == [] then 0 else |queues[|queues| - 1]| + Total(queues[..|queues| - 1])
  }

  /** The processes in the ready queues are marked as waiting, their paths are terminated. */
  ghost predicate WaitingMarked(queues: seq<seq<Pcb>>)
    reads set i, k | 0 <= i < |queues| && 0 <= k < |queues[i]| :: queues[i][k]
  {
    forall i, k :: 0 <= i < |queues| && 0 <= k < |queues[i]| ==>
                     !queues[i][k].onRunningList && Terminated(queues[i][k].path)
  }

  /** The first `n` queues are filtered, the others are as they were. */
  ghost predicate SweptUpTo(was: seq<seq<Pcb>>, now: seq<seq<Pcb>>, n: int, procName: seq<char>) {
    && 0 <= n <= |was| == |now|
    && forall i :: 0 <= i < |was| ==> now[i] == if i < n then Filter(was[i], Spared(procName)) else was[i]
  }

  /** Moreover `killed` processes have gone from them. */
  ghost predicate CountedUpTo(was: seq<seq<Pcb>>, now: seq<seq<Pcb>>, n: int, procName: seq<char>, killed: int) {
    SweptUpTo(was, now, n, procName) && killed == Total(was[..n]) - Total(now[..n])
  }

  lemma CountedFurther(was: seq<seq<Pcb>>, now: seq<seq<Pcb>>, i: int, procName: seq<char>, killed: int)
    requires CountedUpTo(was, now, i, procName, killed) && i < |was|
    ensures var next := now[i := Filter(now[i], Spared(procName))];
      CountedUpTo(was, next, i + 1, procName, killed + |now[i]| - |next[i]|)
  {
    var next := now[i := Filter(now[i], Spared(procName))];
    assert was[..i + 1][..i] == was[..i] && next[..i + 1][..i] == now[..i];
  }

  /** One turn of the loop over the ready queues. `all` are the processes that waited at first. */
  method KillNext(s: Scheduler, i: int, procName: seq<char>, ghost all: set<Pcb>, ghost pcs: map<Pcb, nat>)
    returns (count: int)
    requires s.Valid() && 0 <= i < MAX_PRIO && '\0' in procName && WaitingMarked(s.queues) && s.Waiting() <= all
    requires Kept(all, pcs)
    modifies s`queues, s.Lists()`size, s.Buffers(), all`pc, all`hasReadyQueue
    ensures s.Valid() && s.queues == old(s.queues)[i := Filter(old(s.queues)[i], Spared(procName))]
    ensures WaitingMarked(s.queues) && s.Waiting() <= all
    ensures s.slot[..] == old(s.slot[..]) && s.running.Contents() == old(s.running.Contents())
    ensures count == |old(s.queues)[i]| - |s.queues[i]|
    ensures Kept(all, pcs)
  {
    FilterSubset(s.queues[i], Spared(procName));
    FilterSubset(s.queues[i], Spared(procName));
    count := KillReady(s, i, procName);
  }

  /** The loop over the ready queues. */
  method KillWaiting(s: Scheduler, procName: seq<char>, ghost all: set<Pcb>, ghost pcs: map<Pcb, nat>)
    returns (killed: int)
    requires s.Valid() && '\0' in procName && WaitingMarked(s.queues) && s.Waiting() <= all && Kept(all, pcs)
    modifies s`queues, s.Lists()`size, s.Buffers(), all`pc, all`hasReadyQueue
    ensures s.Valid() && s.slot[..] == old(s.slot[..]) && s.running.Contents() == old(s.running.Contents())
    ensures SweptUpTo(old(s.queues), s.queues, MAX_PRIO, procName)
    ensures killed == Total(old(s.queues)) - Total(s.queues)
    ensures Kept(all, pcs)
  {
    ghost var was, credits, running := s.queues, s.slot[..], s.running.Contents();
    killed := 0;
    var i := 0;
    while i < MAX_PRIO
      invariant 0 <= i <= MAX_PRIO && s.Valid() && WaitingMarked(s.queues) && s.Waiting() <= all
      invariant s.slot[..] == credits && s.running.Contents() == running
      invariant CountedUpTo(was, s.queues, i, procName, killed)
      invariant Kept(all, pcs)
    {
      CountedFurther(was, s.queues, i, procName, killed);
      var count := KillNext(s, i, procName, all, pcs);
      killed := killed + count;
      i := i + 1;
    }
    assert was[..MAX_PRIO] == was && s.queues[..MAX_PRIO] == s.queues;
  }

  lemma {:induction false} FilterDistinct(q: seq<Pcb>, keep: Pcb -> bool)
    requires Distinct(q)
    ensures Distinct(Filter(q, keep))
  {
    if q != [] {
      FilterDistinct(q[1..], keep);
      FilterMember(q[1..], keep, q[0]);
      assert q[0] !in q[1..];
    }
  }

  /** A sweep keeps the placement. */
  lemma SweepPlaced(was: seq<seq<Pcb>>, running: seq<Pcb>, now: seq<seq<Pcb>>, procName: seq<char>)
    requires Placed(was, running) && SweptUpTo(was, now, |was|, procName)
    ensures Placed(now, Filter(running, Spared(procName)))
  {
    var keep := Spared(procName);
    forall i | 0 <= i < |was| ensures Distinct(now[i]) && forall k :: 0 <= k < |now[i]| ==> now[i][k] in was[i] {
      FilterDistinct(was[i], keep);
      FilterSubset(was[i], keep);
    }
    FilterDistinct(running, keep);
    FilterSubset(running, keep);
  }

  /** The paths of all listed processes are terminated. */
  predicate PathsOk(queues: seq<seq<Pcb>>, running: seq<Pcb>) {
    && (forall i, k :: 0 <= i < |queues| && 0 <= k < |queues[i]| ==> Terminated(queues[i][k].path))
    && (forall k :: 0 <= k < |running| ==> Terminated(running[k].path))
  }

  lemma PlacedMarks(queues: seq<seq<Pcb>>, running: seq<Pcb>)
    requires Placed(queues, running) && PathsOk(queues, running)
    ensures WaitingMarked(queues)
    ensures forall p :: p in running ==> p.onRunningList && p.prio < |queues| && Terminated(p.path)
  {
  }

  /** Running list and ready queues, with the marks of their processes spelled out; `ps` are the running ones. */
  method KillLists(s: Scheduler, procName: seq<char>, ghost ps: set<Pcb>) returns (killed: int)
    requires s.Valid() && '\0' in procName && WaitingMarked(s.queues)
    requires forall p :: p in ps <==> p in s.running.Contents()
    requires forall p :: p in ps ==> p.onRunningList && p.prio < MAX_PRIO && Terminated(p.path)
    modifies s`queues, s.Lists()`size, s.Buffers(), {s.running}`size, s.running.proc
    modifies s.Waiting()`pc, s.Waiting()`hasReadyQueue, ps`pc, ps`hasReadyQueue
    ensures s.Valid() && s.slot[..] == old(s.slot[..])
    ensures s.running.Contents() == Filter(old(s.running.Contents()), Spared(procName))
    ensures SweptUpTo(old(s.queues), s.queues, MAX_PRIO, procName)
    ensures killed == |old(s.running.Contents())| - |s.running.Contents()| + Total(old(s.queues)) - Total(s.queues)
    ensures forall p :: p in ps ==> p.pc == if Spared(procName)(p) then old(p.pc) else p.size
    ensures forall p :: p in old(s.Waiting()) ==> p.pc == old(p.pc)
  {
    ghost var waiting := s.Waiting();
    ghost var goal := map p | p in waiting + ps :: if p in ps && !Spared(procName)(p) then p.size else p.pc;
    var first := KillRunning(s, procName, ps, waiting, goal);
    var rest := KillWaiting(s, procName, waiting + ps, goal);
    killed := first + rest;
  }

  /** The two parts of `__sys_killall` for the name it has read: the running list, then every ready queue. Everywhere
      exactly the processes of that name are gone, and the count is their number. */
  method KillAll(s: Scheduler, procName: seq<char>) returns (killed: int)
    requires s.Valid() && s.WellPlaced() && '\0' in procName && PathsOk(s.queues, s.running.Contents())
    modifies s`queues, s.Lists()`size, s.Buffers(), {s.running}`size, s.running.proc
    modifies s.Waiting()`pc, s.Waiting()`hasReadyQueue, s.Running()`pc, s.Running()`hasReadyQueue
    ensures s.Valid() && s.WellPlaced() && s.slot[..] == old(s.slot[..])
    ensures s.running.Contents() == Filter(old(s.running.Contents()), Spared(procName))
    ensures SweptUpTo(old(s.queues), s.queues, MAX_PRIO, procName)
    ensures killed == |old(s.running.Contents())| - |s.running.Contents()| + Total(old(s.queues)) - Total(s.queues)
    ensures forall p :: p in old(s.running.Contents()) ==> p.pc == if Spared(procName)(p) then old(p.pc) else p.size
    ensures forall p :: p in old(s.Waiting()) ==> p.pc == old(p.pc)
  {
    ghost var was, run := s.queues, s.running.Contents();
    PlacedMarks(was, run);
    ghost var ps := s.Running();
    killed := KillLists(s, procName, ps);
    assert Placed(was, run);
    SweepPlaced(was, run, s.queues, procName);
  }
}
