/** Tasks and semaphores (src/task.c): priority-ordered waiters, timeouts, and waiters
    whose job is blocked. A task switch is one step. */
module Semaphore {
  import opened Wrappers
  import opened CyclicTime

  /** `listed`: the job is on the scheduler's list; `blocked` and `pending` are the job's
      flags; `waiting`: the semaphore on whose list the task is; `check`: check_sem;
      `woken`: woken_by_sem_post; `forever`: it waits without a timeout; `since`: when it
      joined the list, which the code never reads. */
  datatype Task = Task(
    priority: nat, listed: bool, start: Time, blocked: bool, pending: bool,
    waiting: Option<nat>, check: Option<nat>, woken: bool, forever: bool, since: nat)

  datatype Sem = Sem(ctr: nat, waiters: seq<nat>)

  /** `current` is the running task, if one runs. */
  datatype State = State(tasks: map<nat, Task>, sems: map<nat, Sem>, now: Time, current: Option<nat>, stamps: nat)

  /** usfstl_sched_add_job for a task's job, `at` being its start. */
  function AddJob(t: Task, at: Time): Task {
    if t.blocked then t.(start := 0, pending := true) else t.(start := at, listed := true)
  }

  /** Position of the first waiter whose job is not blocked; their number if there is none. */
  function FirstActive(tasks: map<nat, Task>, w: seq<nat>): (i: nat)
    requires forall t :: t in w ==> t in tasks
    ensures i <= |w| && (forall k :: 0 <= k < i ==> tasks[w[k]].blocked)
    ensures i < |w| ==> !tasks[w[i]].blocked
  {
    if w == [] || !tasks[w[0]].blocked then 0 else 1 + FirstActive(tasks, w[1..])
  }

  function Mark(tasks: map<nat, Task>, ids: seq<nat>, s: nat): map<nat, Task> {
    map t | t in tasks :: if t in ids then tasks[t].(check := Some(s)) else tasks[t]
  }

  ghost predicate Known(y: State) {
    && (forall s, t :: s in y.sems && t in y.sems[s].waiters ==> t in y.tasks)
    && (y.current.Some? ==> y.current.value in y.tasks)
  }

  /** usfstl_process_sem_wakeup succeeds. */
  ghost predicate CanWake(y: State, s: nat)
    requires Known(y) && s in y.sems
  {
    FirstActive(y.tasks, y.sems[s].waiters) < |y.sems[s].waiters|
  }

  /** usfstl_process_sem_wakeup: mark the blocked waiters in front, wake the first other. */
  ghost function Wakeup(y: State, s: nat): State
    requires Known(y) && s in y.sems
  {
    var m := y.sems[s];
    var i := FirstActive(y.tasks, m.waiters);
    var tasks := Mark(y.tasks, m.waiters[..i], s);
    if i == |m.waiters| then y.(tasks := tasks)
    else
      var t := m.waiters[i];
      y.(tasks := tasks[t := AddJob(tasks[t].(listed := false), y.now).(woken := true, waiting := None)],
         sems := y.sems[s := m.(waiters := m.waiters[..i] + m.waiters[i + 1..])])
  }

  /** usfstl_sem_post. */
  ghost function Post(y: State, s: nat): State
    requires Known(y) && s in y.sems
  {
    var z := Wakeup(y, s);
    var m := z.sems[s];
    z.(sems := z.sems[s := m.(ctr := if CanWake(y, s) then m.ctr else m.ctr + 1)])
  }

  /** usfstl_sem_trywait. */
  function TryWait(y: State, s: nat): State
    requires s in y.sems
  {
    var m := y.sems[s];
    if m.ctr > 0 then y.(sems := y.sems[s := m.(ctr := m.ctr - 1)]) else y
  }

  /** Position at which usfstl_sem_timedwait inserts a task of priority `p`. */
  function Place(tasks: map<nat, Task>, w: seq<nat>, p: nat): (i: nat)
    requires forall t :: t in w ==> t in tasks
    ensures i <= |w| && (forall k :: 0 <= k < i ==> tasks[w[k]].priority >= p)
    ensures i < |w| ==> tasks[w[i]].priority < p
  {
    if w == [] || tasks[w[0]].priority < p then 0 else 1 + Place(tasks, w[1..], p)
  }

  /** usfstl_sem_timedwait of task `c` up to the point where it suspends. */
  ghost function TimedWait(y: State, c: nat, s: nat, timeout: Option<Time>): State
    requires Known(y) && s in y.sems && c in y.tasks
  {
    var m := y.sems[s];
    if m.ctr > 0 then TryWait(y, s)
    else
      var t := if timeout.Some? then AddJob(y.tasks[c], Wrap(y.now + timeout.value)) else y.tasks[c];
      var i := Place(y.tasks, m.waiters, t.priority);
      y.(tasks := y.tasks[c := t.(waiting := Some(s), forever := timeout.None?, since := y.stamps)],
         sems := y.sems[s := m.(waiters := m.waiters[..i] + [c] + m.waiters[i..])],
         current := None, stamps := y.stamps + 1)
  }

  /** usfstl_sched_block_job. */
  function Block(t: Task): Task {
    t.(blocked := true, pending := t.pending || t.listed, listed := false)
  }

  /** usfstl_sched_unblock_job. */
  function UnblockJob(t: Task, now: Time): Task {
    var u := t.(blocked := false);
    if u.pending then AddJob(u.(pending := false), Later(u.start, now)) else u
  }

  /** usfstl_task_unblock; the assertion that some task is woken is `CanWake`. */
  ghost function Unblock(y: State, t: nat): Outcome<State>
    requires Known(y) && t in y.tasks
  {
    var check := y.tasks[t].check;
    var z := y.(tasks := y.tasks[t := UnblockJob(y.tasks[t], y.now)]);
    if check.Some? && check.value !in y.sems then Aborted
    else if check.None? || y.sems[check.value].ctr == 0 then Ok(z.(tasks := z.tasks[t := z.tasks[t].(check := None)]))
    else
      var s := check.value;
      var u := z.(sems := z.sems[s := z.sems[s].(ctr := z.sems[s].ctr - 1)]);
      if !CanWake(u, s) then Aborted
      else
        var v := Wakeup(u, s);
        if t in v.tasks then Ok(v.(tasks := v.tasks[t := v.tasks[t].(check := None)])) else Aborted
  }

  /** The scheduler reaches the job of task `t`: the task continues, inside its wait if it
      is in one. A task that was not woken by a post has timed out. */
  ghost function Resume(y: State, t: nat, now: Time): Outcome<State>
    requires Known(y) && t in y.tasks
  {
    var k := y.tasks[t].(listed := false);
    var z := y.(now := now, current := Some(t));
    if k.waiting.None? then
      if k.woken && k.check.Some? then Aborted else Ok(z.(tasks := y.tasks[t := k.(woken := false)]))
    else if k.check.Some? || k.forever || k.waiting.value !in y.sems then Aborted
    else
      var m := y.sems[k.waiting.value];
      Ok(z.(tasks := y.tasks[t := k.(waiting := None)],
            sems := y.sems[k.waiting.value := m.(waiters := Remove(m.waiters, t))]))
  }

  ghost function Remove(w: seq<nat>, t: nat): (r: seq<nat>)
    ensures forall x :: x in r <==> x in w && x != t
  {
    if w == [] then [] else (if w[0] == t then [] else [w[0]]) + Remove(w[1..], t)
  }

  // ------------------------------------------------------------ invariant

  ghost predicate Distinct(w: seq<nat>) { forall i, j :: 0 <= i < j < |w| ==> w[i] != w[j] }

  /** The waiter lists and what the tasks say about them agree. */
  ghost predicate Lists(y: State) {
    && Known(y)
    && (forall s :: s in y.sems ==> Distinct(y.sems[s].waiters))
    && (forall s, t :: s in y.sems && t in y.sems[s].waiters ==> y.tasks[t].waiting == Some(s))
    && (forall t :: t in y.tasks && y.tasks[t].waiting.Some? ==>
          y.tasks[t].waiting.value in y.sems && t in y.sems[y.tasks[t].waiting.value].waiters)
  }

  ghost predicate Flags(k: Task) {
    && (k.blocked ==> !k.listed) && (k.pending ==> k.blocked)
    && (k.woken ==> k.waiting.None? && (k.listed || k.pending))
    && (k.waiting.Some? && k.forever ==> !k.listed && !k.pending)
    && (k.check.Some? ==> k.blocked && k.waiting == k.check)
  }

  /** The running task is not queued anywhere. */
  ghost predicate Running(y: State) {
    y.current.Some? && y.current.value in y.tasks ==>
      var k := y.tasks[y.current.value];
      !k.listed && !k.pending && !k.woken && k.waiting.None?
  }

  /** No lost wakeup: a positive counter has only blocked waiters, all marked. */
  ghost predicate NoLostWakeup(y: State)
    requires Known(y)
  {
    forall s, t :: s in y.sems && y.sems[s].ctr > 0 && t in y.sems[s].waiters ==>
      y.tasks[t].blocked && y.tasks[t].check == Some(s)
  }

  /** Task `a` is served before task `b`. */
  predicate Ahead(a: Task, b: Task) {
    a.priority > b.priority || (a.priority == b.priority && a.since < b.since)
  }

  ghost predicate Ordered(tasks: map<nat, Task>, w: seq<nat>)
    requires forall t :: t in w ==> t in tasks
  {
    forall i, j :: 0 <= i < j < |w| ==> Ahead(tasks[w[i]], tasks[w[j]])
  }

  ghost predicate Queues(y: State)
    requires Known(y)
  {
    && (forall s :: s in y.sems ==> Ordered(y.tasks, y.sems[s].waiters))
    && (forall t :: t in y.tasks && y.tasks[t].waiting.Some? ==> y.tasks[t].since < y.stamps)
  }

  ghost predicate Inv(y: State) {
    && Lists(y) && Running(y) && NoLostWakeup(y) && Queues(y)
    && (forall t :: t in y.tasks ==> Flags(y.tasks[t]))
  }

  // ------------------------------------------------------------ waking up

  lemma MarkOnly(tasks: map<nat, Task>, ids: seq<nat>, s: nat, t: nat)
    requires t in tasks
    ensures Mark(tasks, ids, s)[t] == if t in ids then tasks[t].(check := Some(s)) else tasks[t]
  {
  }

  /** The waiters in front of the first active one are blocked, and no other task changes. */
  lemma WakeupTasks(y: State, s: nat, t: nat)
    requires Lists(y) && s in y.sems && t in y.tasks
    ensures t in Wakeup(y, s).tasks
    ensures var w, i, k := y.sems[s].waiters, FirstActive(y.tasks, y.sems[s].waiters), Wakeup(y, s).tasks[t];
            if t in w[..i] then k == y.tasks[t].(check := Some(s)) && k.blocked && k.waiting == Some(s)
            else if i < |w| && t == w[i] then
              k == AddJob(y.tasks[t].(listed := false), y.now).(woken := true, waiting := None) && !k.blocked && k.listed
            else k == y.tasks[t]
  {
    var w, i := y.sems[s].waiters, FirstActive(y.tasks, y.sems[s].waiters);
    MarkOnly(y.tasks, w[..i], s, t);
    if t in w[..i] {
      var k :| 0 <= k < i && w[k] == t;
    }
  }

  /** The waiter lists after a wakeup: the woken task is gone, the rest is as before. */
  lemma WakeupSems(y: State, s: nat)
    requires Lists(y) && s in y.sems
    ensures var z, w, i := Wakeup(y, s), y.sems[s].waiters, FirstActive(y.tasks, y.sems[s].waiters);
            && z.sems.Keys == y.sems.Keys && z.tasks.Keys == y.tasks.Keys
            && (forall r :: r in y.sems && r != s ==> z.sems[r] == y.sems[r])
            && Distinct(z.sems[s].waiters)
            && (forall t :: t in z.sems[s].waiters <==> t in w && (i < |w| ==> t != w[i]))
            && (i < |w| ==> z.sems[s].waiters == w[..i] + w[i + 1..])
            && (i == |w| ==> z.sems[s] == y.sems[s])
            && z.sems[s].ctr == y.sems[s].ctr
  {
    var w, i := y.sems[s].waiters, FirstActive(y.tasks, y.sems[s].waiters);
    if i < |w| {
      DistinctDrop(w, i);
    }
  }

  /** At most task `t` has left the list of `s`. */
  lemma ListsAfter(y: State, z: State, s: nat, left: Option<nat>)
    requires Lists(y) && s in y.sems && z.sems.Keys == y.sems.Keys && z.tasks.Keys == y.tasks.Keys
    requires forall r :: r in y.sems && r != s ==> z.sems[r].waiters == y.sems[r].waiters
    requires Distinct(z.sems[s].waiters)
    requires forall u :: u in z.sems[s].waiters <==> u in y.sems[s].waiters && left != Some(u)
    requires left.Some? ==> left.value in y.sems[s].waiters
    requires forall u :: u in y.tasks ==> z.tasks[u].waiting == if left == Some(u) then None else y.tasks[u].waiting
    requires z.current.Some? ==> z.current.value in z.tasks
    ensures Lists(z)
  {
    forall r, u | r in z.sems && u in z.sems[r].waiters ensures u in z.tasks && z.tasks[u].waiting == Some(r) {
      assert u in y.sems[r].waiters;
    }
    forall u | u in z.tasks && z.tasks[u].waiting.Some?
      ensures z.tasks[u].waiting.value in z.sems && u in z.sems[z.tasks[u].waiting.value].waiters
    {
      StillListed(y, z, s, left, u);
    }
  }

  lemma StillListed(y: State, z: State, s: nat, left: Option<nat>, u: nat)
    requires Lists(y) && s in y.sems && z.sems.Keys == y.sems.Keys && u in y.tasks && u in z.tasks
    requires forall r :: r in y.sems && r != s ==> z.sems[r].waiters == y.sems[r].waiters
    requires u in z.sems[s].waiters <==> u in y.sems[s].waiters && left != Some(u)
    requires z.tasks[u].waiting.Some? && z.tasks[u].waiting == if left == Some(u) then None else y.tasks[u].waiting
    ensures z.tasks[u].waiting.value in z.sems && u in z.sems[z.tasks[u].waiting.value].waiters
  {
  }

  lemma WakeupLists(y: State, s: nat)
    requires Lists(y) && s in y.sems
    ensures Lists(Wakeup(y, s))
  {
    var z := Wakeup(y, s);
    WakeupSems(y, s);
    var w, i := y.sems[s].waiters, FirstActive(y.tasks, y.sems[s].waiters);
    var left := if i < |w| then Some(w[i]) else None;
    forall t | t in y.tasks ensures z.tasks[t].waiting == if left == Some(t) then None else y.tasks[t].waiting {
      WakeupTasks(y, s, t);
    }
    ListsAfter(y, z, s, left);
  }

  lemma WakeupOrder(y: State, s: nat)
    requires Lists(y) && Queues(y) && s in y.sems && Lists(Wakeup(y, s))
    ensures Queues(Wakeup(y, s))
  {
    var z := Wakeup(y, s);
    WakeupSems(y, s);
    forall t | t in y.tasks
      ensures t in z.tasks && z.tasks[t].priority == y.tasks[t].priority && z.tasks[t].since == y.tasks[t].since
      ensures z.tasks[t].waiting.Some? ==> y.tasks[t].waiting.Some?
    {
      WakeupTasks(y, s, t);
    }
    OrderAfter(y, z, s, FirstActive(y.tasks, y.sems[s].waiters));
  }

  /** The lists stay in order when only the waiter at `i` of `s`, if any, leaves. */
  lemma OrderAfter(y: State, z: State, s: nat, i: nat)
    requires Known(y) && Queues(y) && Known(z) && s in y.sems && z.sems.Keys == y.sems.Keys && z.tasks.Keys == y.tasks.Keys
    requires forall r :: r in y.sems && r != s ==> z.sems[r].waiters == y.sems[r].waiters
    requires z.sems[s].waiters == y.sems[s].waiters
             || (i < |y.sems[s].waiters| && z.sems[s].waiters == y.sems[s].waiters[..i] + y.sems[s].waiters[i + 1..])
    requires forall t :: t in y.tasks ==> z.tasks[t].priority == y.tasks[t].priority && z.tasks[t].since == y.tasks[t].since
    requires z.stamps == y.stamps && forall t :: t in y.tasks && z.tasks[t].waiting.Some? ==> y.tasks[t].waiting.Some?
    ensures Queues(z)
  {
    forall r | r in z.sems ensures Ordered(z.tasks, z.sems[r].waiters) {
      OrderedSame(y.tasks, z.tasks, y.sems[r].waiters);
      if r == s && i < |y.sems[s].waiters| {
        OrderedDrop(z.tasks, y.sems[s].waiters, i);
      }
    }
  }

  lemma OrderedSame(a: map<nat, Task>, b: map<nat, Task>, w: seq<nat>)
    requires forall t :: t in w ==> t in a && t in b && a[t].priority == b[t].priority && a[t].since == b[t].since
    requires Ordered(a, w)
    ensures Ordered(b, w)
  {
  }

  lemma OrderedDrop(tasks: map<nat, Task>, w: seq<nat>, i: nat)
    requires i < |w| && (forall t :: t in w ==> t in tasks) && Ordered(tasks, w)
    ensures (forall t :: t in w[..i] + w[i + 1..] ==> t in tasks) && Ordered(tasks, w[..i] + w[i + 1..])
  {
  }

  lemma WakeupFlags(y: State, s: nat)
    requires Lists(y) && Running(y) && s in y.sems && forall t :: t in y.tasks ==> Flags(y.tasks[t])
    ensures Running(Wakeup(y, s)) && forall t :: t in Wakeup(y, s).tasks ==> Flags(Wakeup(y, s).tasks[t])
  {
    var z := Wakeup(y, s);
    WakeupSems(y, s);
    forall t | t in z.tasks
      ensures Flags(z.tasks[t])
      ensures y.current == Some(t) ==> z.tasks[t] == y.tasks[t]
    {
      WakeupTasks(y, s, t);
    }
  }

  /** If nothing can be woken, all waiters end up blocked and marked. */
  lemma WakesAtZero(y: State, s: nat)
    requires Lists(y) && NoLostWakeup(y) && s in y.sems
    ensures CanWake(y, s) ==> y.sems[s].ctr == 0
  {
    var w, i := y.sems[s].waiters, FirstActive(y.tasks, y.sems[s].waiters);
    assert i < |w| ==> w[i] in w && !y.tasks[w[i]].blocked;
  }

  lemma WakeupMarks(y: State, s: nat)
    requires Lists(y) && NoLostWakeup(y) && s in y.sems && Lists(Wakeup(y, s))
    ensures NoLostWakeup(Wakeup(y, s))
  {
    var z := Wakeup(y, s);
    forall r, t | r in z.sems && z.sems[r].ctr > 0 && t in z.sems[r].waiters
      ensures z.tasks[t].blocked && z.tasks[t].check == Some(r)
    {
      WakeupMarksOne(y, s, r, t);
    }
  }

  /** When nobody can be woken, every waiter is blocked and marked. */
  lemma WakeupMarksAll(y: State, s: nat)
    requires Lists(y) && NoLostWakeup(y) && s in y.sems && Lists(Wakeup(y, s)) && !CanWake(y, s)
    ensures var z := Wakeup(y, s);
            s in z.sems && forall t :: t in z.sems[s].waiters ==> z.tasks[t].blocked && z.tasks[t].check == Some(s)
  {
    var z := Wakeup(y, s);
    forall t | t in z.sems[s].waiters ensures z.tasks[t].blocked && z.tasks[t].check == Some(s) {
      WakeupMarksOne(y, s, s, t);
    }
  }

  lemma WakeupMarksOne(y: State, s: nat, r: nat, t: nat)
    requires Lists(y) && NoLostWakeup(y) && s in y.sems
    requires r in Wakeup(y, s).sems && t in Wakeup(y, s).sems[r].waiters
    ensures t in Wakeup(y, s).tasks
    ensures var z, w, i := Wakeup(y, s), y.sems[s].waiters, FirstActive(y.tasks, y.sems[s].waiters);
            && (r == s && i == |w| ==> z.tasks[t].blocked && z.tasks[t].check == Some(s))
            && (z.sems[r].ctr > 0 ==> z.tasks[t].blocked && z.tasks[t].check == Some(r))
  {
    WakeupSems(y, s);
    assert t in y.sems[r].waiters && y.tasks[t].waiting == Some(r);
    WakeupTasks(y, s, t);
    var w := y.sems[s].waiters;
    assert w[..|w|] == w;
  }

  lemma PostGood(y: State, s: nat)
    requires Inv(y) && s in y.sems
    ensures Inv(Post(y, s))
  {
    var z, u := Wakeup(y, s), Post(y, s);
    WakeupSems(y, s);
    WakeupLists(y, s);
    WakeupOrder(y, s);
    WakeupFlags(y, s);
    WakeupMarks(y, s);
    WakesAtZero(y, s);
    if !CanWake(y, s) {
      WakeupMarksAll(y, s);
    }
    SameButCounters(z, u, s);
  }

  /** Changing the counters of one semaphore. */
  lemma SameButCounters(z: State, u: State, s: nat)
    requires Lists(z) && Running(z) && Queues(z) && NoLostWakeup(z) && s in z.sems
    requires forall t :: t in z.tasks ==> Flags(z.tasks[t])
    requires u == z.(sems := u.sems) && u.sems.Keys == z.sems.Keys && u.sems[s].waiters == z.sems[s].waiters
    requires forall r :: r in z.sems && r != s ==> u.sems[r] == z.sems[r]
    requires u.sems[s].ctr > 0 ==> forall t :: t in z.sems[s].waiters ==> z.tasks[t].blocked && z.tasks[t].check == Some(s)
    ensures Inv(u)
  {
  }

  lemma TryWaitGood(y: State, s: nat)
    requires Inv(y) && s in y.sems
    ensures Inv(TryWait(y, s))
  {
    if y.sems[s].ctr > 0 {
      SameButCounters(y, TryWait(y, s), s);
    }
  }

  // ------------------------------------------------------------ one task changes

  /** Task `t` changes in a way that no waiter list depends on. */
  lemma TaskChanged(y: State, z: State, t: nat, k: Task)
    requires Inv(y) && t in y.tasks && z == y.(tasks := y.tasks[t := k], current := z.current, now := z.now)
    requires Flags(k) && k.waiting == y.tasks[t].waiting && k.priority == y.tasks[t].priority && k.since == y.tasks[t].since
    requires (k.blocked == y.tasks[t].blocked && k.check == y.tasks[t].check) || (k.waiting.Some? ==> y.sems[k.waiting.value].ctr == 0)
    requires Running(z) && (z.current.Some? ==> z.current.value in z.tasks)
    ensures Inv(z)
  {
    assert Lists(z);
    forall s | s in z.sems ensures Ordered(z.tasks, z.sems[s].waiters) {
      OrderedSame(y.tasks, z.tasks, y.sems[s].waiters);
    }
    forall s, u | s in z.sems && z.sems[s].ctr > 0 && u in z.sems[s].waiters
      ensures z.tasks[u].blocked && z.tasks[u].check == Some(s)
    {
      assert y.tasks[u].waiting == Some(s);
    }
  }

  lemma BlockGood(y: State, t: nat)
    requires Inv(y) && t in y.tasks && !y.tasks[t].blocked
    ensures Inv(y.(tasks := y.tasks[t := Block(y.tasks[t])]))
  {
    var k := y.tasks[t];
    assert k.waiting.Some? ==> y.sems[k.waiting.value].ctr == 0;
    TaskChanged(y, y.(tasks := y.tasks[t := Block(k)]), t, Block(k));
  }

  /** Task `t`, at position `i`, leaves the list of semaphore `s`. */
  lemma LeaveGood(y: State, z: State, t: nat, k: Task, s: nat, m: Sem, i: nat)
    requires Inv(y) && t in y.tasks && s in y.sems && i < |y.sems[s].waiters| && y.sems[s].waiters[i] == t
    requires z.tasks == y.tasks[t := k] && z.sems == y.sems[s := m] && z.stamps == y.stamps
    requires m.waiters == y.sems[s].waiters[..i] + y.sems[s].waiters[i + 1..] && m.ctr <= y.sems[s].ctr
    requires k.waiting.None? && Flags(k) && Running(z) && (z.current.Some? ==> z.current.value in z.tasks)
    ensures Inv(z)
  {
    OrderedDrop(y.tasks, y.sems[s].waiters, i);
    DistinctDrop(y.sems[s].waiters, i);
    ListsAfter(y, z, s, Some(t));
    LeaveQueues(y, z, t, s);
    LeaveMarks(y, z, t);
  }

  lemma LeaveQueues(y: State, z: State, t: nat, s: nat)
    requires Lists(y) && Queues(y) && t in y.tasks && s in y.sems && Lists(z) && z.stamps == y.stamps
    requires z.tasks.Keys == y.tasks.Keys && forall u :: u in y.tasks && u != t ==> z.tasks[u] == y.tasks[u]
    requires z.sems.Keys == y.sems.Keys && Ordered(y.tasks, z.sems[s].waiters)
    requires forall r :: r in y.sems && r != s ==> z.sems[r] == y.sems[r]
    requires z.tasks[t].waiting.None?
    ensures Queues(z)
  {
    forall r | r in z.sems ensures Ordered(z.tasks, z.sems[r].waiters) {
      forall u | u in z.sems[r].waiters ensures u in y.tasks && z.tasks[u] == y.tasks[u] {
        assert z.tasks[u].waiting == Some(r);
      }
      OrderedSame(y.tasks, z.tasks, z.sems[r].waiters);
    }
  }

  lemma LeaveMarks(y: State, z: State, t: nat)
    requires Lists(y) && NoLostWakeup(y) && t in y.tasks && Lists(z) && z.sems.Keys == y.sems.Keys
    requires z.tasks.Keys == y.tasks.Keys && forall u :: u in y.tasks && u != t ==> z.tasks[u] == y.tasks[u]
    requires forall r :: r in y.sems && z.sems[r].ctr > 0 ==> y.sems[r].ctr > 0
    requires z.tasks[t].waiting.None?
    ensures NoLostWakeup(z)
  {
    forall r, u | r in z.sems && z.sems[r].ctr > 0 && u in z.sems[r].waiters
      ensures z.tasks[u].blocked && z.tasks[u].check == Some(r)
    {
      assert z.tasks[u].waiting == Some(r);
      assert y.tasks[u].waiting == Some(r);
      assert u in y.sems[r].waiters && y.sems[r].ctr > 0;
    }
  }

  lemma DistinctDrop(w: seq<nat>, i: nat)
    requires Distinct(w) && i < |w|
    ensures Distinct(w[..i] + w[i + 1..])
    ensures forall x :: x in w[..i] + w[i + 1..] <==> x in w && x != w[i]
  {
    assert w == w[..i] + [w[i]] + w[i + 1..];
  }

  lemma {:induction false} RemoveAt(w: seq<nat>, i: nat)
    requires Distinct(w) && i < |w|
    ensures Remove(w, w[i]) == w[..i] + w[i + 1..]
  {
    var t := w[i];
    if i == 0 {
      RemoveAbsent(w[1..], t);
    } else {
      assert w[1..][i - 1] == t && w[1..][..i - 1] == w[1..i] && w[1..][i..] == w[i + 1..];
      RemoveAt(w[1..], i - 1);
    }
  }

  lemma {:induction false} RemoveAbsent(w: seq<nat>, t: nat)
    requires t !in w
    ensures Remove(w, t) == w
  {
    if w != [] { RemoveAbsent(w[1..], t); }
  }

  lemma ResumeGood(y: State, t: nat, now: Time)
    requires Inv(y) && t in y.tasks && y.tasks[t].listed && y.current.None?
    ensures Resume(y, t, now).Ok? && Inv(Resume(y, t, now).s)
  {
    var k := y.tasks[t];
    var z := Resume(y, t, now).s;
    if k.waiting.None? {
      TaskChanged(y, z, t, z.tasks[t]);
    } else {
      var s := k.waiting.value;
      var i :| 0 <= i < |y.sems[s].waiters| && y.sems[s].waiters[i] == t;
      RemoveAt(y.sems[s].waiters, i);
      LeaveGood(y, z, t, z.tasks[t], s, z.sems[s], i);
    }
  }

  // ------------------------------------------------------------ waiting

  /** Inserting at `Place` keeps the list sorted by priority, then by arrival. */
  lemma PlaceKeeps(a: map<nat, Task>, w: seq<nat>, c: nat, k: Task)
    requires (forall t :: t in w ==> t in a && a[t].since < k.since) && Ordered(a, w) && Distinct(w) && c !in w
    ensures var i := Place(a, w, k.priority);
            Ordered(a[c := k], w[..i] + [c] + w[i..]) && Distinct(w[..i] + [c] + w[i..])
  {
    var i := Place(a, w, k.priority);
    DistinctWith(w, c, i);
    forall j | i <= j < |w| ensures a[w[j]].priority < k.priority {
      assert j > i ==> Ahead(a[w[i]], a[w[j]]);
    }
    var b, v := a[c := k], w[..i] + [c] + w[i..];
    forall x, y | 0 <= x < y < |v| ensures Ahead(b[v[x]], b[v[y]]) {
      assert x != i ==> v[x] == w[if x < i then x else x - 1];
      assert y != i ==> v[y] == w[if y < i then y else y - 1];
    }
  }

  lemma DistinctWith(w: seq<nat>, c: nat, i: nat)
    requires Distinct(w) && c !in w && i <= |w|
    ensures Distinct(w[..i] + [c] + w[i..])
  {
  }

  lemma JoinLists(y: State, z: State, c: nat, s: nat, i: nat)
    requires Lists(y) && s in y.sems && c in y.tasks && y.tasks[c].waiting.None? && i <= |y.sems[s].waiters|
    requires z.current.None? && c in z.tasks && z.tasks == y.tasks[c := z.tasks[c]] && z.tasks[c].waiting == Some(s)
    requires z.sems.Keys == y.sems.Keys && z.sems[s].waiters == y.sems[s].waiters[..i] + [c] + y.sems[s].waiters[i..]
    requires forall r :: r in y.sems && r != s ==> z.sems[r] == y.sems[r]
    requires Distinct(z.sems[s].waiters)
    ensures Lists(z)
  {
    var w := y.sems[s].waiters;
    assert forall u :: u in z.sems[s].waiters <==> u in w || u == c by {
      assert w == w[..i] + w[i..];
    }
  }

  lemma WaitGood(y: State, c: nat, s: nat, timeout: Option<Time>)
    requires Inv(y) && s in y.sems && y.current == Some(c)
    ensures Inv(TimedWait(y, c, s, timeout))
  {
    if y.sems[s].ctr > 0 {
      TryWaitGood(y, s);
    } else {
      var k := TimedWait(y, c, s, timeout).tasks[c];
      JoinGood(y, TimedWait(y, c, s, timeout), c, k, s, Place(y.tasks, y.sems[s].waiters, k.priority));
    }
  }

  lemma JoinGood(y: State, z: State, c: nat, k: Task, s: nat, i: nat)
    requires Inv(y) && s in y.sems && y.current == Some(c) && y.sems[s].ctr == 0
    requires z.tasks == y.tasks[c := k] && Flags(k) && k.waiting == Some(s) && k.since == y.stamps
    requires i == Place(y.tasks, y.sems[s].waiters, k.priority)
    requires z.sems == y.sems[s := y.sems[s].(waiters := y.sems[s].waiters[..i] + [c] + y.sems[s].waiters[i..])]
    requires z.current.None? && z.stamps == y.stamps + 1
    ensures Inv(z)
  {
    var w := y.sems[s].waiters;
    assert c !in w;
    PlaceKeeps(y.tasks, w, c, k);
    JoinLists(y, z, c, s, i);
    JoinQueues(y, z, c, s);
  }

  lemma JoinQueues(y: State, z: State, c: nat, s: nat)
    requires Lists(y) && Queues(y) && NoLostWakeup(y) && Lists(z) && s in y.sems && c in y.tasks && y.tasks[c].waiting.None?
    requires c in z.tasks && z.tasks == y.tasks[c := z.tasks[c]] && z.stamps == y.stamps + 1 && z.tasks[c].since == y.stamps
    requires z.sems.Keys == y.sems.Keys && Ordered(z.tasks, z.sems[s].waiters) && z.sems[s].ctr == 0
    requires forall r :: r in y.sems && r != s ==> z.sems[r] == y.sems[r]
    ensures Queues(z) && NoLostWakeup(z)
  {
    forall r | r in z.sems && r != s
      ensures Ordered(z.tasks, z.sems[r].waiters)
      ensures forall t :: t in z.sems[r].waiters ==> z.tasks[t] == y.tasks[t]
    {
      NotJoined(y, z.tasks, c, r);
    }
  }

  /** A list that the task does not join keeps its order. */
  lemma NotJoined(y: State, tasks: map<nat, Task>, c: nat, r: nat)
    requires Lists(y) && r in y.sems && Ordered(y.tasks, y.sems[r].waiters)
    requires c in y.tasks && y.tasks[c].waiting.None? && c in tasks && tasks == y.tasks[c := tasks[c]]
    ensures Ordered(tasks, y.sems[r].waiters)
    ensures forall t :: t in y.sems[r].waiters ==> tasks[t] == y.tasks[t]
  {
    assert c !in y.sems[r].waiters;
    OrderedSame(y.tasks, tasks, y.sems[r].waiters);
  }

  // ------------------------------------------------------------ unblocking

  /** The first active waiter is the only one. */
  lemma OnlyActive(tasks: map<nat, Task>, w: seq<nat>, i: nat)
    requires (forall t :: t in w ==> t in tasks) && i < |w|
    requires forall k :: 0 <= k < |w| ==> (tasks[w[k]].blocked <==> k != i)
    ensures FirstActive(tasks, w) == i
  {
    var j := FirstActive(tasks, w);
    assert j < |w| ==> !tasks[w[j]].blocked;
    assert !tasks[w[i]].blocked;
  }

  /** What serving the waiter at position `i` does to its task and to its semaphore. */
  function ServedTask(k: Task, now: Time): Task {
    k.(blocked := false, pending := false, listed := true, start := now, woken := true, waiting := None, check := None)
  }

  function ServedSem(m: Sem, i: nat): Sem
    requires i < |m.waiters| && m.ctr > 0
  {
    m.(ctr := m.ctr - 1, waiters := m.waiters[..i] + m.waiters[i + 1..])
  }

  ghost predicate MarkedAt(y: State, t: nat, s: nat, i: nat) {
    && t in y.tasks && s in y.sems && i < |y.sems[s].waiters| && y.sems[s].waiters[i] == t
    && y.tasks[t].check == Some(s) && y.sems[s].ctr > 0
  }

  /** Unblocking a marked waiter of a positive semaphore wakes exactly that task. */
  lemma UnblockWakesExactly(y: State, t: nat, s: nat, i: nat)
    requires Inv(y) && MarkedAt(y, t, s, i)
    ensures Unblock(y, t) == Ok(y.(tasks := y.tasks[t := ServedTask(y.tasks[t], y.now)],
                                   sems := y.sems[s := ServedSem(y.sems[s], i)]))
  {
    var w := y.sems[s].waiters;
    var z := y.(tasks := y.tasks[t := UnblockJob(y.tasks[t], y.now)]);
    var u := z.(sems := z.sems[s := z.sems[s].(ctr := z.sems[s].ctr - 1)]);
    forall k | 0 <= k < |w| ensures u.tasks[w[k]].blocked <==> k != i { assert w[k] in w; }
    OnlyActive(u.tasks, w, i);
    WakeupOnly(y, u, t, s, i);
  }

  lemma MarkedAlready(tasks: map<nat, Task>, ids: seq<nat>, s: nat)
    requires forall x :: x in ids ==> x in tasks && tasks[x].check == Some(s)
    ensures Mark(tasks, ids, s) == tasks
  {
  }

  lemma ServedOne(k: Task, now: Time)
    ensures AddJob(UnblockJob(k, now).(listed := false), now).(woken := true, waiting := None, check := None) ==
              ServedTask(k, now).(pending := UnblockJob(k, now).pending)
    ensures (k.pending ==> k.blocked) ==> !UnblockJob(k, now).pending
  {
  }

  /** Every other waiter is marked already. */
  lemma WakeupOnly(y: State, u: State, t: nat, s: nat, i: nat)
    requires Inv(y) && MarkedAt(y, t, s, i)
    requires u == y.(tasks := y.tasks[t := UnblockJob(y.tasks[t], y.now)],
                     sems := y.sems[s := y.sems[s].(ctr := y.sems[s].ctr - 1)])
    requires FirstActive(u.tasks, y.sems[s].waiters) == i
    ensures var v := Wakeup(u, s);
            && t in v.tasks
            && v.(tasks := v.tasks[t := v.tasks[t].(check := None)]) ==
               y.(tasks := y.tasks[t := ServedTask(y.tasks[t], y.now)], sems := y.sems[s := ServedSem(y.sems[s], i)])
  {
    var w := y.sems[s].waiters;
    forall x | x in w[..i] ensures x in u.tasks && u.tasks[x].check == Some(s) {
      assert x in w && x != t;
    }
    MarkedAlready(u.tasks, w[..i], s);
    ServedOne(y.tasks[t], y.now);
    SetTwice(y.tasks, t, UnblockJob(y.tasks[t], y.now), Wakeup(u, s).tasks[t], ServedTask(y.tasks[t], y.now));
  }

  lemma SetTwice(a: map<nat, Task>, t: nat, k: Task, l: Task, m: Task)
    ensures a[t := k][t := l][t := m] == a[t := m]
  {
  }

  lemma UnblockGood(y: State, t: nat)
    requires Inv(y) && t in y.tasks && y.tasks[t].blocked
    ensures Unblock(y, t).Ok? && Inv(Unblock(y, t).s)
  {
    var k := y.tasks[t];
    if k.check.None? || y.sems[k.check.value].ctr == 0 {
      var z := Unblock(y, t).s;
      TaskChanged(y, z, t, z.tasks[t]);
    } else {
      var s := k.check.value;
      var i :| 0 <= i < |y.sems[s].waiters| && y.sems[s].waiters[i] == t;
      UnblockWakesExactly(y, t, s, i);
      LeaveGood(y, Unblock(y, t).s, t, ServedTask(k, y.now), s, ServedSem(y.sems[s], i), i);
    }
  }

  // ------------------------------------------------------------ runs

  /** A post serves the unblocked waiter of highest priority, and among those the one that
      waited longest; it touches no other task except for marking blocked ones. */
  lemma PostServesBest(y: State, s: nat)
    requires Inv(y) && s in y.sems && CanWake(y, s)
    ensures var w, i, z := y.sems[s].waiters, FirstActive(y.tasks, y.sems[s].waiters), Post(y, s);
            && z.sems[s].ctr == y.sems[s].ctr == 0 && z.tasks.Keys == y.tasks.Keys
            && z.tasks[w[i]].woken && z.tasks[w[i]].listed && z.tasks[w[i]].start == y.now && w[i] !in z.sems[s].waiters
            && (forall u :: u in w && u != w[i] && !y.tasks[u].blocked ==> Ahead(y.tasks[w[i]], y.tasks[u]))
            && (forall u :: u in y.tasks && u != w[i] ==> z.tasks[u].(check := y.tasks[u].check) == y.tasks[u])
  {
    var w, i, z := y.sems[s].waiters, FirstActive(y.tasks, y.sems[s].waiters), Wakeup(y, s);
    WakeupSems(y, s);
    WakeupLists(y, s);
    WakeupMarks(y, s);
    assert w[i] in w;
    WakeupTasks(y, s, w[i]);
    forall u | u in y.tasks && u != w[i] ensures z.tasks[u].(check := y.tasks[u].check) == y.tasks[u] {
      WakeupTasks(y, s, u);
    }
    forall u | u in w && u != w[i] && !y.tasks[u].blocked ensures Ahead(y.tasks[w[i]], y.tasks[u]) {
      var j :| 0 <= j < |w| && w[j] == u;
      assert j > i;
    }
  }

  datatype Event =
    | Posts(sem: nat) | TriesWait(sem: nat) | Waits(sem: nat, timeout: Option<Time>)
    | Resumes(task: nat, at: Time) | Schedules(task: nat) | Sleeps(delay: Time) | Suspends
    | Blocks(task: nat) | Unblocks(task: nat) | Creates(task: nat, priority: nat) | Ends(task: nat) | EndsSelf

  /** What the callers have to respect. Only the scheduler resumes a task, and only one
      whose job is listed; a waiting task is not scheduled by hand (src/task.c:332-338). */
  ghost predicate Allowed(y: State, e: Event) {
    match e
    case Posts(s) => s in y.sems
    case TriesWait(s) => s in y.sems
    case Waits(s, _) => s in y.sems && y.current.Some?
    case Resumes(t, _) => t in y.tasks && y.tasks[t].listed && y.current.None?
    case Schedules(t) => t in y.tasks && !y.tasks[t].listed && y.tasks[t].waiting.None? && y.current != Some(t)
    case Sleeps(_) => y.current.Some?
    case Suspends => y.current.Some?
    case Blocks(t) => t in y.tasks && !y.tasks[t].blocked
    case Unblocks(t) => t in y.tasks && y.tasks[t].blocked
    case Creates(t, _) => t !in y.tasks
    case Ends(t) => t in y.tasks && !y.tasks[t].listed && y.current != Some(t)
    case EndsSelf => y.current.Some?
  }

  ghost function Leave(y: State, t: nat): State
    requires t in y.tasks
  {
    var k := y.tasks[t];
    if k.waiting.None? || k.waiting.value !in y.sems then y
    else
      var m := y.sems[k.waiting.value];
      y.(tasks := y.tasks[t := k.(waiting := None, check := None)],
         sems := y.sems[k.waiting.value := m.(waiters := Remove(m.waiters, t))])
  }

  /** One event; it fails if an assertion of the code does, or if a list holds a task that
      does not exist. */
  ghost function Step(y: State, e: Event): Outcome<State>
    requires Allowed(y, e)
  {
    if !Known(y) then Aborted
    else match e
    case Posts(s) => Ok(Post(y, s))
    case TriesWait(s) => Ok(TryWait(y, s))
    case Waits(s, timeout) =>
      if y.tasks[y.current.value].woken then Aborted else Ok(TimedWait(y, y.current.value, s, timeout))
    case Resumes(t, at) => Resume(y, t, at)
    case Schedules(t) => Ok(y.(tasks := y.tasks[t := AddJob(y.tasks[t], y.now)]))
    case Sleeps(delay) =>
      var c := y.current.value;
      if y.tasks[c].listed then Aborted
      else Ok(y.(tasks := y.tasks[c := AddJob(y.tasks[c], Wrap(y.now + delay))], current := None))
    case Suspends => Ok(y.(current := None))
    case Blocks(t) => if y.tasks[t].pending then Aborted else Ok(y.(tasks := y.tasks[t := Block(y.tasks[t])]))
    case Unblocks(t) => Unblock(y, t)
    case Creates(t, p) => Ok(y.(tasks := y.tasks[t := Task(p, false, 0, false, false, None, None, false, false, 0)]))
    case Ends(t) => var z := Leave(y, t); Ok(z.(tasks := z.tasks - {t}))
    case EndsSelf =>
      var c := y.current.value;
      if y.tasks[c].listed || y.tasks[c].waiting.Some? then Aborted
      else Ok(y.(tasks := y.tasks - {c}, current := None))
  }

  lemma LeaveKeepsInv(y: State, t: nat)
    requires Inv(y) && t in y.tasks && !y.tasks[t].listed
    ensures Inv(Leave(y, t)) && t in Leave(y, t).tasks && Leave(y, t).tasks[t].waiting.None?
  {
    if y.tasks[t].waiting.Some? {
      var i := WaitsAt(y, t);
      LeavesAt(y, t, i);
    }
  }

  lemma WaitsAt(y: State, t: nat) returns (i: nat)
    requires Lists(y) && t in y.tasks && y.tasks[t].waiting.Some?
    ensures y.tasks[t].waiting.value in y.sems
    ensures i < |y.sems[y.tasks[t].waiting.value].waiters| && y.sems[y.tasks[t].waiting.value].waiters[i] == t
  {
    i :| i < |y.sems[y.tasks[t].waiting.value].waiters| && y.sems[y.tasks[t].waiting.value].waiters[i] == t;
  }

  lemma LeavesAt(y: State, t: nat, i: nat)
    requires Inv(y) && t in y.tasks && !y.tasks[t].listed && y.tasks[t].waiting.Some? && y.tasks[t].waiting.value in y.sems
    requires i < |y.sems[y.tasks[t].waiting.value].waiters| && y.sems[y.tasks[t].waiting.value].waiters[i] == t
    ensures Inv(Leave(y, t)) && t in Leave(y, t).tasks && Leave(y, t).tasks[t].waiting.None?
  {
    var s, z := y.tasks[t].waiting.value, Leave(y, t);
    RemoveAt(y.sems[s].waiters, i);
    LeaveGood(y, z, t, z.tasks[t], s, z.sems[s], i);
  }

  /** Adding or removing a task that is on no list. */
  lemma OtherTask(y: State, z: State, t: nat)
    requires Inv(y) && z == y.(tasks := z.tasks) && y.current != Some(t)
    requires z.tasks.Keys + {t} == y.tasks.Keys + {t} && forall u :: u in y.tasks && u != t ==> z.tasks[u] == y.tasks[u]
    requires (t in y.tasks ==> y.tasks[t].waiting.None?) && (t in z.tasks ==> z.tasks[t].waiting.None? && Flags(z.tasks[t]))
    ensures Inv(z)
  {
    OtherLists(y, z, t);
    OtherQueues(y, z);
  }

  lemma OtherLists(y: State, z: State, t: nat)
    requires Lists(y) && z == y.(tasks := z.tasks) && y.current != Some(t)
    requires z.tasks.Keys + {t} == y.tasks.Keys + {t} && forall u :: u in y.tasks && u != t ==> z.tasks[u] == y.tasks[u]
    requires (t in y.tasks ==> y.tasks[t].waiting.None?) && (t in z.tasks ==> z.tasks[t].waiting.None?)
    ensures Lists(z) && SameWaiters(y, z) && forall u :: u in z.tasks && u != t ==> u in y.tasks
  {
    forall u | u != t ensures u in z.tasks <==> u in y.tasks {
      assert u in z.tasks.Keys + {t} <==> u in y.tasks.Keys + {t};
    }
    forall s, u | s in z.sems && u in z.sems[s].waiters ensures u in z.tasks && z.tasks[u] == y.tasks[u] {
      assert y.tasks[u].waiting == Some(s);
    }
  }

  ghost predicate SameWaiters(y: State, z: State) {
    forall s, u :: s in z.sems && u in z.sems[s].waiters ==> u in y.tasks && u in z.tasks && z.tasks[u] == y.tasks[u]
  }

  lemma OtherQueues(y: State, z: State)
    requires Lists(y) && NoLostWakeup(y) && Queues(y) && Lists(z) && z == y.(tasks := z.tasks) && SameWaiters(y, z)
    ensures NoLostWakeup(z) && Queues(z)
  {
    forall s | s in z.sems ensures Ordered(z.tasks, z.sems[s].waiters) {
      OrderedSame(y.tasks, z.tasks, y.sems[s].waiters);
    }
  }

  lemma EndsGood(y: State, t: nat)
    requires Inv(y) && Allowed(y, Ends(t))
    ensures Step(y, Ends(t)).Ok? && Inv(Step(y, Ends(t)).s)
  {
    LeaveKeepsInv(y, t);
    OtherTask(Leave(y, t), Step(y, Ends(t)).s, t);
  }

  lemma EndsSelfGood(y: State)
    requires Inv(y) && Allowed(y, EndsSelf)
    ensures Step(y, EndsSelf).Ok? && Inv(Step(y, EndsSelf).s)
  {
    var c := y.current.value;
    TaskChanged(y, y.(current := None), c, y.tasks[c]);
    OtherTask(y.(current := None), Step(y, EndsSelf).s, c);
  }

  lemma StepGood(y: State, e: Event)
    requires Inv(y) && Allowed(y, e)
    ensures Step(y, e).Ok? && Inv(Step(y, e).s)
  {
    match e
    case Posts(s) => PostGood(y, s);
    case TriesWait(s) => TryWaitGood(y, s);
    case Waits(s, timeout) => WaitGood(y, y.current.value, s, timeout);
    case Resumes(t, at) => ResumeGood(y, t, at);
    case Schedules(t) => TaskChanged(y, Step(y, e).s, t, Step(y, e).s.tasks[t]);
    case Sleeps(_) => TaskChanged(y, Step(y, e).s, y.current.value, Step(y, e).s.tasks[y.current.value]);
    case Suspends => TaskChanged(y, y.(current := None), y.current.value, y.tasks[y.current.value]);
    case Blocks(t) => BlockGood(y, t);
    case Unblocks(t) => UnblockGood(y, t);
    case Creates(t, _) => OtherTask(y, Step(y, e).s, t);
    case Ends(t) => EndsGood(y, t);
    case EndsSelf => EndsSelfGood(y);
  }

  /** Each event of `trace` is allowed when it happens. */
  ghost predicate Legal(y: State, trace: seq<Event>)
    decreases trace
  {
    trace == [] ||
    (Allowed(y, trace[0]) && (Step(y, trace[0]).Ok? ==> Legal(Step(y, trace[0]).s, trace[1..])))
  }

  ghost function Run(y: State, trace: seq<Event>): Outcome<State>
    requires Legal(y, trace)
    decreases trace
  {
    if trace == [] then Ok(y)
    else match Step(y, trace[0]) {
      case Aborted => Aborted
      case Ok(z) => Run(z, trace[1..])
    }
  }

  ghost predicate Initial(y: State) {
    && y.current.Some? && y.current.value in y.tasks
    && (forall s :: s in y.sems ==> y.sems[s].waiters == [])
    && (forall t :: t in y.tasks ==> var k := y.tasks[t];
          !k.listed && !k.blocked && !k.pending && !k.woken && k.waiting.None? && k.check.None?)
  }

  /** In every run no assertion fails, and a positive counter has only blocked, marked waiters. */
  lemma {:induction false} RunSafe(y: State, trace: seq<Event>)
    requires Inv(y) && Legal(y, trace)
    ensures Run(y, trace).Ok? && Inv(Run(y, trace).s)
    decreases trace
  {
    if trace != [] {
      StepGood(y, trace[0]);
      RunSafe(Step(y, trace[0]).s, trace[1..]);
    }
  }

  lemma InitialInv(y: State)
    requires Initial(y)
    ensures Inv(y)
  {
  }
}
