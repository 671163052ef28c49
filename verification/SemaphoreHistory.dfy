/** What each event does to tasks and semaphores, and the balance of posts and successful waits
    counted from the events of a run. */
module SemaphoreHistory {
  import opened Wrappers
  import opened CyclicTime
  import opened Semaphore

  /** Only semaphore `s` may differ. */
  ghost predicate OnlySem(y: State, z: State, s: nat) {
    && s in y.sems && z.sems.Keys == y.sems.Keys && forall r :: r in y.sems && r != s ==> z.sems[r] == y.sems[r]
  }

  /** Only task `t` may differ, and others in the mark `check`. */
  ghost predicate OnlyTask(y: State, z: State, t: nat) {
    && t in y.tasks && z.tasks.Keys == y.tasks.Keys
    && forall u :: u in y.tasks && u != t ==> z.tasks[u].(check := y.tasks[u].check) == y.tasks[u]
  }

  ghost predicate JustTask(y: State, z: State, t: nat) {
    t in y.tasks && z.tasks.Keys == y.tasks.Keys && forall u :: u in y.tasks && u != t ==> z.tasks[u] == y.tasks[u]
  }

  ghost predicate SameClock(y: State, z: State) { z.now == y.now && z.current == y.current }

  /** The waiter to serve: not blocked, of highest priority, waiting longest among equals. */
  ghost predicate IsBest(y: State, s: nat, t: nat)
    requires Known(y) && s in y.sems
  {
    && t in y.sems[s].waiters && !y.tasks[t].blocked
    && forall u :: u in y.sems[s].waiters && u != t && !y.tasks[u].blocked ==> Ahead(y.tasks[t], y.tasks[u])
  }

  /** Task `t` is taken off the list of `s` and scheduled now, woken. */
  ghost predicate Serves(y: State, z: State, s: nat, t: nat) {
    && OnlyTask(y, z, t) && OnlySem(y, z, s) && z.sems[s].waiters == Remove(y.sems[s].waiters, t)
    && y.tasks[t].waiting == Some(s) && z.tasks[t] == ServedTask(y.tasks[t], y.now)
  }

  /** A job is put on the list for time `at`, or remembered if it is blocked. */
  ghost predicate Queued(k: Task, l: Task, at: Time) {
    l == if k.blocked then k.(start := 0, pending := true) else k.(start := at, listed := true)
  }

  /** `w` with `c` somewhere in it. */
  ghost predicate Joins(w: seq<nat>, v: seq<nat>, c: nat) { c in v && Remove(v, c) == w }

  /** One is taken from the counter of `s`, and nothing else happens. */
  ghost predicate Takes(y: State, z: State, s: nat) {
    && OnlySem(y, z, s) && y.sems[s].ctr > 0 && z.sems[s].ctr == y.sems[s].ctr - 1 && z.sems[s].waiters == y.sems[s].waiters
    && z.tasks == y.tasks && SameClock(y, z)
  }

  /** Task `c` suspends in a wait: it is on the list, and its job is due when the time is out. */
  ghost predicate Suspended(y: State, z: State, c: nat, s: nat, timeout: Option<Time>) {
    && SuspendedTask(y, z, c, s, timeout)
    && OnlySem(y, z, s) && y.sems[s].ctr == z.sems[s].ctr == 0 && z.now == y.now && z.current.None?
    && c !in y.sems[s].waiters && Joins(y.sems[s].waiters, z.sems[s].waiters, c)
  }

  ghost predicate SuspendedTask(y: State, z: State, c: nat, s: nat, timeout: Option<Time>) {
    && JustTask(y, z, c)
    && var k, l := y.tasks[c], z.tasks[c];
       && l.waiting == Some(s) && l.forever == timeout.None? && l.check == k.check && l.woken == k.woken
       && var job := l.(waiting := k.waiting, forever := k.forever, since := k.since);
          if timeout.Some? then Queued(k, job, Wrap(y.now + timeout.value)) else job == k
  }

  /** What event `e` does. */
  ghost predicate Does(y: State, e: Event, z: State)
    requires Known(y) && Allowed(y, e)
  {
    match e
    case Posts(s) =>
      && SameClock(y, z)
      && if exists t :: IsBest(y, s, t) then exists t :: IsBest(y, s, t) && Serves(y, z, s, t) && z.sems[s].ctr == y.sems[s].ctr
         else Counts(y, z, s)
    case TriesWait(s) => if y.sems[s].ctr > 0 then Takes(y, z, s) else z == y
    case Waits(s, timeout) => if y.sems[s].ctr > 0 then Takes(y, z, s) else Suspended(y, z, y.current.value, s, timeout)
    case Resumes(t, at) =>
      && JustTask(y, z, t) && z.now == at && z.current == Some(t)
      && z.tasks[t] == y.tasks[t].(listed := false, woken := false, waiting := None)
      && if y.tasks[t].waiting.Some? then LeavesList(y, z, t) else z.sems == y.sems
    case Schedules(t) => SameClock(y, z) && z.sems == y.sems && JustTask(y, z, t) && Queued(y.tasks[t], z.tasks[t], y.now)
    case Sleeps(delay) =>
      var c := y.current.value;
      z.now == y.now && z.current.None? && z.sems == y.sems && JustTask(y, z, c) && Queued(y.tasks[c], z.tasks[c], Wrap(y.now + delay))
    case Suspends => z.now == y.now && z.current.None? && z.sems == y.sems && z.tasks == y.tasks
    case Blocks(t) =>
      && SameClock(y, z) && z.sems == y.sems && JustTask(y, z, t)
      && z.tasks[t] == y.tasks[t].(blocked := true, listed := false, pending := y.tasks[t].listed)
    case Unblocks(t) =>
      && SameClock(y, z)
      && if y.tasks[t].check.Some? && y.tasks[t].check.value in y.sems && y.sems[y.tasks[t].check.value].ctr > 0 then
           Serves(y, z, y.tasks[t].check.value, t) && z.sems[y.tasks[t].check.value].ctr == y.sems[y.tasks[t].check.value].ctr - 1
         else Unblocked(y, z, t)
    case Creates(t, priority) =>
      && SameClock(y, z) && z.sems == y.sems && z.tasks.Keys == y.tasks.Keys + {t}
      && (forall u :: u in y.tasks ==> z.tasks[u] == y.tasks[u])
      && z.tasks[t].priority == priority && !z.tasks[t].listed && !z.tasks[t].blocked && !z.tasks[t].woken && z.tasks[t].waiting.None?
    case Ends(t) =>
      && SameClock(y, z) && z.tasks.Keys == y.tasks.Keys - {t} && (forall u :: u in z.tasks ==> z.tasks[u] == y.tasks[u])
      && if y.tasks[t].waiting.Some? then LeavesList(y, z, t) else z.sems == y.sems
    case EndsSelf =>
      && z.now == y.now && z.current.None? && z.sems == y.sems && z.tasks.Keys == y.tasks.Keys - {y.current.value}
      && forall u :: u in z.tasks ==> z.tasks[u] == y.tasks[u]
  }

  /** The post is counted; all waiters are blocked and are marked. */
  ghost predicate Counts(y: State, z: State, s: nat) {
    && OnlySem(y, z, s) && z.sems[s].ctr == y.sems[s].ctr + 1 && z.sems[s].waiters == y.sems[s].waiters
    && z.tasks.Keys == y.tasks.Keys
    && forall u :: u in y.tasks ==>
         z.tasks[u] == if u in y.sems[s].waiters then y.tasks[u].(check := Some(s)) else y.tasks[u]
  }

  ghost predicate LeavesList(y: State, z: State, t: nat) {
    && t in y.tasks && y.tasks[t].waiting.Some? && OnlySem(y, z, y.tasks[t].waiting.value)
    && var s := y.tasks[t].waiting.value;
       z.sems[s].ctr == y.sems[s].ctr && z.sems[s].waiters == Remove(y.sems[s].waiters, t)
  }

  /** A job that became due while it was blocked is due again, not before now. */
  ghost predicate Unblocked(y: State, z: State, t: nat) {
    && z.sems == y.sems && JustTask(y, z, t)
    && var k := y.tasks[t];
       z.tasks[t] == if k.pending then k.(blocked := false, check := None, pending := false, start := Later(k.start, y.now), listed := true)
                     else k.(blocked := false, check := None)
  }

  // ------------------------------------------------------------ the events do that

  lemma {:induction false} RemoveFrom(w: seq<nat>, i: nat)
    requires i < |w| && Distinct(w)
    ensures Remove(w, w[i]) == w[..i] + w[i + 1..]
  {
    RemoveAt(w, i);
  }

  lemma {:induction false} RemoveNone(w: seq<nat>, c: nat)
    requires c !in w
    ensures Remove(w, c) == w
  {
    if w != [] { RemoveNone(w[1..], c); }
  }

  lemma PostDoes(y: State, s: nat)
    requires Inv(y) && s in y.sems
    ensures Does(y, Posts(s), Post(y, s))
  {
    var w, i, z := y.sems[s].waiters, FirstActive(y.tasks, y.sems[s].waiters), Post(y, s);
    WakeupSems(y, s);
    WakeupLists(y, s);
    if CanWake(y, s) {
      PostServesBest(y, s);
      PostServes(y, s);
      assert w[i] in w && IsBest(y, s, w[i]);
    } else {
      PostCounts(y, s);
      forall t | t in w ensures !IsBest(y, s, t) {
        var k :| 0 <= k < |w| && w[k] == t;
      }
    }
  }

  lemma PostServes(y: State, s: nat)
    requires Inv(y) && s in y.sems && CanWake(y, s)
    ensures var w, i := y.sems[s].waiters, FirstActive(y.tasks, y.sems[s].waiters); Serves(y, Post(y, s), s, w[i])
  {
    PostServesBest(y, s);
    PostTakesOff(y, s);
    PostTask(y, s);
  }

  lemma PostTakesOff(y: State, s: nat)
    requires Inv(y) && s in y.sems && CanWake(y, s)
    ensures var w, i := y.sems[s].waiters, FirstActive(y.tasks, y.sems[s].waiters);
            OnlySem(y, Post(y, s), s) && Post(y, s).sems[s].waiters == Remove(w, w[i])
  {
    WakeupSems(y, s);
    RemoveFrom(y.sems[s].waiters, FirstActive(y.tasks, y.sems[s].waiters));
  }

  lemma PostTask(y: State, s: nat)
    requires Inv(y) && s in y.sems && CanWake(y, s)
    ensures var w, i := y.sems[s].waiters, FirstActive(y.tasks, y.sems[s].waiters);
            w[i] in y.tasks && w[i] in Post(y, s).tasks && Post(y, s).tasks[w[i]] == ServedTask(y.tasks[w[i]], y.now)
  {
    var w, i := y.sems[s].waiters, FirstActive(y.tasks, y.sems[s].waiters);
    assert w[i] in w && Flags(y.tasks[w[i]]);
    WakeupTasks(y, s, w[i]);
    assert w[i] !in w[..i];
  }

  lemma PostCounts(y: State, s: nat)
    requires Inv(y) && s in y.sems && !CanWake(y, s)
    ensures Counts(y, Post(y, s), s)
  {
    var w := y.sems[s].waiters;
    WakeupSems(y, s);
    assert w[..|w|] == w;
    forall u | u in y.tasks
      ensures Post(y, s).tasks[u] == if u in w then y.tasks[u].(check := Some(s)) else y.tasks[u]
    {
      WakeupTasks(y, s, u);
    }
  }

  lemma JoinsAt(w: seq<nat>, c: nat, i: nat)
    requires Distinct(w) && c !in w && i <= |w|
    ensures Joins(w, w[..i] + [c] + w[i..], c)
  {
    var v := w[..i] + [c] + w[i..];
    DistinctWith(w, c, i);
    RemoveFrom(v, i);
    assert v[i] == c && v[..i] + v[i + 1..] == w;
  }

  lemma NotOnList(y: State, c: nat, s: nat)
    requires Inv(y) && s in y.sems && y.current == Some(c)
    ensures c !in y.sems[s].waiters && c in y.tasks
  {
    assert y.tasks[c].waiting != Some(s);
  }

  lemma WaitDoes(y: State, s: nat, timeout: Option<Time>)
    requires Inv(y) && s in y.sems && y.current.Some? && y.sems[s].ctr == 0
    ensures Suspended(y, TimedWait(y, y.current.value, s, timeout), y.current.value, s, timeout)
  {
    var c := y.current.value;
    NotOnList(y, c, s);
    WaitJoins(y, c, s, timeout);
    WaitTask(y, c, s, timeout);
  }

  lemma WaitTask(y: State, c: nat, s: nat, timeout: Option<Time>)
    requires Known(y) && s in y.sems && c in y.tasks && y.sems[s].ctr == 0
    ensures SuspendedTask(y, TimedWait(y, c, s, timeout), c, s, timeout)
  {
  }

  lemma WaitJoins(y: State, c: nat, s: nat, timeout: Option<Time>)
    requires Known(y) && s in y.sems && c in y.tasks && y.sems[s].ctr == 0 && Distinct(y.sems[s].waiters) && c !in y.sems[s].waiters
    ensures var z := TimedWait(y, c, s, timeout);
            OnlySem(y, z, s) && z.sems[s].ctr == 0 && z.now == y.now && z.current.None? && Joins(y.sems[s].waiters, z.sems[s].waiters, c)
  {
    JoinsAt(y.sems[s].waiters, c, Place(y.tasks, y.sems[s].waiters, y.tasks[c].priority));
  }

  ghost predicate Done(y: State, e: Event)
    requires Known(y) && Allowed(y, e)
  {
    Step(y, e).Ok? && Does(y, e, Step(y, e).s)
  }

  lemma ResumeDoes(y: State, t: nat, at: Time)
    requires Inv(y) && Allowed(y, Resumes(t, at))
    ensures Done(y, Resumes(t, at))
  {
    ResumeGood(y, t, at);
  }

  lemma UnblockServes(y: State, t: nat)
    requires Inv(y) && t in y.tasks && y.tasks[t].blocked && y.tasks[t].check.Some? && y.tasks[t].check.value in y.sems
    requires y.sems[y.tasks[t].check.value].ctr > 0
    ensures Unblock(y, t).Ok?
    ensures var z, s := Unblock(y, t).s, y.tasks[t].check.value;
            SameClock(y, z) && Serves(y, z, s, t) && z.sems[s].ctr == y.sems[s].ctr - 1
  {
    var s := y.tasks[t].check.value;
    assert Flags(y.tasks[t]);
    var i := WaitsAt(y, t);
    UnblockWakesExactly(y, t, s, i);
    RemoveFrom(y.sems[s].waiters, i);
  }

  lemma UnblockOnly(y: State, t: nat)
    requires Inv(y) && t in y.tasks && y.tasks[t].blocked
    requires y.tasks[t].check.None? || (y.tasks[t].check.value in y.sems && y.sems[y.tasks[t].check.value].ctr == 0)
    ensures Unblock(y, t).Ok? && SameClock(y, Unblock(y, t).s) && Unblocked(y, Unblock(y, t).s, t)
  {
    assert Flags(y.tasks[t]);
  }

  lemma UnblockDoes(y: State, t: nat)
    requires Inv(y) && t in y.tasks && y.tasks[t].blocked
    ensures Done(y, Unblocks(t))
  {
    assert Flags(y.tasks[t]);
    if y.tasks[t].check.Some? && y.sems[y.tasks[t].check.value].ctr > 0 {
      UnblockServes(y, t);
    } else {
      UnblockOnly(y, t);
    }
  }

  lemma SemDoes(y: State, e: Event)
    requires Inv(y) && Allowed(y, e) && (e.Posts? || e.TriesWait? || e.Waits?)
    ensures Done(y, e)
  {
    StepGood(y, e);
    if e.Posts? {
      PostDoes(y, e.sem);
    } else if e.Waits? && y.sems[e.sem].ctr == 0 {
      WaitDoes(y, e.sem, e.timeout);
    }
  }

  lemma JobDoes(y: State, e: Event)
    requires Inv(y) && Allowed(y, e) && (e.Schedules? || e.Sleeps? || e.Suspends?)
    ensures Done(y, e)
  {
    assert e.Sleeps? ==> !y.tasks[y.current.value].listed;
  }

  lemma BlockDoes(y: State, t: nat)
    requires Inv(y) && Allowed(y, Blocks(t))
    ensures Done(y, Blocks(t))
  {
    assert Flags(y.tasks[t]);
  }

  lemma TaskDoes(y: State, e: Event)
    requires Inv(y) && Allowed(y, e) && (e.Creates? || e.Ends? || e.EndsSelf?)
    ensures Done(y, e)
  {
    StepGood(y, e);
  }

  /** Every event succeeds and does what it should. */
  lemma StepDoes(y: State, e: Event)
    requires Inv(y) && Allowed(y, e)
    ensures Done(y, e)
  {
    match e
    case Posts(_) => SemDoes(y, e);
    case TriesWait(_) => SemDoes(y, e);
    case Waits(_, _) => SemDoes(y, e);
    case Resumes(t, at) => ResumeDoes(y, t, at);
    case Schedules(_) => JobDoes(y, e);
    case Sleeps(_) => JobDoes(y, e);
    case Suspends => JobDoes(y, e);
    case Blocks(t) => BlockDoes(y, t);
    case Unblocks(t) => UnblockDoes(y, t);
    case Creates(_, _) => TaskDoes(y, e);
    case Ends(_) => TaskDoes(y, e);
    case EndsSelf => TaskDoes(y, e);
  }

  // ------------------------------------------------------------ the balance

  /** The tasks whose wait for `s` an event has let succeed. */
  ghost function Woken(y: State, z: State, s: nat): set<nat> {
    set t | t in y.tasks && y.tasks[t].waiting == Some(s) && t in z.tasks && z.tasks[t].waiting.None? && z.tasks[t].woken
  }

  /** How many waits for `s` have succeeded in this event: at once, or by a wakeup. */
  ghost function Succeeded(y: State, e: Event, z: State, s: nat): nat
    requires s in y.sems
  {
    (if (e.TriesWait? || e.Waits?) && e.sem == s && y.sems[s].ctr > 0 then 1 else 0) + |Woken(y, z, s)|
  }

  ghost function Posted(e: Event, s: nat): nat { if e == Posts(s) then 1 else 0 }

  ghost function AllPosted(trace: seq<Event>, s: nat): nat {
    if trace == [] then 0 else Posted(trace[0], s) + AllPosted(trace[1..], s)
  }

  ghost function AllSucceeded(y: State, trace: seq<Event>, s: nat): nat
    requires Legal(y, trace)
    decreases trace
  {
    if trace == [] || s !in y.sems then 0
    else match Step(y, trace[0])
      case Aborted => 0
      case Ok(z) => Succeeded(y, trace[0], z, s) + AllSucceeded(z, trace[1..], s)
  }

  lemma WokenOne(y: State, z: State, s: nat, t: nat, r: nat)
    requires Inv(y) && Serves(y, z, s, t)
    ensures Woken(y, z, r) == if r == s then {t} else {}
  {
  }

  lemma WokenNone(y: State, z: State, r: nat)
    requires Inv(y) && forall t :: t in y.tasks && t in z.tasks && z.tasks[t].woken ==> y.tasks[t].woken || y.tasks[t].waiting.None?
    ensures Woken(y, z, r) == {}
  {
    assert forall t :: t in y.tasks && y.tasks[t].waiting == Some(r) ==> Flags(y.tasks[t]);
  }

  /** The waiter that the event lets succeed, if there is one. */
  ghost predicate Wakes(y: State, e: Event, z: State, s: nat, t: nat)
    requires Known(y) && Allowed(y, e)
  {
    && Serves(y, z, s, t) && y.sems[s].ctr + Posted(e, s) == z.sems[s].ctr + 1
    && (e == Posts(s) || e == Unblocks(t))
  }

  lemma WakesBalances(y: State, e: Event, z: State, s: nat, t: nat, r: nat)
    requires Inv(y) && Allowed(y, e) && Wakes(y, e, z, s, t) && r in y.sems
    ensures r in z.sems && z.sems[r].ctr + Succeeded(y, e, z, r) == y.sems[r].ctr + Posted(e, r)
  {
    WokenOne(y, z, s, t, r);
  }

  lemma AtOnceBalances(y: State, e: Event, z: State, r: nat)
    requires Inv(y) && Allowed(y, e) && Does(y, e, z) && r in y.sems && !e.Posts? && !e.Unblocks?
    ensures r in z.sems && z.sems[r].ctr + Succeeded(y, e, z, r) == y.sems[r].ctr + Posted(e, r)
  {
    WokenNone(y, z, r);
  }

  lemma CountsBalances(y: State, s: nat, z: State, r: nat)
    requires Inv(y) && s in y.sems && Counts(y, z, s) && r in y.sems
    ensures r in z.sems && z.sems[r].ctr + Succeeded(y, Posts(s), z, r) == y.sems[r].ctr + Posted(Posts(s), r)
  {
    WokenNone(y, z, r);
  }

  lemma UnblockedBalances(y: State, t: nat, z: State, r: nat)
    requires Inv(y) && Unblocked(y, z, t) && r in y.sems
    ensures r in z.sems && z.sems[r].ctr + Succeeded(y, Unblocks(t), z, r) == y.sems[r].ctr
  {
    WokenNone(y, z, r);
  }

  /** In every event, counter and successful waits change by what was posted. */
  lemma DoesBalances(y: State, e: Event, z: State, r: nat)
    requires Inv(y) && Allowed(y, e) && Does(y, e, z) && r in y.sems
    ensures r in z.sems && z.sems[r].ctr + Succeeded(y, e, z, r) == y.sems[r].ctr + Posted(e, r)
  {
    if e.Posts? {
      if exists t :: IsBest(y, e.sem, t) {
        var t :| IsBest(y, e.sem, t) && Serves(y, z, e.sem, t) && z.sems[e.sem].ctr == y.sems[e.sem].ctr;
        WakesBalances(y, e, z, e.sem, t, r);
      } else {
        CountsBalances(y, e.sem, z, r);
      }
    } else if e.Unblocks? {
      var check := y.tasks[e.task].check;
      if check.Some? && check.value in y.sems && y.sems[check.value].ctr > 0 {
        WakesBalances(y, e, z, check.value, e.task, r);
      } else {
        UnblockedBalances(y, e.task, z, r);
      }
    } else {
      AtOnceBalances(y, e, z, r);
    }
  }

  /** In every run: what a semaphore started with plus the posts equals its counter plus the
      waits that have succeeded; no assertion fails. */
  lemma {:induction false} RunBalances(y: State, trace: seq<Event>, s: nat)
    requires Inv(y) && Legal(y, trace) && s in y.sems
    ensures Run(y, trace).Ok? && s in Run(y, trace).s.sems
    ensures y.sems[s].ctr + AllPosted(trace, s) == Run(y, trace).s.sems[s].ctr + AllSucceeded(y, trace, s)
    decreases trace
  {
    if trace != [] {
      StepGood(y, trace[0]);
      StepDoes(y, trace[0]);
      DoesBalances(y, trace[0], Step(y, trace[0]).s, s);
      RunBalances(Step(y, trace[0]).s, trace[1..], s);
    }
  }
}
