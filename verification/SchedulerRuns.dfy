/** Runs of a scheduler that has no external scheduler (src/sched.c). */
module SchedulerRuns {
  import opened Wrappers
  import opened CyclicTime
  import opened JobList

  datatype Op =
    | Add(id: nat, start: Time, priority: nat, group: nat)
    | Del(id: nat)
    | Next

  /** One executed job: when it ran, the time before the scheduler moved to it, and
      how many insertions had happened by then. */
  datatype Executed = Executed(job: Job, time: Time, from: Time, stamps: nat)

  datatype Scheduler = Scheduler(now: Time, jobs: seq<Job>, stamps: nat, log: seq<Executed>)

  /** One call into the scheduler; `Aborted` is a failed assertion of the code. */
  ghost function Step(s: Scheduler, op: Op): Outcome<Scheduler> {
    match op
    case Add(id, start, priority, group) =>
      if !Ge(start, s.now) || Scheduled(s.jobs, id) then Aborted
      else Ok(s.(jobs := Insert(s.jobs, Job(id, start, priority, group, s.stamps)), stamps := s.stamps + 1))
    case Del(id) => Ok(s.(jobs := Delete(s.jobs, id)))
    case Next =>
      if s.jobs == [] then Aborted
      else
        var job := s.jobs[0];
        var time := if Gt(job.start, s.now) then job.start else s.now;
        Ok(Scheduler(time, s.jobs[1..], s.stamps, s.log + [Executed(job, time, s.now, s.stamps)]))
  }

  ghost function Run(s: Scheduler, ops: seq<Op>): Outcome<Scheduler>
    decreases |ops|
  {
    if ops == [] then Ok(s)
    else match Step(s, ops[0])
      case Aborted => Aborted
      case Ok(t) => Run(t, ops[1..])
  }

  /** No job is queued exactly 2^63 ahead of the time of the call. */
  ghost predicate Near(s: Scheduler, op: Op) {
    op.Add? ==> op.start != Wrap(s.now + TWO63)
  }

  ghost predicate AllNear(s: Scheduler, ops: seq<Op>)
    decreases |ops|
  {
    ops != [] ==> Near(s, ops[0]) && (Step(s, ops[0]).Ok? ==> AllNear(Step(s, ops[0]).s, ops[1..]))
  }

  ghost predicate Pending(s: Scheduler) {
    && Sorted(s.now, s.jobs)
    && Ahead(s.now, s.jobs)
    && (forall x :: x in s.jobs ==> x.stamp < s.stamps)
  }

  /** Every execution was on time, and time only moved forward between executions. */
  ghost predicate OnTime(s: Scheduler) {
    && (forall i :: 0 <= i < |s.log| ==>
          && s.log[i].time == s.log[i].job.start
          && Le(s.log[i].from, s.log[i].time)
          && s.log[i].stamps <= s.stamps)
    && (forall i :: 0 <= i < |s.log| - 1 ==> s.log[i + 1].from == s.log[i].time)
    && (s.log != [] ==> s.now == s.log[|s.log| - 1].time)
  }

  /** A job that was already queued when entry `e` ran is ordered after `e`. */
  ghost predicate RunsAfter(e: Executed, y: Job) {
    y.stamp < e.stamps ==> Le(e.from, y.start) && Before(e.from, e.job, y)
  }

  ghost predicate InOrder(s: Scheduler) {
    && (forall i, y :: 0 <= i < |s.log| && y in s.jobs ==> RunsAfter(s.log[i], y))
    && (forall i, j :: 0 <= i < j < |s.log| ==> RunsAfter(s.log[i], s.log[j].job))
  }

  ghost predicate Inv(s: Scheduler) { Pending(s) && OnTime(s) && InOrder(s) }

  /** The assertion of usfstl_sched_add_job lets one time through that is not ahead of
      now: the one exactly 2^63 away. The order survives an insertion if and only if
      it is not that time. */
  lemma AddKeepsInvUnlessAntipodal(s: Scheduler, id: nat, start: Time, priority: nat, group: nat)
    requires Inv(s) && Step(s, Add(id, start, priority, group)).Ok?
    ensures Inv(Step(s, Add(id, start, priority, group)).s) <==> start != Wrap(s.now + TWO63)
  {
    var j := Job(id, start, priority, group, s.stamps);
    AheadUnlessAntipodal(start, s.now);
    if Le(s.now, start) {
      InsertSorted(s.now, s.jobs, j);
      AddKeepsLog(s, j);
    } else {
      assert j in Insert(s.jobs, j);
    }
  }

  lemma AddKeepsLog(s: Scheduler, j: Job)
    requires OnTime(s) && InOrder(s) && j.stamp == s.stamps
    ensures var t := s.(jobs := Insert(s.jobs, j), stamps := s.stamps + 1);
            OnTime(t) && InOrder(t)
  {
  }

  /** The misordering itself: a job 2^63 ahead is put in front of one that is due now. */
  lemma AntipodalJobOvertakes(now: Time, id: nat, other: nat, priority: nat, group: nat)
    requires other != id
    ensures var s := Scheduler(now, [Job(id, now, priority, group, 0)], 1, []);
            && Step(s, Add(other, Wrap(now + TWO63), priority, group)).Ok?
            && Step(s, Add(other, Wrap(now + TWO63), priority, group)).s.jobs[0].id == other
  {
    assert Gt(now, Wrap(now + TWO63)) && Ge(Wrap(now + TWO63), now);
  }

  lemma NextKeepsInv(s: Scheduler)
    requires Inv(s) && s.jobs != []
    ensures Inv(Step(s, Next).s)
    ensures Le(s.now, Step(s, Next).s.now)
  {
    var head, t := s.jobs[0], Step(s, Next).s;
    HeadIsFirst(s.now, s.jobs);
    assert head in s.jobs;
    WindowOrder(s.now, s.now, head.start);
    SortedAdvances(s.now, t.now, s.jobs);
    NextKeepsLog(s, t, Executed(head, head.start, s.now, s.stamps));
  }

  lemma NextKeepsLog(s: Scheduler, t: Scheduler, e: Executed)
    requires OnTime(s) && InOrder(s) && Sorted(s.now, s.jobs) && Ahead(s.now, s.jobs) && s.jobs != []
    requires e == Executed(s.jobs[0], s.jobs[0].start, s.now, s.stamps)
    requires t == Scheduler(e.time, s.jobs[1..], s.stamps, s.log + [e])
    ensures OnTime(t) && InOrder(t)
  {
    assert s.jobs[0] in s.jobs;
    forall y | y in t.jobs ensures y in s.jobs && RunsAfter(e, y) {
      var k :| 0 <= k < |t.jobs| && t.jobs[k] == y;
      assert s.jobs[k + 1] == y;
    }
  }

  lemma DelKeepsInv(s: Scheduler, id: nat)
    requires Inv(s)
    ensures Inv(s.(jobs := Delete(s.jobs, id)))
  {
    DeleteSorted(s.now, s.jobs, id);
  }

  lemma StepKeepsInv(s: Scheduler, op: Op)
    requires Inv(s) && Step(s, op).Ok? && Near(s, op)
    ensures Inv(Step(s, op).s)
    ensures Le(s.now, Step(s, op).s.now)
    ensures s.log <= Step(s, op).s.log
  {
    match op
    case Add(id, start, priority, group) => AddKeepsInvUnlessAntipodal(s, id, start, priority, group);
    case Del(id) => DelKeepsInv(s, id);
    case Next => NextKeepsInv(s);
  }

  function Initial(now: Time): Scheduler { Scheduler(now, [], 0, []) }

  /** Whole runs: jobs execute exactly at their start, time never goes back, and of two
      jobs that were queued together the one that sorts first executes first. */
  lemma {:induction false} RunExecutesInOrder(s: Scheduler, ops: seq<Op>)
    requires Inv(s) && Run(s, ops).Ok? && AllNear(s, ops)
    ensures Inv(Run(s, ops).s)
    decreases |ops|
  {
    if ops != [] {
      StepKeepsInv(s, ops[0]);
      RunExecutesInOrder(Step(s, ops[0]).s, ops[1..]);
    }
  }

  lemma RunFromEmpty(now: Time, ops: seq<Op>)
    requires Run(Initial(now), ops).Ok? && AllNear(Initial(now), ops)
    ensures var log := Run(Initial(now), ops).s.log;
            && (forall i :: 0 <= i < |log| ==> log[i].time == log[i].job.start)
            && (forall i :: 0 <= i < |log| - 1 ==> Le(log[i].time, log[i + 1].time))
            && (forall i, j :: 0 <= i < j < |log| && log[j].job.stamp < log[i].stamps ==>
                  Before(log[i].from, log[i].job, log[j].job))
  {
    RunExecutesInOrder(Initial(now), ops);
    var log := Run(Initial(now), ops).s.log;
    forall i | 0 <= i < |log| - 1 ensures Le(log[i].time, log[i + 1].time) {
      assert log[i + 1].from == log[i].time;
    }
    forall i, j | 0 <= i < j < |log| && log[j].job.stamp < log[i].stamps
      ensures Before(log[i].from, log[i].job, log[j].job)
    {
      assert RunsAfter(log[i], log[j].job);
    }
  }

  // ------------------------------------------------------------ what becomes of every job

  /** What one call does: which assertions fail, and what is queued, executed and deleted. */
  ghost predicate Does(s: Scheduler, op: Op, r: Outcome<Scheduler>) {
    match op
    case Add(id, start, priority, group) =>
      if Ge(start, s.now) && !Scheduled(s.jobs, id) then
        && r.Ok? && r.s.now == s.now && r.s.log == s.log && r.s.stamps == s.stamps + 1
        && multiset(r.s.jobs) == multiset(s.jobs) + multiset{Job(id, start, priority, group, s.stamps)}
      else r.Aborted?
    case Del(id) =>
      && r.Ok? && r.s.now == s.now && r.s.log == s.log && r.s.stamps == s.stamps
      && forall x :: multiset(r.s.jobs)[x] == if x.id == id then 0 else multiset(s.jobs)[x]
    case Next =>
      if s.jobs == [] then r.Aborted?
      else
        && r.Ok? && r.s.stamps == s.stamps && r.s.log != [] && r.s.log[..|r.s.log| - 1] == s.log
        && var e := r.s.log[|r.s.log| - 1];
           && e.time == e.job.start == r.s.now && e.from == s.now && multiset(s.jobs) == multiset(r.s.jobs) + multiset{e.job}
           && forall x :: x in r.s.jobs ==> Before(s.now, e.job, x)
  }

  lemma {:induction false} DeleteCount(l: seq<Job>, id: nat, x: Job)
    ensures multiset(Delete(l, id))[x] == if x.id == id then 0 else multiset(l)[x]
  {
    if l != [] {
      DeleteCount(l[1..], id, x);
      assert l == [l[0]] + l[1..];
    }
  }

  lemma NextDoes(s: Scheduler)
    requires Inv(s)
    ensures Does(s, Next, Step(s, Next))
  {
    if s.jobs != [] {
      var h, rest := s.jobs[0], s.jobs[1..];
      assert s.jobs == [h] + rest;
      LaterOrNow(s.now, h.start);
      forall x | x in rest ensures Before(s.now, h, x) {
        var k :| 0 <= k < |rest| && rest[k] == x;
        assert s.jobs[k + 1] == x;
      }
    }
  }

  lemma LaterOrNow(now: Time, t: Time)
    requires Le(now, t)
    ensures Gt(t, now) || t == now
  {
  }

  lemma DelDoes(s: Scheduler, id: nat)
    ensures Does(s, Del(id), Step(s, Del(id)))
  {
    forall x ensures multiset(Delete(s.jobs, id))[x] == if x.id == id then 0 else multiset(s.jobs)[x] {
      DeleteCount(s.jobs, id, x);
    }
  }

  lemma StepDoes(s: Scheduler, op: Op)
    requires Inv(s)
    ensures Does(s, op, Step(s, op))
  {
    match op
    case Add(_, _, _, _) =>
    case Del(id) => DelDoes(s, id);
    case Next => NextDoes(s);
  }

  ghost function Executions(log: seq<Executed>, x: Job): nat {
    if log == [] then 0 else Executions(log[..|log| - 1], x) + if log[|log| - 1].job == x then 1 else 0
  }

  /** How often `x` is queued or was executed. */
  ghost function Has(s: Scheduler, x: Job): nat { multiset(s.jobs)[x] + Executions(s.log, x) }

  /** The job that a call adds, numbered as it is inserted. */
  ghost predicate IsAdded(op: Op, stamps: nat, x: Job) {
    op.Add? && x == Job(op.id, op.start, op.priority, op.group, stamps)
  }

  /** How often a run adds `x`. */
  ghost function Added(stamps: nat, ops: seq<Op>, x: Job): nat
    decreases |ops|
  {
    if ops == [] then 0
    else (if IsAdded(ops[0], stamps, x) then 1 else 0) + Added(if ops[0].Add? then stamps + 1 else stamps, ops[1..], x)
  }

  ghost predicate IsDeleted(s: Scheduler, op: Op, x: Job) { op.Del? && op.id == x.id && x in s.jobs }

  /** `x` is queued when a deletion of its id comes. */
  ghost predicate Deleted(s: Scheduler, ops: seq<Op>, x: Job)
    decreases |ops|
  {
    ops != [] && Step(s, ops[0]).Ok? && (IsDeleted(s, ops[0], x) || Deleted(Step(s, ops[0]).s, ops[1..], x))
  }

  lemma StepAccounts(s: Scheduler, op: Op, t: Scheduler, x: Job)
    requires Does(s, op, Ok(t))
    ensures t.stamps == if op.Add? then s.stamps + 1 else s.stamps
    ensures var all := Has(s, x) + if IsAdded(op, s.stamps, x) then 1 else 0;
            Has(t, x) <= all && (!IsDeleted(s, op, x) ==> Has(t, x) == all)
  {
  }

  lemma AccountsOnce(s: Scheduler, op: Op, x: Job) returns (t: Scheduler)
    requires Inv(s) && Step(s, op).Ok? && Near(s, op)
    ensures Step(s, op) == Ok(t) && Inv(t) && t.stamps == if op.Add? then s.stamps + 1 else s.stamps
    ensures var all := Has(s, x) + if IsAdded(op, s.stamps, x) then 1 else 0;
            Has(t, x) <= all && (!IsDeleted(s, op, x) ==> Has(t, x) == all)
  {
    t := Step(s, op).s;
    StepDoes(s, op);
    StepKeepsInv(s, op);
    StepAccounts(s, op, t, x);
  }

  lemma DeletedNext(s: Scheduler, ops: seq<Op>, t: Scheduler, x: Job)
    requires ops != [] && Step(s, ops[0]) == Ok(t)
    ensures Deleted(s, ops, x) <==> IsDeleted(s, ops[0], x) || Deleted(t, ops[1..], x)
  {
  }

  /** The first call of a run, and what it leaves for the rest. */
  lemma FirstCall(s: Scheduler, ops: seq<Op>, x: Job) returns (t: Scheduler, n: nat, gone: bool)
    requires ops != [] && Inv(s) && Run(s, ops).Ok? && AllNear(s, ops)
    ensures Inv(t) && Run(s, ops) == Run(t, ops[1..]) && AllNear(t, ops[1..])
    ensures Added(s.stamps, ops, x) == n + Added(t.stamps, ops[1..], x)
    ensures Has(t, x) <= Has(s, x) + n && (!gone ==> Has(t, x) == Has(s, x) + n)
    ensures Deleted(s, ops, x) <==> gone || Deleted(t, ops[1..], x)
  {
    t := AccountsOnce(s, ops[0], x);
    n, gone := if IsAdded(ops[0], s.stamps, x) then 1 else 0, IsDeleted(s, ops[0], x);
    DeletedNext(s, ops, t, x);
    RunNext(s, ops, t);
    AddedNext(s.stamps, ops, t.stamps, x);
  }

  lemma RunNext(s: Scheduler, ops: seq<Op>, t: Scheduler)
    requires ops != [] && Step(s, ops[0]) == Ok(t) && AllNear(s, ops)
    ensures Run(s, ops) == Run(t, ops[1..]) && AllNear(t, ops[1..])
  {
  }

  lemma AddedNext(stamps: nat, ops: seq<Op>, next: nat, x: Job)
    requires ops != [] && next == if ops[0].Add? then stamps + 1 else stamps
    ensures Added(stamps, ops, x) == (if IsAdded(ops[0], stamps, x) then 1 else 0) + Added(next, ops[1..], x)
  {
  }

  /** In every run, a job that was queued or is added is afterwards still queued, or was
      executed, exactly as often as it was added, unless it was deleted; there are no others. */
  lemma {:induction false} RunAccounts(s: Scheduler, ops: seq<Op>, x: Job)
    requires Inv(s) && Run(s, ops).Ok? && AllNear(s, ops)
    ensures var all := Has(s, x) + Added(s.stamps, ops, x);
            Has(Run(s, ops).s, x) <= all && (!Deleted(s, ops, x) ==> Has(Run(s, ops).s, x) == all)
    decreases |ops|
  {
    if ops != [] {
      var t, n, gone := FirstCall(s, ops, x);
      RunAccounts(t, ops[1..], x);
    }
  }
}
