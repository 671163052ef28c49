/** Blocking of job groups (src/sched.c): jobs of blocked groups are parked and come back
    when the blocking is undone, for programs that nest block and restore in LIFO order. */
module GroupBlocking {
  import opened Wrappers
  import opened CyclicTime
  import opened JobList

  /** `jobs` is the job list, `parked` the pending list; `blocked` and `allowed` are the
      mask and the one job exempt from it. `gone` holds every job executed or deleted so
      far, which the code does not record. */
  datatype State = State(
    now: Time, jobs: seq<Job>, parked: seq<Job>, blocked: set<nat>, allowed: Option<nat>, stamps: nat, gone: set<nat>)

  predicate Eligible(s: State, j: Job) { j.group !in s.blocked || s.allowed == Some(j.id) }

  function List(s: State, j: Job): State {
    s.(jobs := Insert(s.jobs, j.(stamp := s.stamps)), stamps := s.stamps + 1)
  }

  /** usfstl_sched_add_job; a parked job loses its start time. */
  function AddJob(s: State, j: Job): State {
    if Eligible(s, j) then List(s, j) else s.(parked := s.parked + [j.(start := 0)])
  }

  /** usfstl_sched_restore_blocked_jobs: `l` is the part of the pending list still to visit. */
  function Unpark(s: State, l: seq<Job>): State
    decreases |l|
  {
    if l == [] then s
    else if Eligible(s, l[0]) then Unpark(List(s, l[0].(start := Later(l[0].start, s.now))), l[1..])
    else Unpark(s.(parked := s.parked + [l[0]]), l[1..])
  }

  /** usfstl_sched_remove_blocked_jobs: `l` is the part of the job list still to visit. */
  function Park(s: State, l: seq<Job>): State
    decreases |l|
  {
    if l == [] then s
    else if Eligible(s, l[0]) then Park(s.(jobs := s.jobs + [l[0]]), l[1..])
    else Park(s.(parked := s.parked + [l[0]]), l[1..])
  }

  function RestoreBlocked(s: State): State { Unpark(s.(parked := []), s.parked) }
  function RemoveBlocked(s: State): State { Park(s.(jobs := []), s.jobs) }

  /** usfstl_sched_block_groups after its assertions. */
  function Block(s: State, groups: set<nat>, job: Option<nat>): State {
    RemoveBlocked(s.(blocked := s.blocked + groups, allowed := job))
  }

  /** usfstl_sched_restore_groups. */
  function Restore(s: State, groups: set<nat>, job: Option<nat>): State {
    RemoveBlocked(RestoreBlocked(s.(blocked := groups, allowed := job)))
  }

  datatype Op = Add(id: nat, start: Time, priority: nat, group: nat) | Del(id: nat) | Next | Advance(to: Time)

  /** A program; `Nest` blocks groups, runs a body and undoes the blocking. `group` is the
      group of the allowed job. */
  datatype Prog =
    | Done
    | Then(op: Op, rest: Prog)
    | Nest(groups: set<nat>, job: Option<nat>, group: nat, body: Prog, rest: Prog)

  ghost function Step(s: State, op: Op): Outcome<State> {
    match op
    case Add(id, start, priority, group) =>
      if !Ge(start, s.now) || Scheduled(s.jobs + s.parked, id) || group >= 32 then Aborted
      else Ok(AddJob(s, Job(id, start, priority, group, s.stamps)))
    case Del(id) => Ok(s.(jobs := Delete(s.jobs, id), parked := Delete(s.parked, id), gone := s.gone + {id}))
    case Next =>
      if s.jobs == [] then Aborted
      else
        var job := s.jobs[0];
        Ok(s.(now := if Gt(job.start, s.now) then job.start else s.now, jobs := s.jobs[1..], gone := s.gone + {job.id}))
    case Advance(to) =>
      if !Ge(to, s.now) || (s.jobs != [] && !Le(to, s.jobs[0].start)) then Aborted else Ok(s.(now := to))
  }

  ghost function Exec(s: State, p: Prog): Outcome<State>
    decreases p
  {
    match p
    case Done => Ok(s)
    case Then(op, rest) =>
      var r := Step(s, op);
      if r.Aborted? then Aborted else Exec(r.s, rest)
    case Nest(groups, job, group, body, rest) =>
      if job.Some? && group !in groups + s.blocked then Aborted
      else
        var r := Exec(Block(s, groups, job), body);
        if r.Aborted? then Aborted else Exec(Restore(r.s, s.blocked, s.allowed), rest)
  }

  /** The program names only times below 2^63. */
  predicate Early(p: Prog) {
    match p
    case Done => true
    case Then(op, rest) => (op.Add? ==> op.start < TWO63) && (op.Advance? ==> op.to < TWO63) && Early(rest)
    case Nest(_, _, _, body, rest) => Early(body) && Early(rest)
  }

  // ------------------------------------------------------------ invariant

  /** How often the job `id` occurs in `l`. */
  function Count(l: seq<Job>, id: nat): nat {
    if l == [] then 0 else (if l[0].id == id then 1 else 0) + Count(l[1..], id)
  }

  function Total(a: seq<Job>, b: seq<Job>, id: nat): nat { Count(a, id) + Count(b, id) }

  ghost predicate Times(s: State) {
    && s.now < TWO63 && Sorted(s.now, s.jobs) && Ahead(s.now, s.jobs)
    && (forall x :: x in s.jobs ==> x.start < TWO63 && x.stamp < s.stamps)
    && (forall x :: x in s.parked ==> x.start < TWO63)
  }

  /** What is listed may run; what is parked belongs to a blocked group. */
  ghost predicate Separated(s: State) {
    && (forall x :: x in s.jobs ==> Eligible(s, x))
    && (forall x :: x in s.parked ==> x.group in s.blocked)
  }

  /** No job is queued twice. */
  ghost predicate Unique(s: State) { forall id :: Total(s.jobs, s.parked, id) <= 1 }

  ghost predicate Inv(s: State) { Times(s) && Separated(s) && Unique(s) }

  // ------------------------------------------------------------ where jobs go

  /** `y` is the job `x`, its start unchanged or moved up to a time that has been reached. */
  predicate Carried(x: Job, y: Job, now: Time) {
    && y.id == x.id && y.priority == x.priority && y.group == x.group
    && (y.start == x.start || x.start < y.start <= now)
  }

  ghost predicate Kept(s: State, x: Job) { exists y :: y in s.jobs + s.parked && Carried(x, y, s.now) }

  ghost predicate Listed(s: State, x: Job) { exists y :: y in s.jobs && Carried(x, y, s.now) }

  /** `t` still has every job of `s` that was not executed or deleted. */
  ghost predicate Keeps(s: State, t: State) {
    && s.now <= t.now && s.gone <= t.gone
    && (forall x :: x in s.jobs + s.parked && x.id !in t.gone ==> Kept(t, x))
  }

  /** The listed ones are listed again. */
  ghost predicate KeepsListed(s: State, t: State) {
    forall x :: x in s.jobs && x.id !in t.gone ==> Listed(t, x)
  }

  lemma KeepsTransitive(s: State, t: State, u: State)
    requires Keeps(s, t) && Keeps(t, u)
    ensures Keeps(s, u)
  {
    forall x | x in s.jobs + s.parked && x.id !in u.gone ensures Kept(u, x) {
      var y :| y in t.jobs + t.parked && Carried(x, y, t.now);
      var z :| z in u.jobs + u.parked && Carried(y, z, u.now);
      assert Carried(x, z, u.now);
    }
  }

  lemma KeepsListedTransitive(s: State, t: State, u: State)
    requires Keeps(s, t) && Keeps(t, u) && KeepsListed(s, t) && KeepsListed(t, u)
    ensures KeepsListed(s, u)
  {
    forall x | x in s.jobs && x.id !in u.gone ensures Listed(u, x) {
      var y :| y in t.jobs && Carried(x, y, t.now);
      var z :| z in u.jobs && Carried(y, z, u.now);
      assert Carried(x, z, u.now);
    }
  }

  // ------------------------------------------------------------ counting

  lemma {:induction false} CountConcat(a: seq<Job>, b: seq<Job>, id: nat)
    ensures Count(a + b, id) == Count(a, id) + Count(b, id)
  {
    if a == [] {
      assert a + b == b;
    } else {
      CountConcat(a[1..], b, id);
      assert (a + b)[1..] == a[1..] + b;
    }
  }

  lemma CountAppend(l: seq<Job>, j: Job, id: nat)
    ensures Count(l + [j], id) == Count(l, id) + Count([j], id)
    ensures Count([j], id) == if j.id == id then 1 else 0
  {
    CountConcat(l, [j], id);
    assert [j][1..] == [];
  }

  lemma CountInsert(l: seq<Job>, j: Job, id: nat)
    ensures Count(Insert(l, j), id) == Count(l, id) + if j.id == id then 1 else 0
  {
    var p := Position(l, j);
    CountAppend(l[..p], j, id);
    CountConcat(l[..p], l[p..], id);
    CountConcat(l[..p] + [j], l[p..], id);
    assert l[..p] + l[p..] == l;
  }

  lemma {:induction false} CountDelete(l: seq<Job>, gone: nat, id: nat)
    ensures Count(Delete(l, gone), id) == if id == gone then 0 else Count(l, id)
  {
    if l != [] {
      CountDelete(l[1..], gone, id);
      var d := Delete(l[1..], gone);
      assert ([l[0]] + d)[1..] == d && [] + d == d;
    }
  }

  lemma {:induction false} CountMember(l: seq<Job>, id: nat)
    ensures Count(l, id) > 0 <==> Scheduled(l, id)
  {
    if l != [] {
      CountMember(l[1..], id);
      assert l == [l[0]] + l[1..];
      if l[0].id != id && Scheduled(l, id) {
        var x :| x in l && x.id == id;
        assert x in l[1..];
      }
    }
  }

  // ------------------------------------------------------------ the two passes

  lemma {:induction false} ParkEffect(s: State, l: seq<Job>)
    ensures var r := Park(s, l);
            && r == s.(jobs := r.jobs, parked := r.parked)
            && (forall x :: x in r.jobs <==> x in s.jobs || (x in l && Eligible(s, x)))
            && (forall x :: x in r.parked <==> x in s.parked || (x in l && !Eligible(s, x)))
    decreases |l|
  {
    if l != [] {
      ParkEffect(if Eligible(s, l[0]) then s.(jobs := s.jobs + [l[0]]) else s.(parked := s.parked + [l[0]]), l[1..]);
      assert l == [l[0]] + l[1..];
    }
  }

  lemma {:induction false} ParkSorted(s: State, l: seq<Job>)
    requires Sorted(s.now, s.jobs + l)
    ensures Sorted(s.now, Park(s, l).jobs)
    decreases |l|
  {
    if l == [] {
      assert s.jobs + l == s.jobs;
    } else if Eligible(s, l[0]) {
      assert s.jobs + [l[0]] + l[1..] == s.jobs + l;
      ParkSorted(s.(jobs := s.jobs + [l[0]]), l[1..]);
    } else {
      var a, b, n := s.jobs + l, s.jobs + l[1..], |s.jobs|;
      forall i, j | 0 <= i < j < |b| ensures Before(s.now, b[i], b[j]) {
        assert b[i] == a[if i < n then i else i + 1] && b[j] == a[if j < n then j else j + 1];
      }
      ParkSorted(s.(parked := s.parked + [l[0]]), l[1..]);
    }
  }

  lemma {:induction false} ParkCount(s: State, l: seq<Job>, id: nat)
    ensures Total(Park(s, l).jobs, Park(s, l).parked, id) == Total(s.jobs, s.parked, id) + Count(l, id)
    decreases |l|
  {
    if l != [] {
      CountAppend(s.jobs, l[0], id);
      CountAppend(s.parked, l[0], id);
      ParkCount(if Eligible(s, l[0]) then s.(jobs := s.jobs + [l[0]]) else s.(parked := s.parked + [l[0]]), l[1..], id);
    }
  }

  /** What becomes of `x` when it is taken from the pending list. */
  predicate Returned(x: Job, y: Job, now: Time) { y == x.(start := Later(x.start, now), stamp := y.stamp) }

  lemma {:induction false} UnparkParked(s: State, l: seq<Job>)
    ensures var r := Unpark(s, l);
            && r == s.(jobs := r.jobs, parked := r.parked, stamps := r.stamps)
            && (forall x :: x in r.parked <==> x in s.parked || (x in l && !Eligible(s, x)))
            && (forall x :: x in s.jobs ==> x in r.jobs)
    decreases |l|
  {
    if l != [] {
      UnparkParked(
        if Eligible(s, l[0]) then List(s, l[0].(start := Later(l[0].start, s.now))) else s.(parked := s.parked + [l[0]]),
        l[1..]);
      assert l == [l[0]] + l[1..];
    }
  }

  lemma {:induction false} UnparkBack(s: State, l: seq<Job>, x: Job) returns (y: Job)
    requires x in l && Eligible(s, x)
    ensures y in Unpark(s, l).jobs && Returned(x, y, s.now)
    decreases |l|
  {
    var t := if Eligible(s, l[0]) then List(s, l[0].(start := Later(l[0].start, s.now))) else s.(parked := s.parked + [l[0]]);
    if x == l[0] {
      y := l[0].(start := Later(l[0].start, s.now), stamp := s.stamps);
      assert y in t.jobs;
      UnparkParked(t, l[1..]);
    } else {
      assert l == [l[0]] + l[1..];
      y := UnparkBack(t, l[1..], x);
    }
  }

  lemma {:induction false} UnparkCount(s: State, l: seq<Job>, id: nat)
    ensures Total(Unpark(s, l).jobs, Unpark(s, l).parked, id) == Total(s.jobs, s.parked, id) + Count(l, id)
    decreases |l|
  {
    if l != [] {
      CountInsert(s.jobs, l[0].(start := Later(l[0].start, s.now), stamp := s.stamps), id);
      CountAppend(s.parked, l[0], id);
      UnparkCount(
        if Eligible(s, l[0]) then List(s, l[0].(start := Later(l[0].start, s.now))) else s.(parked := s.parked + [l[0]]),
        l[1..], id);
    }
  }

  lemma ListTimes(s: State, j: Job)
    requires Times(s) && j.start < TWO63 && s.now <= j.start
    ensures Times(List(s, j))
  {
    PlainBelowHalf(s.now, j.start);
    InsertSorted(s.now, s.jobs, j.(stamp := s.stamps));
  }

  lemma {:induction false} UnparkTimes(s: State, l: seq<Job>)
    requires Times(s) && forall x :: x in l ==> x.start < TWO63
    ensures Times(Unpark(s, l))
    decreases |l|
  {
    if l != [] {
      var j := l[0].(start := Later(l[0].start, s.now));
      assert l[0] in l;
      PlainBelowHalf(l[0].start, s.now);
      if Eligible(s, l[0]) {
        ListTimes(s, j);
        UnparkTimes(List(s, j), l[1..]);
      } else {
        UnparkTimes(s.(parked := s.parked + [l[0]]), l[1..]);
      }
    }
  }

  // ------------------------------------------------------------ block and restore

  lemma KeptAsIs(s: State, t: State)
    requires t.now == s.now && t.gone == s.gone && forall x :: x in s.jobs + s.parked ==> x in t.jobs + t.parked
    ensures Keeps(s, t)
  {
    forall x | x in s.jobs + s.parked ensures Kept(t, x) {
      assert Carried(x, x, t.now);
    }
  }

  lemma RemoveGood(s: State)
    requires Times(s) && Unique(s) && forall x :: x in s.parked ==> x.group in s.blocked
    ensures var r := RemoveBlocked(s);
            && Inv(r) && Keeps(s, r) && r == s.(jobs := r.jobs, parked := r.parked)
            && (forall x :: x in r.jobs <==> x in s.jobs && Eligible(s, x))
            && (forall id :: Total(r.jobs, r.parked, id) == Total(s.jobs, s.parked, id))
  {
    var r := RemoveBlocked(s);
    ParkEffect(s.(jobs := []), s.jobs);
    assert [] + s.jobs == s.jobs;
    ParkSorted(s.(jobs := []), s.jobs);
    forall id ensures Total(r.jobs, r.parked, id) == Total(s.jobs, s.parked, id) {
      ParkCount(s.(jobs := []), s.jobs, id);
    }
    KeptAsIs(s, r);
  }

  lemma BlockGood(s: State, groups: set<nat>, job: Option<nat>)
    requires Inv(s)
    ensures var r := Block(s, groups, job);
            && Inv(r) && Keeps(s, r) && r.now == s.now && r.gone == s.gone
            && r.blocked == s.blocked + groups && r.allowed == job
            && (forall id :: Total(r.jobs, r.parked, id) == Total(s.jobs, s.parked, id))
  {
    RemoveGood(s.(blocked := s.blocked + groups, allowed := job));
  }

  /** Every job that may run under the restored mask comes back. */
  lemma RestoreBlockedGood(s: State)
    requires Times(s) && Unique(s)
    ensures var r := RestoreBlocked(s);
            && Times(r) && Unique(r) && Keeps(s, r) && r == s.(jobs := r.jobs, parked := r.parked, stamps := r.stamps)
            && (forall x :: x in r.parked ==> x.group in s.blocked)
            && (forall x :: x in s.jobs + s.parked && Eligible(s, x) ==> Listed(r, x))
            && (forall id :: Total(r.jobs, r.parked, id) == Total(s.jobs, s.parked, id))
  {
    var b, r := s.(parked := []), RestoreBlocked(s);
    UnparkParked(b, s.parked);
    UnparkTimes(b, s.parked);
    forall id ensures Total(r.jobs, r.parked, id) == Total(s.jobs, s.parked, id) {
      UnparkCount(b, s.parked, id);
    }
    forall x | x in s.jobs + s.parked
      ensures Kept(r, x) && (Eligible(s, x) ==> Listed(r, x))
    {
      BackOrKept(s, x);
    }
  }

  lemma BackOrKept(s: State, x: Job)
    requires Times(s) && x in s.jobs + s.parked
    ensures Kept(RestoreBlocked(s), x) && (Eligible(s, x) ==> Listed(RestoreBlocked(s), x))
  {
    var b, r := s.(parked := []), RestoreBlocked(s);
    UnparkParked(b, s.parked);
    assert Carried(x, x, s.now);
    if x in s.jobs {
      assert x in r.jobs && x in r.jobs + r.parked;
    } else if Eligible(s, x) {
      var y := UnparkBack(b, s.parked, x);
      PlainBelowHalf(x.start, s.now);
      assert Carried(x, y, s.now) && y in r.jobs + r.parked;
    } else {
      assert x in r.parked && x in r.jobs + r.parked;
    }
  }

  lemma RestoreGood(s: State, groups: set<nat>, job: Option<nat>)
    requires Times(s) && Unique(s)
    ensures var r := Restore(s, groups, job);
            && Inv(r) && Keeps(s, r) && r.blocked == groups && r.allowed == job && r.gone == s.gone
            && (forall x :: x in s.jobs + s.parked && Eligible(r, x) ==> Listed(r, x))
            && (forall id :: Total(r.jobs, r.parked, id) == Total(s.jobs, s.parked, id))
  {
    var b := s.(blocked := groups, allowed := job);
    var m := RestoreBlocked(b);
    RestoreBlockedGood(b);
    RemoveGood(m);
    var r := Restore(s, groups, job);
    assert Keeps(s, m) by {
      forall x | x in s.jobs + s.parked && x.id !in m.gone ensures Kept(m, x) { assert x in b.jobs + b.parked; }
    }
    KeepsTransitive(s, m, r);
    forall x | x in s.jobs + s.parked && Eligible(r, x) ensures Listed(r, x) {
      assert Listed(m, x);
      var y :| y in m.jobs && Carried(x, y, m.now);
      assert Eligible(m, y) && y in r.jobs;
    }
  }

  // ------------------------------------------------------------ single operations

  ghost predicate OpEarly(op: Op) { (op.Add? ==> op.start < TWO63) && (op.Advance? ==> op.to < TWO63) }

  /** What every operation between block and restore guarantees. */
  ghost predicate Good(s: State, t: State) {
    Inv(t) && t.blocked == s.blocked && t.allowed == s.allowed && Keeps(s, t) && KeepsListed(s, t)
  }

  lemma StepGood(s: State, op: Op)
    requires Inv(s) && OpEarly(op) && Step(s, op).Ok?
    ensures Good(s, Step(s, op).s)
  {
    match op
    case Add(id, start, priority, group) => AddGood(s, Job(id, start, priority, group, s.stamps));
    case Del(id) => DelGood(s, id);
    case Next => NextGood(s);
    case Advance(to) => AdvanceGood(s, to);
  }

  lemma AddGood(s: State, j: Job)
    requires Inv(s) && j.start < TWO63 && Ge(j.start, s.now) && !Scheduled(s.jobs + s.parked, j.id)
    ensures Good(s, AddJob(s, j))
  {
    var t := AddJob(s, j);
    PlainBelowHalf(j.start, s.now);
    if Eligible(s, j) { ListTimes(s, j); }
    AddUnique(s, j);
    forall x | x in s.jobs + s.parked
      ensures Kept(t, x) && (x in s.jobs ==> Listed(t, x))
    {
      assert Carried(x, x, t.now);
      assert x in t.jobs + t.parked;
    }
  }

  lemma AddUnique(s: State, j: Job)
    requires Unique(s) && !Scheduled(s.jobs + s.parked, j.id)
    ensures Unique(AddJob(s, j))
  {
    var t := AddJob(s, j);
    CountMember(s.jobs + s.parked, j.id);
    CountConcat(s.jobs, s.parked, j.id);
    forall id ensures Total(t.jobs, t.parked, id) <= 1 {
      assert Total(s.jobs, s.parked, id) <= 1;
      CountInsert(s.jobs, j.(stamp := s.stamps), id);
      CountAppend(s.parked, j.(start := 0), id);
    }
  }

  lemma DelGood(s: State, id: nat)
    requires Inv(s)
    ensures Good(s, Step(s, Del(id)).s)
  {
    var t := Step(s, Del(id)).s;
    DeleteSorted(s.now, s.jobs, id);
    forall i ensures Total(t.jobs, t.parked, i) <= 1 {
      CountDelete(s.jobs, id, i);
      CountDelete(s.parked, id, i);
      assert Total(s.jobs, s.parked, i) <= 1;
    }
    forall x | x in s.jobs + s.parked && x.id != id
      ensures Kept(t, x) && (x in s.jobs ==> Listed(t, x))
    {
      assert Carried(x, x, t.now);
      assert x in t.jobs + t.parked;
    }
  }

  /** Moving time up to, and not beyond, the first job. */
  lemma TimeMoves(s: State, to: Time)
    requires Times(s) && s.now <= to < TWO63 && (s.jobs != [] ==> to <= s.jobs[0].start)
    ensures Times(s.(now := to))
  {
    PlainBelowHalf(s.now, to);
    forall x | x in s.jobs ensures Le(to, x.start) {
      HeadIsFirst(s.now, s.jobs);
      PlainBelowHalf(s.jobs[0].start, x.start);
      PlainBelowHalf(to, x.start);
    }
    SortedAdvances(s.now, to, s.jobs);
  }

  lemma KeepsWhileTimeMoves(s: State, t: State)
    requires s.now <= t.now && t.parked == s.parked && s.gone <= t.gone
    requires forall x :: x in s.jobs && x.id !in t.gone ==> x in t.jobs
    ensures Keeps(s, t) && KeepsListed(s, t)
  {
    forall x | x in s.jobs + s.parked && x.id !in t.gone ensures Kept(t, x) && (x in s.jobs ==> Listed(t, x)) {
      assert Carried(x, x, t.now);
      assert x in t.jobs + t.parked;
    }
  }

  lemma NextGood(s: State)
    requires Inv(s) && s.jobs != []
    ensures Good(s, Step(s, Next).s)
  {
    var t, j := Step(s, Next).s, s.jobs[0];
    assert j in s.jobs;
    PlainBelowHalf(j.start, s.now);
    PlainBelowHalf(s.now, j.start);
    TimeMoves(s, j.start);
    assert s.jobs == [j] + s.jobs[1..];
    forall id ensures Total(t.jobs, t.parked, id) <= 1 {
      assert Total(s.jobs, s.parked, id) <= 1;
    }
    KeepsWhileTimeMoves(s, t);
  }

  lemma AdvanceGood(s: State, to: Time)
    requires Inv(s) && to < TWO63 && Step(s, Advance(to)).Ok?
    ensures Good(s, Step(s, Advance(to)).s)
  {
    PlainBelowHalf(to, s.now);
    if s.jobs != [] {
      assert s.jobs[0] in s.jobs;
      PlainBelowHalf(to, s.jobs[0].start);
    }
    TimeMoves(s, to);
    forall id ensures Total(s.(now := to).jobs, s.(now := to).parked, id) <= 1 {
      assert Total(s.jobs, s.parked, id) <= 1;
    }
    KeepsWhileTimeMoves(s, s.(now := to));
  }

  // ------------------------------------------------------------ programs

  lemma NestGood(s: State, groups: set<nat>, job: Option<nat>, b: State, u: State)
    requires Inv(s) && b == Block(s, groups, job) && Good(b, u)
    ensures Good(s, Restore(u, s.blocked, s.allowed))
  {
    var t := Restore(u, s.blocked, s.allowed);
    BlockGood(s, groups, job);
    RestoreGood(u, s.blocked, s.allowed);
    KeepsTransitive(s, b, u);
    KeepsTransitive(s, u, t);
    forall x | x in s.jobs && x.id !in t.gone ensures Listed(t, x) {
      assert x in s.jobs + s.parked && Kept(u, x);
      var y :| y in u.jobs + u.parked && Carried(x, y, u.now);
      assert Eligible(s, x) && Eligible(t, y);
      assert Listed(t, y);
      var z :| z in t.jobs && Carried(y, z, t.now);
      assert Carried(x, z, t.now);
    }
  }

  /** Every program that nests blocking in LIFO order keeps the invariant, ends with the mask
      and the allowed job it began with, and has every job it did not execute or delete. */
  lemma {:induction false} ExecGood(s: State, p: Prog)
    requires Inv(s) && Early(p) && Exec(s, p).Ok?
    ensures Good(s, Exec(s, p).s)
    decreases p
  {
    match p
    case Done => KeepsWhileTimeMoves(s, s);
    case Then(op, rest) =>
      var t := Step(s, op).s;
      StepGood(s, op);
      ExecGood(t, rest);
      Compose(s, t, Exec(s, p).s);
    case Nest(groups, job, group, body, rest) =>
      var b := Block(s, groups, job);
      BlockGood(s, groups, job);
      ExecGood(b, body);
      var u := Exec(b, body).s;
      NestGood(s, groups, job, b, u);
      var t := Restore(u, s.blocked, s.allowed);
      ExecGood(t, rest);
      Compose(s, t, Exec(s, p).s);
  }

  lemma Compose(s: State, t: State, u: State)
    requires Good(s, t) && Good(t, u)
    ensures Good(s, u)
  {
    KeepsTransitive(s, t, u);
    KeepsListedTransitive(s, t, u);
  }

  /** A job that was listed before a program, and was not executed or deleted by it, is
      listed once afterwards, at the later of its old start and the current time. */
  lemma ListedAgain(s: State, p: Prog, x: Job)
    requires Inv(s) && Early(p) && Exec(s, p).Ok? && x in s.jobs && x.id !in Exec(s, p).s.gone
    ensures var t := Exec(s, p).s;
            && t.blocked == s.blocked && t.allowed == s.allowed
            && Count(t.jobs, x.id) == 1 && Count(t.parked, x.id) == 0
            && exists y :: y in t.jobs && y == x.(start := if x.start < t.now then t.now else x.start, stamp := y.stamp)
  {
    ExecGood(s, p);
    ListedOnce(Exec(s, p).s, x);
  }

  lemma ListedOnce(t: State, x: Job)
    requires Inv(t) && Listed(t, x)
    ensures Count(t.jobs, x.id) == 1 && Count(t.parked, x.id) == 0
    ensures exists y :: y in t.jobs && y == x.(start := if x.start < t.now then t.now else x.start, stamp := y.stamp)
  {
    var y :| y in t.jobs && Carried(x, y, t.now);
    PlainBelowHalf(t.now, y.start);
    CountMember(t.jobs, x.id);
    assert Total(t.jobs, t.parked, x.id) <= 1;
  }

  // ------------------------------------------------------------ the clock bound is needed

  /** A job added while its group is blocked is parked with start 0. Whatever else is listed
      or parked when it may run again, it then comes back at the current time exactly when
      the clock is below 2^63; beyond that its start stays 0, which then lies in the future. */
  lemma ParkedAddReturnsNowIff(s: State, j: Job, later: State, groups: set<nat>, job: Option<nat>) returns (y: Job)
    requires !Eligible(s, j) && j.(start := 0) in later.parked && (j.group !in groups || job == Some(j.id))
    ensures j.(start := 0) in AddJob(s, j).parked
    ensures y in Restore(later, groups, job).jobs && y == j.(start := y.start, stamp := y.stamp)
    ensures y.start == later.now <==> later.now < TWO63
    ensures later.now >= TWO63 ==> y.start == 0
  {
    var b := later.(blocked := groups, allowed := job);
    y := UnparkBack(b.(parked := []), b.parked, j.(start := 0));
    UnparkParked(b.(parked := []), b.parked);
    var m := RestoreBlocked(b);
    ParkEffect(m.(jobs := []), m.jobs);
  }

  lemma ParkedAddLosesItsTurn()
    ensures var s := State(TWO63, [], [], {0}, None, 0, {});
            var r := Restore(AddJob(s, Job(1, TWO63, 0, 0, 0)), {}, None);
            r.now == TWO63 && exists y :: y in r.jobs && y.id == 1 && y.start == 0
  {
    var s := State(TWO63, [], [], {0}, None, 0, {});
    var j := Job(1, TWO63, 0, 0, 0);
    var a := AddJob(s, j);
    assert j.(start := 0) in a.parked;
    var y := ParkedAddReturnsNowIff(s, j, a, {}, None);
    UnparkParked(a.(parked := [], blocked := {}, allowed := None), a.parked);
    var m := RestoreBlocked(a.(blocked := {}, allowed := None));
    ParkEffect(m.(jobs := []), m.jobs);
  }
}
