/** What group blocking means: a set of jobs that are ready and a set that are held back, a
    clock and a mask. The two lists of module GroupBlocking refine it for every program. */
module GroupBlockingSpec {
  import opened Wrappers
  import opened CyclicTime
  import opened JobList
  import opened GroupBlocking

  datatype Due = Due(id: nat, start: Time, priority: nat, group: nat)

  /** Jobs that are held back are due at the current time at the earliest. */
  datatype Plan = Plan(now: Time, blocked: set<nat>, allowed: Option<nat>, ready: set<Due>, held: set<Due>)

  ghost predicate MayRun(a: Plan, d: Due) { d.group !in a.blocked || a.allowed == Some(d.id) }

  function Delayed(d: Due, now: Time): Due { if d.start < now then d.(start := now) else d }

  ghost function Delay(ds: set<Due>, now: Time): set<Due> { set d | d in ds :: Delayed(d, now) }

  ghost predicate Known(a: Plan, id: nat) { exists d :: d in a.ready + a.held && d.id == id }

  /** Nothing that is ready is due before `d`, or at the same time with higher priority. */
  ghost predicate IsNext(a: Plan, d: Due) {
    d in a.ready && forall x :: x in a.ready ==> d.start < x.start || (d.start == x.start && x.priority <= d.priority)
  }

  ghost function Others(ds: set<Due>, id: nat): set<Due> { set d | d in ds && d.id != id }

  ghost function Free(a: Plan, ds: set<Due>): set<Due> { set d | d in ds && MayRun(a, d) }

  ghost function Stopped(a: Plan, ds: set<Due>): set<Due> { set d | d in ds && !MayRun(a, d) }

  /** When the code's assertions fail. */
  ghost predicate Refuses(a: Plan, op: Op) {
    match op
    case Add(id, start, _, group) => start < a.now || Known(a, id) || group >= 32
    case Del(_) => false
    case Next => a.ready == {}
    case Advance(to) => to < a.now || exists d :: d in a.ready && d.start < to
  }

  ghost predicate SpecStep(a: Plan, op: Op, b: Plan) {
    match op
    case Add(id, start, priority, group) =>
      if MayRun(a, Due(id, start, priority, group)) then b == a.(ready := a.ready + {Due(id, start, priority, group)})
      else b == a.(held := a.held + {Due(id, a.now, priority, group)})
    case Del(id) => b == a.(ready := Others(a.ready, id), held := Others(a.held, id))
    case Next => exists d :: IsNext(a, d) && b == a.(now := d.start, ready := a.ready - {d}, held := Delay(a.held, d.start))
    case Advance(to) => b == a.(now := to, held := Delay(a.held, to))
  }

  /** Blocking holds back what may not run any more; it lets nothing go. */
  ghost function SpecBlock(a: Plan, groups: set<nat>, job: Option<nat>): Plan {
    var b := a.(blocked := a.blocked + groups, allowed := job);
    b.(ready := Free(b, a.ready), held := a.held + Stopped(b, a.ready))
  }

  /** Restoring makes ready exactly what may run. */
  ghost function SpecRestore(a: Plan, groups: set<nat>, job: Option<nat>): Plan {
    var b := a.(blocked := groups, allowed := job);
    b.(ready := Free(b, a.ready + a.held), held := Stopped(b, a.ready + a.held))
  }

  ghost predicate SpecExec(a: Plan, p: Prog, b: Plan)
    decreases p
  {
    match p
    case Done => b == a
    case Then(op, rest) => !Refuses(a, op) && exists m :: SpecStep(a, op, m) && SpecExec(m, rest, b)
    case Nest(groups, job, group, body, rest) =>
      && (job.Some? ==> group in groups + a.blocked)
      && exists m :: SpecExec(SpecBlock(a, groups, job), body, m) && SpecExec(SpecRestore(m, a.blocked, a.allowed), rest, b)
  }

  // ------------------------------------------------------------ the lists as such a plan

  function Of(j: Job): Due { Due(j.id, j.start, j.priority, j.group) }

  ghost function Dues(l: seq<Job>): set<Due> { set j | j in l :: Of(j) }

  ghost function PlanOf(s: State): Plan {
    Plan(s.now, s.blocked, s.allowed, Dues(s.jobs), Delay(Dues(s.parked), s.now))
  }

  lemma DueOf(l: seq<Job>, d: Due)
    ensures d in Dues(l) <==> exists j :: j in l && Of(j) == d
  {
  }

  // ------------------------------------------------------------ block and restore

  lemma DelayUnion(a: set<Due>, b: set<Due>, now: Time)
    ensures Delay(a + b, now) == Delay(a, now) + Delay(b, now)
  {
    forall d ensures d in Delay(a + b, now) <==> d in Delay(a, now) + Delay(b, now) {
      if d in Delay(a, now) { var x :| x in a && Delayed(x, now) == d; assert x in a + b; }
      if d in Delay(b, now) { var x :| x in b && Delayed(x, now) == d; assert x in a + b; }
    }
  }

  lemma DelayNothing(a: set<Due>, now: Time)
    requires forall d :: d in a ==> now <= d.start
    ensures Delay(a, now) == a
  {
    forall d ensures d in Delay(a, now) <==> d in a {
      if d in a { assert Delayed(d, now) == d; }
    }
  }

  lemma ReadyAhead(s: State)
    requires Times(s)
    ensures forall d :: d in Dues(s.jobs) ==> s.now <= d.start
  {
    forall j | j in s.jobs ensures s.now <= j.start {
      PlainBelowHalf(s.now, j.start);
    }
  }

  /** Both sets after what may not run has been parked. */
  lemma ParkDues(s: State, a: Plan)
    requires Times(s) && a.blocked == s.blocked && a.allowed == s.allowed
    ensures var r := RemoveBlocked(s);
            && Dues(r.jobs) == Free(a, Dues(s.jobs))
            && Delay(Dues(r.parked), s.now) == Delay(Dues(s.parked), s.now) + Stopped(a, Dues(s.jobs))
            && r.now == s.now && r.blocked == s.blocked && r.allowed == s.allowed
  {
    var r := RemoveBlocked(s);
    ParkEffect(s.(jobs := []), s.jobs);
    forall d ensures d in Dues(r.jobs) <==> d in Free(a, Dues(s.jobs)) {
      if d in Free(a, Dues(s.jobs)) { var j :| j in s.jobs && Of(j) == d; assert j in r.jobs; }
    }
    forall d ensures d in Dues(r.parked) <==> d in Dues(s.parked) + Stopped(a, Dues(s.jobs)) {
      if d in Dues(s.parked) { var j :| j in s.parked && Of(j) == d; assert j in r.parked; }
      if d in Stopped(a, Dues(s.jobs)) { var j :| j in s.jobs && Of(j) == d; assert j in r.parked; }
    }
    assert Dues(r.parked) == Dues(s.parked) + Stopped(a, Dues(s.jobs));
    DelayUnion(Dues(s.parked), Stopped(a, Dues(s.jobs)), s.now);
    ReadyAhead(s);
    DelayNothing(Stopped(a, Dues(s.jobs)), s.now);
  }

  lemma BlockRefines(s: State, groups: set<nat>, job: Option<nat>)
    requires Inv(s)
    ensures PlanOf(Block(s, groups, job)) == SpecBlock(PlanOf(s), groups, job)
  {
    var a := PlanOf(s);
    ParkDues(s.(blocked := s.blocked + groups, allowed := job), a.(blocked := a.blocked + groups, allowed := job));
  }

  /** Nothing is on the list but what was there and what came back. */
  lemma {:induction false} UnparkFrom(s: State, l: seq<Job>, y: Job)
    ensures y in Unpark(s, l).jobs ==> y in s.jobs || exists x :: x in l && Eligible(s, x) && Returned(x, y, s.now)
    decreases |l|
  {
    if l != [] {
      var j := l[0].(start := Later(l[0].start, s.now));
      UnparkFrom(if Eligible(s, l[0]) then List(s, j) else s.(parked := s.parked + [l[0]]), l[1..], y);
      if Eligible(s, l[0]) {
        assert Returned(l[0], j.(stamp := s.stamps), s.now);
      }
    }
  }

  lemma ReturnedDelayed(x: Job, y: Job, now: Time)
    requires x.start < TWO63 && now < TWO63 && Returned(x, y, now)
    ensures Of(y) == Delayed(Of(x), now)
  {
    PlainBelowHalf(x.start, now);
  }

  /** What may run comes back, due now at the earliest. */
  lemma UnparkDues(s: State, a: Plan)
    requires Times(s) && a.blocked == s.blocked && a.allowed == s.allowed
    ensures var r := RestoreBlocked(s);
            && Dues(r.jobs) == Dues(s.jobs) + Free(a, Delay(Dues(s.parked), s.now))
            && Delay(Dues(r.parked), s.now) == Stopped(a, Delay(Dues(s.parked), s.now))
            && r.now == s.now && r.blocked == s.blocked && r.allowed == s.allowed
  {
    var r, b := RestoreBlocked(s), s.(parked := []);
    UnparkParked(b, s.parked);
    forall d ensures d in Dues(r.jobs) <==> d in Dues(s.jobs) + Free(a, Delay(Dues(s.parked), s.now)) {
      if d in Dues(r.jobs) {
        var y :| y in r.jobs && Of(y) == d;
        UnparkFrom(b, s.parked, y);
        if y !in s.jobs {
          var x :| x in s.parked && Eligible(s, x) && Returned(x, y, s.now);
          ReturnedDelayed(x, y, s.now);
          assert Of(x) in Dues(s.parked);
        }
      }
      if d in Dues(s.jobs) { var j :| j in s.jobs && Of(j) == d; assert j in r.jobs; }
      if d in Free(a, Delay(Dues(s.parked), s.now)) { FreeReturns(s, a, d); }
    }
    StoppedStays(s, a);
  }

  lemma FreeReturns(s: State, a: Plan, d: Due)
    requires Times(s) && a.blocked == s.blocked && a.allowed == s.allowed && d in Free(a, Delay(Dues(s.parked), s.now))
    ensures d in Dues(RestoreBlocked(s).jobs)
  {
    var e :| e in Dues(s.parked) && Delayed(e, s.now) == d;
    var x :| x in s.parked && Of(x) == e;
    var y := UnparkBack(s.(parked := []), s.parked, x);
    ReturnedDelayed(x, y, s.now);
  }

  lemma StoppedStays(s: State, a: Plan)
    requires a.blocked == s.blocked && a.allowed == s.allowed
    ensures Delay(Dues(RestoreBlocked(s).parked), s.now) == Stopped(a, Delay(Dues(s.parked), s.now))
  {
    var r := RestoreBlocked(s);
    UnparkParked(s.(parked := []), s.parked);
    forall d ensures d in Delay(Dues(r.parked), s.now) <==> d in Stopped(a, Delay(Dues(s.parked), s.now)) {
      if d in Delay(Dues(r.parked), s.now) {
        var e :| e in Dues(r.parked) && Delayed(e, s.now) == d;
        var x :| x in r.parked && Of(x) == e;
        assert x in s.parked && Of(x) in Dues(s.parked);
      }
      if d in Stopped(a, Delay(Dues(s.parked), s.now)) {
        var e :| e in Dues(s.parked) && Delayed(e, s.now) == d;
        var x :| x in s.parked && Of(x) == e;
        assert x in r.parked && Of(x) in Dues(r.parked);
      }
    }
  }

  lemma RestoreRefines(s: State, groups: set<nat>, job: Option<nat>)
    requires Times(s) && Unique(s)
    ensures PlanOf(Restore(s, groups, job)) == SpecRestore(PlanOf(s), groups, job)
  {
    var a := PlanOf(s);
    var c, b := a.(blocked := groups, allowed := job), s.(blocked := groups, allowed := job);
    UnparkDues(b, c);
    RestoreBlockedGood(b);
    ParkDues(RestoreBlocked(b), c);
    var r := SpecRestore(a, groups, job);
    assert Free(c, Dues(s.jobs) + Free(c, a.held)) == r.ready;
    assert Stopped(c, a.held) + Stopped(c, Dues(s.jobs) + Free(c, a.held)) == r.held;
  }

  // ------------------------------------------------------------ single operations

  /** What usfstl_sched_add_job leaves on the lists. */
  lemma AddEffect(s: State, j: Job)
    ensures var t := AddJob(s, j);
            if j.group !in s.blocked || s.allowed == Some(j.id) then
              t.parked == s.parked && forall x :: x in t.jobs <==> x in s.jobs || x == j.(stamp := s.stamps)
            else t.jobs == s.jobs && t.parked == s.parked + [j.(start := 0)]
  {
  }

  lemma KnownIs(s: State, id: nat)
    ensures Known(PlanOf(s), id) <==> Scheduled(s.jobs + s.parked, id)
  {
    var a := PlanOf(s);
    if Known(a, id) {
      var d :| d in a.ready + a.held && d.id == id;
      if d in a.ready {
        var j :| j in s.jobs && Of(j) == d;
        assert j in s.jobs + s.parked;
      } else {
        var e :| e in Dues(s.parked) && Delayed(e, s.now) == d;
        var j :| j in s.parked && Of(j) == e;
        assert j in s.jobs + s.parked;
      }
    }
    if Scheduled(s.jobs + s.parked, id) {
      var j :| j in s.jobs + s.parked && j.id == id;
      if j in s.jobs { assert Of(j) in a.ready; } else { assert Of(j) in Dues(s.parked) && Delayed(Of(j), s.now) in a.held; }
    }
  }

  lemma AddRefines(s: State, j: Job)
    requires Inv(s) && j.start < TWO63 && s.now <= j.start
    ensures SpecStep(PlanOf(s), Add(j.id, j.start, j.priority, j.group), PlanOf(AddJob(s, j)))
  {
    AddEffect(s, j);
    var t := AddJob(s, j);
    if Eligible(s, j) {
      AddReady(s, t, j.(stamp := s.stamps));
    } else {
      AddHeld(s, t, j.(start := 0));
    }
  }

  lemma AddReady(s: State, t: State, n: Job)
    requires t == s.(jobs := t.jobs, stamps := t.stamps) && forall x :: x in t.jobs <==> x in s.jobs || x == n
    ensures PlanOf(t) == PlanOf(s).(ready := PlanOf(s).ready + {Of(n)})
  {
    DuesWith(s.jobs, t.jobs, n);
  }

  lemma AddHeld(s: State, t: State, n: Job)
    requires t == s.(parked := t.parked) && t.parked == s.parked + [n] && n.start == 0
    ensures PlanOf(t) == PlanOf(s).(held := PlanOf(s).held + {Of(n).(start := s.now)})
  {
    DuesWith(s.parked, t.parked, n);
    DelayUnion(Dues(s.parked), {Of(n)}, s.now);
    assert Delay({Of(n)}, s.now) == {Delayed(Of(n), s.now)};
  }

  lemma DuesWith(l: seq<Job>, r: seq<Job>, n: Job)
    requires forall x :: x in r <==> x in l || x == n
    ensures Dues(r) == Dues(l) + {Of(n)}
  {
    forall d ensures d in Dues(r) <==> d in Dues(l) + {Of(n)} {
      if d == Of(n) { assert n in r; }
      if d in Dues(l) { var x :| x in l && Of(x) == d; assert x in r; }
    }
  }

  lemma DelRefines(s: State, id: nat)
    ensures SpecStep(PlanOf(s), Del(id), PlanOf(Step(s, Del(id)).s))
  {
    var a, t := PlanOf(s), Step(s, Del(id)).s;
    DeleteDues(s.jobs, id);
    DeleteDues(s.parked, id);
    DelayOthers(Dues(s.parked), id, s.now);
  }

  lemma DeleteDues(l: seq<Job>, id: nat)
    ensures Dues(Delete(l, id)) == Others(Dues(l), id)
  {
    forall d ensures d in Dues(Delete(l, id)) <==> d in Others(Dues(l), id) {
      if d in Others(Dues(l), id) { var j :| j in l && Of(j) == d; assert j in Delete(l, id); }
    }
  }

  lemma DelayOthers(ds: set<Due>, id: nat, now: Time)
    ensures Delay(Others(ds, id), now) == Others(Delay(ds, now), id)
  {
    forall d ensures d in Delay(Others(ds, id), now) <==> d in Others(Delay(ds, now), id) {
      if d in Others(Delay(ds, now), id) { var e :| e in ds && Delayed(e, now) == d; assert e in Others(ds, id); }
    }
  }

  lemma DelayTwice(ds: set<Due>, now: Time, next: Time)
    requires now <= next
    ensures Delay(Delay(ds, now), next) == Delay(ds, next)
  {
    forall d ensures d in Delay(Delay(ds, now), next) <==> d in Delay(ds, next) {
      if d in Delay(ds, next) {
        var e :| e in ds && Delayed(e, next) == d;
        assert Delayed(e, now) in Delay(ds, now) && Delayed(Delayed(e, now), next) == d;
      }
    }
  }

  lemma NextRefines(s: State)
    requires Inv(s) && s.jobs != []
    ensures SpecStep(PlanOf(s), Next, PlanOf(Step(s, Next).s))
  {
    var a, t, h := PlanOf(s), Step(s, Next).s, s.jobs[0];
    assert h in s.jobs;
    PlainBelowHalf(h.start, s.now);
    PlainBelowHalf(s.now, h.start);
    HeadNext(s);
    TailDues(s);
    DelayTwice(Dues(s.parked), s.now, h.start);
  }

  lemma HeadNext(s: State)
    requires Inv(s) && s.jobs != []
    ensures IsNext(PlanOf(s), Of(s.jobs[0]))
  {
    var a, h := PlanOf(s), s.jobs[0];
    assert h in s.jobs;
    forall x | x in a.ready ensures h.start < x.start || (h.start == x.start && x.priority <= h.priority) {
      var j :| j in s.jobs && Of(j) == x;
      var k :| 0 <= k < |s.jobs| && s.jobs[k] == j;
      if k > 0 {
        BeforePlain(s.now, h, j);
      }
    }
  }

  lemma BeforePlain(now: Time, x: Job, y: Job)
    requires Before(now, x, y) && Le(now, x.start) && Le(now, y.start) && now < TWO63 && x.start < TWO63 && y.start < TWO63
    ensures x.start < y.start || (x.start == y.start && y.priority <= x.priority)
  {
    PlainBelowHalf(now, x.start);
    PlainBelowHalf(now, y.start);
  }

  lemma TailDues(s: State)
    requires Unique(s) && s.jobs != []
    ensures Dues(s.jobs[1..]) == Dues(s.jobs) - {Of(s.jobs[0])}
  {
    var h, rest := s.jobs[0], s.jobs[1..];
    assert Total(s.jobs, s.parked, h.id) <= 1;
    CountMember(rest, h.id);
    assert s.jobs == [h] + rest;
    forall d ensures d in Dues(rest) <==> d in Dues(s.jobs) - {Of(h)} {
      if d in Dues(s.jobs) - {Of(h)} { var j :| j in s.jobs && Of(j) == d; assert j in rest; }
    }
  }

  lemma StepRefines(s: State, op: Op)
    requires Inv(s) && OpEarly(op)
    ensures Step(s, op).Aborted? <==> Refuses(PlanOf(s), op)
    ensures Step(s, op).Ok? ==> SpecStep(PlanOf(s), op, PlanOf(Step(s, op).s))
  {
    match op
    case Add(id, start, priority, group) =>
      KnownIs(s, id);
      PlainBelowHalf(start, s.now);
      if Step(s, op).Ok? { AddRefines(s, Job(id, start, priority, group, s.stamps)); }
    case Del(id) => DelRefines(s, id);
    case Next =>
      if s.jobs != [] { assert Of(s.jobs[0]) in PlanOf(s).ready; NextRefines(s); }
    case Advance(to) => AdvanceRefines(s, to);
  }

  lemma AdvanceRefines(s: State, to: Time)
    requires Inv(s) && to < TWO63
    ensures Step(s, Advance(to)).Aborted? <==> Refuses(PlanOf(s), Advance(to))
    ensures Step(s, Advance(to)).Ok? ==> SpecStep(PlanOf(s), Advance(to), PlanOf(Step(s, Advance(to)).s))
  {
    PlainBelowHalf(to, s.now);
    if s.jobs != [] {
      HeadNext(s);
      assert s.jobs[0] in s.jobs;
      PlainBelowHalf(to, s.jobs[0].start);
    }
    if s.now <= to {
      DelayTwice(Dues(s.parked), s.now, to);
    }
  }

  // ------------------------------------------------------------ programs

  /** Every program with nested blocking does to the lists what it does to the plan: each job
      it adds is ready at its time, or held back; blocking and restoring only move jobs between
      the two sets; each job executed is the next one that is ready; nothing else changes. */
  lemma {:induction false} ExecRefines(s: State, p: Prog)
    requires Inv(s) && Early(p) && Exec(s, p).Ok?
    ensures SpecExec(PlanOf(s), p, PlanOf(Exec(s, p).s))
    decreases p
  {
    match p
    case Done =>
    case Then(op, rest) =>
      StepGood(s, op);
      StepRefines(s, op);
      ExecRefines(Step(s, op).s, rest);
    case Nest(groups, job, group, body, rest) =>
      var b := Block(s, groups, job);
      BlockGood(s, groups, job);
      BlockRefines(s, groups, job);
      ExecGood(b, body);
      ExecRefines(b, body);
      var u := Exec(b, body).s;
      RestoreGood(u, s.blocked, s.allowed);
      RestoreRefines(u, s.blocked, s.allowed);
      ExecRefines(Restore(u, s.blocked, s.allowed), rest);
  }
}
