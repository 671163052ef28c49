/** The two walks of group blocking (src/sched.c) on the linked lists: items leave the list
    that is being walked. */
module BlockingWalk {
  import opened CyclicTime
  import opened JobList
  import opened IntrusiveList
  import GroupBlocking

  /** The jobs for which `moves` is (or is not) true, in order. */
  ghost function Matching(l: seq<Job>, moves: Job -> bool, yes: bool): seq<Job> {
    if l == [] then []
    else Matching(l[..|l| - 1], moves, yes) + (if moves(l[|l| - 1]) == yes then [l[|l| - 1]] else [])
  }

  /** usfstl_sched_restore_job: a job comes back not before `now`, as the latest insertion. */
  function Back(j: Job, now: Time, stamp: nat): Job { j.(start := Later(j.start, now), stamp := stamp) }

  /** An item that leaves is appended to the other list, or brought back into it. */
  datatype Way = Park | Bring(now: Time, stamps: nat)

  /** The other list `p` after it is given `j`, as the item number `n`. */
  function Give(way: Way, p: seq<Job>, j: Job, n: nat): seq<Job> {
    match way
    case Park => p + [j]
    case Bring(now, stamps) => Insert(p, Back(j, now, stamps + n))
  }

  /** The other list at the start and after each of the items `moved`. */
  ghost predicate Gave(way: Way, trace: seq<seq<Job>>, moved: seq<Job>) {
    && |trace| == |moved| + 1
    && forall i, n :: 0 <= i < |moved| && n == i + 1 ==> trace[n] == Give(way, trace[i], moved[i], i)
  }

  lemma GaveNext(way: Way, trace: seq<seq<Job>>, moved: seq<Job>, j: Job, q: seq<Job>)
    requires Gave(way, trace, moved) && q == Give(way, trace[|moved|], j, |moved|)
    ensures Gave(way, trace + [q], moved + [j]) && (trace + [q])[0] == trace[0]
  {
    var t, l := trace + [q], moved + [j];
    forall i, n | 0 <= i < |l| && n == i + 1 ensures t[n] == Give(way, t[i], l[i], i) {
      if i < |moved| {
        assert trace[n] == Give(way, trace[i], moved[i], i);
      }
    }
  }

  /** `m` items of `was` have been visited: the list `l` has kept the first `k`, the other list,
      now `p`, has been given the rest, and what follows has not been touched. */
  ghost predicate Walked(
      way: Way, trace: seq<seq<Job>>, l: seq<Job>, p: seq<Job>, k: nat, m: nat, moves: Job -> bool, was: seq<Job>) {
    && k <= |l| && m <= |was|
    && l == Matching(was[..m], moves, false) + was[m..] && k == |Matching(was[..m], moves, false)|
    && Gave(way, trace, Matching(was[..m], moves, true)) && p == trace[|trace| - 1]
  }

  lemma WalkedNext(way: Way, trace: seq<seq<Job>>, l: seq<Job>, p: seq<Job>, k: nat, m: nat, moves: Job -> bool, was: seq<Job>)
    requires Walked(way, trace, l, p, k, m, moves, was) && k < |l|
    ensures m < |was| && l[k] == was[m] && m == k + |trace| - 1
    ensures !moves(l[k]) ==> Walked(way, trace, l, p, k + 1, m + 1, moves, was)
    ensures moves(l[k]) ==>
              var q := Give(way, p, l[k], |trace| - 1);
              Walked(way, trace + [q], l[..k] + l[k + 1..], q, k, m + 1, moves, was) && (trace + [q])[0] == trace[0]
  {
    var kept, moved := Matching(was[..m], moves, false), Matching(was[..m], moves, true);
    MatchingNext(was, m, moves);
    MatchingCounts(was[..m], moves);
    Shifted(kept, was, m);
    assert l == kept + was[m..] && k == |kept|;
    if moves(l[k]) {
      GaveNext(way, trace, moved, l[k], Give(way, p, l[k], |moved|));
    }
  }

  lemma Shifted(kept: seq<Job>, was: seq<Job>, m: nat)
    requires m < |was|
    ensures kept + [was[m]] + was[m + 1..] == kept + was[m..]
    ensures (kept + was[m..])[..|kept|] + (kept + was[m..])[|kept| + 1..] == kept + was[m + 1..]
  {
  }

  lemma MatchingNext(was: seq<Job>, m: nat, moves: Job -> bool)
    requires m < |was|
    ensures Matching(was[..m + 1], moves, true) ==
              if moves(was[m]) then Matching(was[..m], moves, true) + [was[m]] else Matching(was[..m], moves, true)
    ensures Matching(was[..m + 1], moves, false) ==
              if moves(was[m]) then Matching(was[..m], moves, false) else Matching(was[..m], moves, false) + [was[m]]
  {
    assert was[..m + 1][..m] == was[..m];
  }

  lemma {:induction false} MatchingCounts(l: seq<Job>, moves: Job -> bool)
    ensures |Matching(l, moves, true)| + |Matching(l, moves, false)| == |l|
  {
    if l != [] { MatchingCounts(l[..|l| - 1], moves); }
  }

  lemma WalkedNone(way: Way, l: seq<Job>, p: seq<Job>, moves: Job -> bool)
    ensures Walked(way, [p], l, p, 0, 0, moves, l)
  {
  }

  lemma WalkedAll(way: Way, trace: seq<seq<Job>>, l: seq<Job>, p: seq<Job>, k: nat, m: nat, moves: Job -> bool, was: seq<Job>)
    requires Walked(way, trace, l, p, k, m, moves, was) && k == |l|
    ensures l == Matching(was, moves, false) && Gave(way, trace, Matching(was, moves, true)) && p == trace[|trace| - 1]
  {
    assert was[..m] == was;
  }

  // ------------------------------------------------------------ one item

  /** The item leaves its list and becomes the last of the other one. */
  method ParkItem(list: List, other: List, e: Entry, ghost k: nat)
    requires list.Valid() && other.Valid() && list.Apart(other) && k + 1 < |list.ring| && list.ring[k + 1] == e
    modifies list`ring, list.ring, other`ring, other.ring
    ensures list.Valid() && other.Valid() && list.Apart(other) && At(list.ring, k + 1) == old(At(list.ring, k + 2))
    ensures list.Contents() == old(list.Contents())[..k] + old(list.Contents())[k + 1..]
    ensures other.Contents() == old(other.Contents()) + [old(list.Contents())[k]]
    ensures forall x :: x in list.ring || x in other.ring ==> x in old(list.ring) || x in old(other.ring)
  {
    TakeItem(list, other, e, k);
    list.AppendApart(other, e);
  }

  /** usfstl_sched_del_job during the walk. */
  method TakeItem(list: List, other: List, e: Entry, ghost k: nat)
    requires list.Valid() && other.Valid() && list.Apart(other) && k + 1 < |list.ring| && list.ring[k + 1] == e
    modifies list`ring, list.ring
    ensures list.Valid() && other.Valid() && list.Apart(other) && e !in list.ring && e !in other.ring
    ensures At(list.ring, k + 1) == old(At(list.ring, k + 2)) && e.job == old(list.Contents())[k]
    ensures list.Contents() == old(list.Contents())[..k] + old(list.Contents())[k + 1..] && other.Contents() == old(other.Contents())
    ensures forall x :: x in list.ring ==> x in old(list.ring)
  {
    ghost var r, l := list.ring, list.Contents();
    list.RemoveApart(other, e, k + 1);
    Unlinked(r, k + 1, l);
  }

  /** usfstl_sched_restore_job: the item leaves its list and is inserted into the other one. */
  method BringItem(way: Way, list: List, other: List, e: Entry, count: nat, ghost k: nat)
    requires way.Bring? && list.Valid() && other.Valid() && list.Apart(other) && k + 1 < |list.ring| && list.ring[k + 1] == e
    modifies list`ring, list.ring, other`ring, other.ring
    ensures list.Valid() && other.Valid() && list.Apart(other) && At(list.ring, k + 1) == old(At(list.ring, k + 2))
    ensures list.Contents() == old(list.Contents())[..k] + old(list.Contents())[k + 1..]
    ensures other.Contents() == Give(way, old(other.Contents()), old(list.Contents())[k], count)
    ensures forall x :: x in list.ring || x in other.ring ==> x in old(list.ring) || x in old(other.ring)
  {
    assert e.job == list.Contents()[k];
    var job := Back(e.job, way.now, way.stamps + count);
    ghost var q := Give(way, other.Contents(), e.job, count);
    InsertItem(list, other, e, job, q, k);
  }

  method InsertItem(list: List, other: List, e: Entry, job: Job, ghost q: seq<Job>, ghost k: nat)
    requires list.Valid() && other.Valid() && list.Apart(other) && k + 1 < |list.ring| && list.ring[k + 1] == e
    requires q == Insert(other.Contents(), job)
    modifies list`ring, list.ring, other`ring, other.ring
    ensures list.Valid() && other.Valid() && list.Apart(other) && At(list.ring, k + 1) == old(At(list.ring, k + 2))
    ensures list.Contents() == old(list.Contents())[..k] + old(list.Contents())[k + 1..]
    ensures other.Contents() == q
    ensures forall x :: x in list.ring || x in other.ring ==> x in old(list.ring) || x in old(other.ring)
  {
    TakeItem(list, other, e, k);
    SetJob(list, other, e, job);
    list.AddApart(other, e);
  }

  method SetJob(list: List, other: List, e: Entry, job: Job)
    requires list.Valid() && other.Valid() && e !in list.ring && e !in other.ring
    modifies e`job
    ensures e.job == job && list.Valid() && other.Valid()
    ensures list.Contents() == old(list.Contents()) && other.Contents() == old(other.Contents())
  {
    e.job := job;
    list.Untouched();
    other.Untouched();
  }

  /** The item is given to the other list in the way of this walk. */
  method GiveItem(way: Way, list: List, other: List, e: Entry, count: nat, ghost k: nat)
    requires list.Valid() && other.Valid() && list.Apart(other) && k + 1 < |list.ring| && list.ring[k + 1] == e
    modifies list`ring, list.ring, other`ring, other.ring
    ensures list.Valid() && other.Valid() && list.Apart(other) && At(list.ring, k + 1) == old(At(list.ring, k + 2))
    ensures list.Contents() == old(list.Contents())[..k] + old(list.Contents())[k + 1..]
    ensures other.Contents() == Give(way, old(other.Contents()), old(list.Contents())[k], count)
    ensures forall x :: x in list.ring || x in other.ring ==> x in old(list.ring) || x in old(other.ring)
  {
    if way.Park? {
      ParkItem(list, other, e, k);
    } else {
      BringItem(way, list, other, e, count, k);
    }
  }

  // ------------------------------------------------------------ the walk

  /** The walk of `list` is at `item`, after `k` items that stay, having visited `m`. */
  ghost predicate Walking(
      all: set<Entry>, way: Way, trace: seq<seq<Job>>, list: List, other: List, item: Entry?, k: nat, m: nat,
      moves: Job -> bool, was: seq<Job>)
    reads list, list.ring, other, other.ring
  {
    && list.Valid() && other.Valid() && list.Apart(other) && k < |list.ring| && item == At(list.ring, k + 1)
    && (forall x :: x in list.ring ==> x in all) && (forall x :: x in other.ring ==> x in all)
    && Walked(way, trace, list.Contents(), other.Contents(), k, m, moves, was)
  }

  /** One turn of usfstl_for_each_list_item_continue_safe: the item after this one is taken
      before this one may leave the list. `count` is the number of items that have left. */
  method VisitItem(
      ghost all: set<Entry>, way: Way, ghost trace: seq<seq<Job>>, list: List, other: List, item: Entry, count: nat,
      ghost k: nat, ghost m: nat, moves: Job -> bool, ghost was: seq<Job>)
    returns (next: Entry?, count': nat, ghost k': nat, ghost trace': seq<seq<Job>>)
    requires Walking(all, way, trace, list, other, item, k, m, moves, was) && |trace| == count + 1
    modifies list`ring, other`ring, all
    ensures m < |was| && |trace'| == count' + 1 && trace'[0] == trace[0]
    ensures Walking(all, way, trace', list, other, next, k', m + 1, moves, was)
  {
    next := list.NextItem(item, k + 1);
    assert item.job == list.Contents()[k];
    WalkedNext(way, trace, list.Contents(), other.Contents(), k, m, moves, was);
    k', count', trace' := k + 1, count, trace;
    if moves(item.job) {
      GiveItem(way, list, other, item, count, k);
      k', count', trace' := k, count + 1, trace + [other.Contents()];
    }
  }

  method VisitItems(
      ghost all: set<Entry>, way: Way, ghost start: seq<Job>, list: List, other: List, first: Entry?, moves: Job -> bool,
      ghost was: seq<Job>)
    returns (ghost trace: seq<seq<Job>>, ghost k: nat, ghost m: nat)
    requires Walking(all, way, [start], list, other, first, 0, 0, moves, was)
    modifies list`ring, other`ring, all
    ensures Walking(all, way, trace, list, other, null, k, m, moves, was) && trace != [] && trace[0] == start
  {
    var item, count := first, 0;
    k, m, trace := 0, 0, [start];
    while item != null
      invariant Walking(all, way, trace, list, other, item, k, m, moves, was) && |trace| == count + 1 && trace[0] == start
      decreases |was| - m
    {
      item, count, k, trace := VisitItem(all, way, trace, list, other, item, count, k, m, moves, was);
      m := m + 1;
    }
  }

  lemma WalkStarts(way: Way, list: List, other: List, item: Entry?, moves: Job -> bool)
    requires list.Valid() && other.Valid() && list.Apart(other) && item == At(list.ring, 1)
    ensures Walking(Entries(list.ring, other.ring), way, [other.Contents()], list, other, item, 0, 0, moves, list.Contents())
  {
    WalkedNone(way, list.Contents(), other.Contents(), moves);
  }

  lemma WalkEnds(
      all: set<Entry>, way: Way, trace: seq<seq<Job>>, list: List, other: List, k: nat, m: nat, moves: Job -> bool, was: seq<Job>)
    requires Walking(all, way, trace, list, other, null, k, m, moves, was)
    ensures list.Valid() && other.Valid() && list.Apart(other) && list.Contents() == Matching(was, moves, false)
    ensures Gave(way, trace, Matching(was, moves, true)) && other.Contents() == trace[|trace| - 1]
  {
    WalkedAll(way, trace, list.Contents(), other.Contents(), k, m, moves, was);
  }

  /** The walk meets every item once, although items leave the list during it; those that stay
      keep their order, and those that leave are given to the other list in order. */
  method Walk(way: Way, list: List, other: List, moves: Job -> bool) returns (ghost trace: seq<seq<Job>>)
    requires list.Valid() && other.Valid() && list.Apart(other)
    modifies list`ring, list.ring, other`ring, other.ring
    ensures list.Valid() && other.Valid() && list.Apart(other)
    ensures list.Contents() == Matching(old(list.Contents()), moves, false)
    ensures Gave(way, trace, Matching(old(list.Contents()), moves, true))
    ensures trace[0] == old(other.Contents()) && other.Contents() == trace[|trace| - 1]
  {
    ghost var was, start, all := list.Contents(), other.Contents(), Entries(list.ring, other.ring);
    var item := list.NextItem(list.head, 0);
    WalkStarts(way, list, other, item, moves);
    ghost var k, m;
    trace, k, m := VisitItems(all, way, start, list, other, item, moves, was);
    WalkEnds(all, way, trace, list, other, k, m, moves, was);
  }

  /** usfstl_sched_remove_blocked_jobs on the job list. */
  method RemoveBlockedJobs(jobs: List, parked: List, mayRun: Job -> bool, ghost s: GroupBlocking.State)
    requires jobs.Valid() && parked.Valid() && jobs.Apart(parked) && s.jobs == jobs.Contents() && s.parked == parked.Contents()
    requires forall j :: mayRun(j) <==> GroupBlocking.Eligible(s, j)
    modifies jobs`ring, jobs.ring, parked`ring, parked.ring
    ensures jobs.Valid() && parked.Valid() && jobs.Apart(parked)
    ensures GroupBlocking.RemoveBlocked(s) == s.(jobs := jobs.Contents(), parked := parked.Contents())
  {
    var moves := (j: Job) => !mayRun(j);
    ghost var trace := Walk(Park, jobs, parked, moves);
    RemoveBlockedIs(s, moves, trace);
  }

  /** usfstl_sched_restore_blocked_jobs on the pending list; `stamps` counts insertions. */
  method RestoreBlockedJobs(jobs: List, parked: List, mayRun: Job -> bool, now: Time, stamps: nat, ghost s: GroupBlocking.State)
    requires jobs.Valid() && parked.Valid() && parked.Apart(jobs) && s.jobs == jobs.Contents() && s.parked == parked.Contents()
    requires s.now == now && s.stamps == stamps && forall j :: mayRun(j) <==> GroupBlocking.Eligible(s, j)
    modifies jobs`ring, jobs.ring, parked`ring, parked.ring
    ensures jobs.Valid() && parked.Valid() && parked.Apart(jobs)
    ensures var r := GroupBlocking.RestoreBlocked(s);
            r == s.(jobs := jobs.Contents(), parked := parked.Contents(), stamps := r.stamps)
  {
    ghost var trace := Walk(Bring(now, stamps), parked, jobs, mayRun);
    RestoreBlockedIs(s, mayRun, trace);
  }

  // ------------------------------------------------------------ against the model of group blocking

  /** Which of the items that leave is the one at `m`. */
  lemma {:induction false} MovedAt(l: seq<Job>, m: nat, moves: Job -> bool)
    requires m < |l|
    ensures var n := |Matching(l[..m], moves, true)|;
            && n <= |Matching(l, moves, true)|
            && (moves(l[m]) ==> n < |Matching(l, moves, true)| && Matching(l, moves, true)[n] == l[m])
            && |Matching(l[..m + 1], moves, true)| <= |Matching(l, moves, true)|
    decreases |l|
  {
    MatchingNext(l, m, moves);
    if m == |l| - 1 {
      assert l[..m + 1] == l;
    } else {
      var r := l[..|l| - 1];
      assert r[..m] == l[..m] && r[..m + 1] == l[..m + 1];
      MovedAt(r, m, moves);
      MatchingNext(l, |l| - 1, moves);
      assert l[..|l| - 1 + 1] == l;
    }
  }

  /** What the visit of the item at `m` does to both lists. */
  lemma NextGiven(way: Way, l: seq<Job>, m: nat, moves: Job -> bool, trace: seq<seq<Job>>)
    requires m < |l| && Gave(way, trace, Matching(l, moves, true))
    ensures var n, n' := |Matching(l[..m], moves, true)|, |Matching(l[..m + 1], moves, true)|;
            && n < |trace| && n' < |trace|
            && (if moves(l[m]) then n' == n + 1 && trace[n'] == Give(way, trace[n], l[m], n) else n' == n)
    ensures Matching(l[..m + 1], moves, false) ==
              if moves(l[m]) then Matching(l[..m], moves, false) else Matching(l[..m], moves, false) + [l[m]]
  {
    MatchingNext(l, m, moves);
    MovedAt(l, m, moves);
  }

  /** The job list has kept `kept`, and `n` items have been parked. */
  ghost function Parked(s: GroupBlocking.State, kept: seq<Job>, n: nat, trace: seq<seq<Job>>): GroupBlocking.State
    requires n < |trace|
  {
    s.(jobs := kept, parked := trace[n])
  }

  lemma {:induction false} ParkFrom(s: GroupBlocking.State, l: seq<Job>, m: nat, moves: Job -> bool, trace: seq<seq<Job>>)
    requires m <= |l| && forall j :: moves(j) <==> !GroupBlocking.Eligible(s, j)
    requires Gave(Park, trace, Matching(l, moves, true)) && |Matching(l[..m], moves, true)| < |trace|
    ensures GroupBlocking.Park(Parked(s, Matching(l[..m], moves, false), |Matching(l[..m], moves, true)|, trace), l[m..]) ==
              Parked(s, Matching(l, moves, false), |trace| - 1, trace)
    decreases |l| - m
  {
    if m == |l| {
      assert l[..m] == l;
    } else {
      assert l[m..][1..] == l[m + 1..];
      NextGiven(Park, l, m, moves, trace);
      ParkFrom(s, l, m + 1, moves, trace);
    }
  }

  lemma RemoveBlockedIs(s: GroupBlocking.State, moves: Job -> bool, trace: seq<seq<Job>>)
    requires forall j :: moves(j) <==> !GroupBlocking.Eligible(s, j)
    requires Gave(Park, trace, Matching(s.jobs, moves, true)) && trace[0] == s.parked
    ensures GroupBlocking.RemoveBlocked(s) == s.(jobs := Matching(s.jobs, moves, false), parked := trace[|trace| - 1])
  {
    assert s.jobs[..0] == [] && s.jobs[0..] == s.jobs;
    ParkFrom(s, s.jobs, 0, moves, trace);
  }

  /** The pending list has kept `kept`, and `n` items have been brought back. */
  ghost function Brought(s: GroupBlocking.State, kept: seq<Job>, n: nat, trace: seq<seq<Job>>): GroupBlocking.State
    requires n < |trace|
  {
    s.(jobs := trace[n], parked := kept, stamps := s.stamps + n)
  }

  lemma BringIsList(a: GroupBlocking.State, j: Job, q: seq<Job>)
    requires q == Insert(a.jobs, Back(j, a.now, a.stamps))
    ensures GroupBlocking.List(a, j.(start := Later(j.start, a.now))) == a.(jobs := q, stamps := a.stamps + 1)
  {
    assert j.(start := Later(j.start, a.now)).(stamp := a.stamps) == Back(j, a.now, a.stamps);
  }

  lemma BroughtNext(s: GroupBlocking.State, kept: seq<Job>, n: nat, trace: seq<seq<Job>>, j: Job)
    requires n + 1 < |trace| && trace[n + 1] == Give(Bring(s.now, s.stamps), trace[n], j, n)
    ensures var a := Brought(s, kept, n, trace);
            GroupBlocking.List(a, j.(start := Later(j.start, a.now))) == Brought(s, kept, n + 1, trace)
  {
    BringIsList(Brought(s, kept, n, trace), j, trace[n + 1]);
  }

  lemma UnparkNext(a: GroupBlocking.State, l: seq<Job>)
    requires l != []
    ensures GroupBlocking.Unpark(a, l) ==
              GroupBlocking.Unpark(if GroupBlocking.Eligible(a, l[0]) then GroupBlocking.List(a, l[0].(start := Later(l[0].start, a.now)))
                                   else a.(parked := a.parked + [l[0]]), l[1..])
  {
  }

  /** One item, from `kept` and `n` to `kept'` and `n'`. */
  lemma UnparkStep(
      s: GroupBlocking.State, kept: seq<Job>, n: nat, kept': seq<Job>, n': nat, trace: seq<seq<Job>>, l: seq<Job>,
      goal: GroupBlocking.State)
    requires l != [] && n < |trace| && n' < |trace| && goal == GroupBlocking.Unpark(Brought(s, kept, n, trace), l)
    requires if GroupBlocking.Eligible(s, l[0]) then
               kept' == kept && n' == n + 1 && trace[n'] == Give(Bring(s.now, s.stamps), trace[n], l[0], n)
             else kept' == kept + [l[0]] && n' == n
    ensures goal == GroupBlocking.Unpark(Brought(s, kept', n', trace), l[1..])
  {
    if GroupBlocking.Eligible(s, l[0]) {
      BroughtNext(s, kept, n, trace, l[0]);
    }
    UnparkNext(Brought(s, kept, n, trace), l);
  }

  lemma {:induction false} UnparkFrom(
      s: GroupBlocking.State, l: seq<Job>, m: nat, moves: Job -> bool, trace: seq<seq<Job>>, goal: GroupBlocking.State)
    requires m <= |l| && forall j :: moves(j) <==> GroupBlocking.Eligible(s, j)
    requires Gave(Bring(s.now, s.stamps), trace, Matching(l, moves, true)) && |Matching(l[..m], moves, true)| < |trace|
    requires goal == GroupBlocking.Unpark(Brought(s, Matching(l[..m], moves, false), |Matching(l[..m], moves, true)|, trace), l[m..])
    ensures goal == Brought(s, Matching(l, moves, false), |trace| - 1, trace)
    decreases |l| - m
  {
    if m == |l| {
      assert l[..m] == l;
    } else {
      NextGiven(Bring(s.now, s.stamps), l, m, moves, trace);
      assert l[m..][1..] == l[m + 1..];
      UnparkStep(s, Matching(l[..m], moves, false), |Matching(l[..m], moves, true)|,
                 Matching(l[..m + 1], moves, false), |Matching(l[..m + 1], moves, true)|, trace, l[m..], goal);
      UnparkFrom(s, l, m + 1, moves, trace, goal);
    }
  }

  lemma RestoreBlockedIs(s: GroupBlocking.State, moves: Job -> bool, trace: seq<seq<Job>>)
    requires forall j :: moves(j) <==> GroupBlocking.Eligible(s, j)
    requires Gave(Bring(s.now, s.stamps), trace, Matching(s.parked, moves, true)) && trace[0] == s.jobs
    ensures GroupBlocking.RestoreBlocked(s) ==
              s.(jobs := trace[|trace| - 1], parked := Matching(s.parked, moves, false), stamps := s.stamps + |trace| - 1)
  {
    assert s.parked[..0] == [] && s.parked[0..] == s.parked;
    UnparkFrom(s, s.parked, 0, moves, trace, GroupBlocking.RestoreBlocked(s));
  }
}
