/** The scheduler's ordered job list (src/sched.c) as a sequence. */
module JobList {
  import opened CyclicTime

  /** A queued job. `stamp` counts insertions; the code never reads it, it only
      lets the order of insertion be stated. */
  datatype Job = Job(id: nat, start: Time, priority: nat, group: nat, stamp: nat)

  /** The insertion scan of usfstl_sched_add_job stops in front of `x`. */
  predicate Stops(x: Job, j: Job) {
    Gt(x.start, j.start) || (x.start == j.start && x.priority < j.priority)
  }

  /** Index at which usfstl_sched_add_job inserts `j`. */
  function Position(l: seq<Job>, j: Job): (p: nat)
    ensures p <= |l|
    ensures forall i :: 0 <= i < p ==> !Stops(l[i], j)
    ensures p < |l| ==> Stops(l[p], j)
  {
    if l == [] || Stops(l[0], j) then 0 else 1 + Position(l[1..], j)
  }

  lemma PositionUnique(l: seq<Job>, j: Job, k: nat)
    requires k <= |l| && forall i :: 0 <= i < k ==> !Stops(l[i], j)
    requires k < |l| ==> Stops(l[k], j)
    ensures Position(l, j) == k
  {
  }

  function Insert(l: seq<Job>, j: Job): (r: seq<Job>)
    ensures |r| == |l| + 1
    ensures multiset(r) == multiset(l) + multiset{j}
    ensures forall x :: x in r <==> x == j || x in l
  {
    var p := Position(l, j);
    assert l == l[..p] + l[p..];
    l[..p] + [j] + l[p..]
  }

  /** The list without the job `id` (usfstl_sched_del_job). */
  function Delete(l: seq<Job>, id: nat): (r: seq<Job>)
    ensures forall x :: x in r <==> x in l && x.id != id
  {
    if l == [] then [] else (if l[0].id == id then [] else [l[0]]) + Delete(l[1..], id)
  }

  /** Execution order: start time, then descending priority, then insertion order. */
  predicate Before(now: Time, x: Job, y: Job) {
    || Dist(now, x.start) < Dist(now, y.start)
    || (x.start == y.start && x.priority > y.priority)
    || (x.start == y.start && x.priority == y.priority && x.stamp < y.stamp)
  }

  ghost predicate Sorted(now: Time, l: seq<Job>) {
    forall i, j :: 0 <= i < j < |l| ==> Before(now, l[i], l[j])
  }

  ghost predicate Ahead(now: Time, l: seq<Job>) {
    forall x :: x in l ==> Le(now, x.start)
  }

  lemma StopsIsBefore(now: Time, x: Job, j: Job)
    requires Le(now, x.start) && Le(now, j.start) && x.stamp < j.stamp
    ensures Stops(x, j) <==> Before(now, j, x)
    ensures !Stops(x, j) <==> Before(now, x, j)
  {
    WindowOrder(now, x.start, j.start);
  }

  lemma BeforeTransitive(now: Time, x: Job, y: Job, z: Job)
    requires Le(now, x.start) && Le(now, y.start) && Le(now, z.start)
    requires Before(now, x, y) && Before(now, y, z)
    ensures Before(now, x, z)
  {
    WindowOrder(now, x.start, y.start);
    WindowOrder(now, y.start, z.start);
  }

  /** Insertion keeps the list sorted by start, descending priority and insertion order. */
  lemma InsertSorted(now: Time, l: seq<Job>, j: Job)
    requires Sorted(now, l) && Ahead(now, l) && Le(now, j.start)
    requires forall x :: x in l ==> x.stamp < j.stamp
    ensures Sorted(now, Insert(l, j)) && Ahead(now, Insert(l, j))
  {
    var p, r := Position(l, j), Insert(l, j);
    forall i | 0 <= i < |l| ensures i < p ==> Before(now, l[i], j) ensures i >= p ==> Before(now, j, l[i]) {
      StopsIsBefore(now, l[i], j);
      if i > p {
        StopsIsBefore(now, l[p], j);
        BeforeTransitive(now, j, l[p], l[i]);
      }
    }
  }

  lemma DeleteSorted(now: Time, l: seq<Job>, id: nat)
    requires Sorted(now, l)
    ensures Sorted(now, Delete(l, id))
  {
    if l != [] {
      DeleteSorted(now, l[1..], id);
      var t := Delete(l[1..], id);
      forall y | y in t ensures Before(now, l[0], y) {
        assert y in l[1..];
        var k :| 0 <= k < |l[1..]| && l[1..][k] == y;
        assert l[k + 1] == y;
      }
    }
  }

  /** Order does not depend on the base, as long as the base passes neither job. */
  lemma BeforeAdvances(now: Time, next: Time, x: Job, y: Job)
    requires Le(now, next) && Le(now, x.start) && Le(now, y.start)
    requires Le(next, x.start) && Le(next, y.start)
    ensures Before(now, x, y) <==> Before(next, x, y)
  {
    Advance(now, next, x.start);
    Advance(now, next, y.start);
  }

  lemma SortedAdvances(now: Time, next: Time, l: seq<Job>)
    requires Le(now, next) && Ahead(now, l) && Ahead(next, l) && Sorted(now, l)
    ensures Sorted(next, l)
  {
    forall i, j | 0 <= i < j < |l| ensures Before(next, l[i], l[j]) {
      BeforeAdvances(now, next, l[i], l[j]);
    }
  }

  /** The first job of a sorted list: time may move up to it without passing any job. */
  lemma HeadIsFirst(now: Time, l: seq<Job>)
    requires l != [] && Sorted(now, l) && Ahead(now, l)
    ensures Ahead(l[0].start, l)
    ensures forall x :: x in l ==> Dist(now, l[0].start) <= Dist(now, x.start)
  {
    forall x | x in l
      ensures Le(l[0].start, x.start) && Dist(now, l[0].start) <= Dist(now, x.start)
    {
      WindowOrder(now, l[0].start, x.start);
    }
  }

  ghost predicate Scheduled(l: seq<Job>, id: nat) { exists x :: x in l && x.id == id }
}
