/** What the steps of a tree of schedulers do to its jobs, and that jobs execute in the order of
    time across the whole tree. */
module ExternalSyncOrder {
  import opened Wrappers
  import opened ExternalSync

  // ------------------------------------------------------------ the bound handed down

  /** A bound that the scheduler may hand down: at most 2^62 away, not after its first job, and
      not after its own bound if that is not past. */
  ghost predicate MayHandDown(n: Node, t: int) {
    && t <= n.now + 0x4000_0000_0000_0000 && (n.jobs != [] ==> t <= n.jobs[0].start)
    && (n.sync.Some? && n.now <= n.sync.value ==> t <= n.sync.value)
  }

  /** usfstl_sched_get_sync_time is the latest of them, and not past. */
  lemma SyncIsLatest(n: Node, t: int)
    requires NotPast(n)
    ensures MayHandDown(n, t) <==> t <= GetSync(n)
    ensures n.now <= GetSync(n)
  {
    assert n.jobs != [] ==> n.jobs[0] in n.jobs;
  }

  // ------------------------------------------------------------ the list of a scheduler

  /** `y` does not come before `x`. */
  predicate NotAfter(x: Entry, y: Entry) { x.start < y.start || (x.start == y.start && x.priority >= y.priority) }

  /** By start, and by descending priority for the same start. */
  ghost predicate Ordered(l: seq<Entry>) { forall i, j :: 0 <= i < j < |l| ==> NotAfter(l[i], l[j]) }

  lemma OrderedCons(x: Entry, l: seq<Entry>)
    requires Ordered(l) && forall y :: y in l ==> NotAfter(x, y)
    ensures Ordered([x] + l)
  {
  }

  lemma OrderedTail(l: seq<Entry>)
    requires l != [] && Ordered(l)
    ensures Ordered(l[1..]) && forall y :: y in l[1..] ==> NotAfter(l[0], y)
  {
    forall y | y in l[1..] ensures NotAfter(l[0], y) {
      var k :| 0 <= k < |l[1..]| && l[1..][k] == y;
      assert l[k + 1] == y;
    }
  }

  lemma {:induction false} InsertCounts(l: seq<Entry>, e: Entry)
    ensures multiset(Insert(l, e)) == multiset(l) + multiset{e}
  {
    if l != [] && !Stops(l[0], e) {
      InsertCounts(l[1..], e);
      assert l == [l[0]] + l[1..];
    }
  }

  lemma {:induction false} InsertOrdered(l: seq<Entry>, e: Entry)
    requires Ordered(l)
    ensures Ordered(Insert(l, e))
  {
    if l != [] {
      OrderedTail(l);
      if Stops(l[0], e) {
        forall y | y in l ensures NotAfter(e, y) {
          assert l == [l[0]] + l[1..];
        }
        OrderedCons(e, l);
      } else {
        InsertOrdered(l[1..], e);
        InsertRequests(l[1..], e, 0);
        OrderedCons(l[0], Insert(l[1..], e));
      }
    }
  }

  lemma {:induction false} DeleteCounts(l: seq<Entry>, id: nat, x: Entry)
    ensures multiset(Delete(l, id))[x] == if x.Own? && x.id == id then 0 else multiset(l)[x]
  {
    if l != [] {
      DeleteCounts(l[1..], id, x);
      assert l == [l[0]] + l[1..];
    }
  }

  lemma {:induction false} DeleteOrdered(l: seq<Entry>, id: nat)
    requires Ordered(l)
    ensures Ordered(Delete(l, id))
  {
    if l != [] {
      OrderedTail(l);
      DeleteOrdered(l[1..], id);
      var r := Delete(l[1..], id);
      if !(l[0].Own? && l[0].id == id) {
        DeleteRequests(l[1..], id, 0);
        OrderedCons(l[0], r);
      } else {
        assert [] + r == r;
      }
    }
  }

  /** How often `x` is queued after the actions, if it was `n` times before. */
  ghost function CountAfter(n: nat, now: int, acts: seq<Act>, x: Entry): nat
    decreases |acts|
  {
    if acts == [] then n
    else match acts[0]
      case Add(id, delay, priority) => CountAfter(if x == Own(id, now + delay, priority) then n + 1 else n, now, acts[1..], x)
      case Del(id) => CountAfter(if x.Own? && x.id == id then 0 else n, now, acts[1..], x)
  }

  lemma InsertCount(l: seq<Entry>, e: Entry, x: Entry)
    ensures multiset(Insert(l, e))[x] == multiset(l)[x] + (if x == e then 1 else 0)
  {
    InsertCounts(l, e);
  }

  /** A job adds exactly the jobs it says, and removes exactly those. */
  lemma {:induction false} PerformCounts(l: seq<Entry>, now: int, acts: seq<Act>, x: Entry)
    ensures multiset(Perform(l, now, acts))[x] == CountAfter(multiset(l)[x], now, acts, x)
    decreases |acts|
  {
    if acts != [] {
      match acts[0]
      case Add(id, delay, priority) =>
        InsertCount(l, Own(id, now + delay, priority), x);
        PerformCounts(Insert(l, Own(id, now + delay, priority)), now, acts[1..], x);
      case Del(id) =>
        DeleteCounts(l, id, x);
        PerformCounts(Delete(l, id), now, acts[1..], x);
    }
  }

  lemma {:induction false} PerformOrdered(l: seq<Entry>, now: int, acts: seq<Act>)
    requires Ordered(l)
    ensures Ordered(Perform(l, now, acts))
    decreases |acts|
  {
    if acts != [] {
      match acts[0]
      case Add(id, delay, priority) =>
        InsertOrdered(l, Own(id, now + delay, priority));
        PerformOrdered(Insert(l, Own(id, now + delay, priority)), now, acts[1..]);
      case Del(id) =>
        DeleteOrdered(l, id);
        PerformOrdered(Delete(l, id), now, acts[1..]);
    }
  }

  // ------------------------------------------------------------ the steps

  ghost predicate AllOrdered(c: Config) { forall n :: n in c.nodes ==> Ordered(c.nodes[n].jobs) }

  ghost predicate SameBut(c: Config, d: Config, a: nat) {
    && d.nodes.Keys == c.nodes.Keys && d.parent == c.parent && a in c.nodes
    && forall n :: n in c.nodes && n != a ==> d.nodes[n] == c.nodes[n]
  }

  /** Nothing in the list of the active scheduler comes before its first entry. */
  ghost predicate First(l: seq<Entry>, e: Entry) {
    e in l && forall x :: x in l ==> NotAfter(e, x)
  }

  /** The first job `e` of the active scheduler is executed, at its time, once. */
  ghost predicate Executes(c: Config, d: Config, behave: Behaviour, e: Entry)
    requires Known(c)
  {
    var a := c.path[0];
    && e.Own? && First(Active(c).jobs, e) && SameBut(c, d, a) && d.path == c.path && !d.failed
    && d.log == c.log + [Ran(a, e.id, e.start)] && d.nodes[a].now == e.start
    && d.nodes[a].sync == c.nodes[a].sync && d.nodes[a].rank == c.nodes[a].rank
    && forall x :: multiset(d.nodes[a].jobs)[x] ==
         CountAfter(multiset(Active(c).jobs)[x] - (if x == e then 1 else 0), e.start, behave(c.log, a, e.id, e.start), x)
  }

  /** The scheduler that asked first gets the run time it asked for, and the latest bound. */
  ghost predicate Grants(c: Config, d: Config, e: Entry)
    requires Known(c)
  {
    var a := c.path[0];
    && e.Child? && First(Active(c).jobs, e) && e.id in c.nodes && e.id != a && d.path == [e.id] + c.path && d.log == c.log && !d.failed
    && d.nodes.Keys == c.nodes.Keys && d.parent == c.parent
    && (forall n :: n in c.nodes && n != a && n != e.id ==> d.nodes[n] == c.nodes[n])
    && d.nodes[a].now == e.start && d.nodes[a].sync == c.nodes[a].sync && d.nodes[a].rank == c.nodes[a].rank
    && multiset(d.nodes[a].jobs) + multiset{e} == multiset(c.nodes[a].jobs)
    && d.nodes[e.id].now == e.start && d.nodes[e.id].jobs == c.nodes[e.id].jobs && d.nodes[e.id].rank == c.nodes[e.id].rank
    && d.nodes[e.id].sync.Some? && forall t :: MayHandDown(d.nodes[a], t) <==> t <= d.nodes[e.id].sync.value
  }

  /** The active scheduler asks for the time of its first job, if it has one, and waits. */
  ghost predicate Waits(c: Config, d: Config)
    requires Known(c)
  {
    && |c.path| > 1 && d.path == c.path[1..] && d.log == c.log && !d.failed && SameBut(c, d, c.path[1])
    && var p, q := c.nodes[c.path[1]], d.nodes[c.path[1]];
       && q.now == p.now && q.sync == p.sync && q.rank == p.rank
       && if Active(c).jobs == [] then q == p
          else multiset(q.jobs) == multiset(p.jobs) + multiset{Child(c.path[0], Active(c).jobs[0].start, Active(c).rank)}
  }

  /** What one step does. A scheduler waits exactly if it has nothing to do, or its first job is
      not due, and not before its bound or the bound does not count. */
  ghost predicate Does(c: Config, ask: set<nat>, behave: Behaviour, d: Config)
    requires Known(c)
  {
    var n := Active(c);
    if |c.path| > 1 && (n.jobs == [] || (n.now < n.jobs[0].start
         && !(c.path[0] !in ask && n.sync.Some? && n.jobs[0].start < n.sync.value))) then Waits(c, d)
    else if n.jobs == [] then d == c
    else exists e :: Executes(c, d, behave, e) || Grants(c, d, e)
  }

  lemma HeadFirst(l: seq<Entry>)
    requires l != [] && Ordered(l)
    ensures First(l, l[0])
  {
    forall x | x in l ensures NotAfter(l[0], x) {
      var k :| 0 <= k < |l| && l[k] == x;
    }
  }

  lemma TailOrdered(l: seq<Entry>)
    requires l != [] && Ordered(l)
    ensures Ordered(l[1..]) && multiset(l[1..]) + multiset{l[0]} == multiset(l)
  {
    assert l == [l[0]] + l[1..];
  }

  lemma AskDoes(c: Config, ask: set<nat>)
    requires Known(c) && AllOrdered(c) && !c.failed && MustAsk(c, ask) && c.path[0] != c.path[1]
    ensures Waits(c, Ask(c)) && AllOrdered(Ask(c))
  {
    assert c.path[1] in c.path;
    if Active(c).jobs != [] {
      InsertOrdered(c.nodes[c.path[1]].jobs, Asking(c));
      InsertCounts(c.nodes[c.path[1]].jobs, Asking(c));
    }
  }

  lemma ExecutedJobs(l: seq<Entry>, now: int, acts: seq<Act>)
    requires l != [] && Ordered(l)
    ensures Ordered(Perform(l[1..], now, acts))
    ensures forall x :: multiset(Perform(l[1..], now, acts))[x] == CountAfter(multiset(l)[x] - (if x == l[0] then 1 else 0), now, acts, x)
  {
    TailOrdered(l);
    PerformOrdered(l[1..], now, acts);
    forall x ensures multiset(Perform(l[1..], now, acts))[x] == CountAfter(multiset(l)[x] - (if x == l[0] then 1 else 0), now, acts, x) {
      PerformCounts(l[1..], now, acts, x);
      assert multiset(l[1..])[x] == multiset(l)[x] - (if x == l[0] then 1 else 0);
    }
  }

  lemma ExecuteDoes(c: Config, behave: Behaviour)
    requires Known(c) && AllOrdered(c) && !c.failed && Active(c).jobs != [] && Active(c).jobs[0].Own?
    ensures var e := Active(c).jobs[0]; Executes(c, Execute(c, behave, e.start), behave, e) && AllOrdered(Execute(c, behave, e.start))
  {
    var l, e := Active(c).jobs, Active(c).jobs[0];
    assert c.path[0] in c.path;
    HeadFirst(l);
    ExecutedJobs(l, e.start, behave(c.log, c.path[0], e.id, e.start));
  }

  lemma GrantDoes(c: Config)
    requires Tree(c) && Linked(c) && AllOrdered(c) && !c.failed && Active(c).jobs != [] && Active(c).jobs[0].Child?
    ensures var e := Active(c).jobs[0]; Grants(c, Grant(c, e.start), e) && AllOrdered(Grant(c, e.start))
  {
    var e, d := Active(c).jobs[0], Grant(c, Active(c).jobs[0].start);
    assert c.path[0] in c.path;
    GrantWorks(c);
    HeadFirst(Active(c).jobs);
    TailOrdered(Active(c).jobs);
    TailNotPast(Active(c));
    var g := Active(c).(now := e.start, jobs := Active(c).jobs[1..]);
    forall t ensures MayHandDown(g, t) <==> t <= GetSync(g) {
      SyncIsLatest(g, t);
    }
  }

  /** Every step does that, and keeps every list in order. */
  lemma TickDoes(c: Config, ask: set<nat>, behave: Behaviour)
    requires Safe(c) && Linked(c) && AllOrdered(c) && !c.failed
    ensures Does(c, ask, behave, Tick(c, ask, behave)) && AllOrdered(Tick(c, ask, behave))
  {
    if MustAsk(c, ask) {
      AskDoes(c, ask);
    } else if Active(c).jobs != [] {
      TickReaches(c, ask, behave);
      if Active(c).jobs[0].Own? {
        ExecuteDoes(c, behave);
      } else {
        GrantDoes(c);
      }
    }
  }

  // ------------------------------------------------------------ order of execution

  /** Nothing on the way from the active scheduler to the root is due before `t`. */
  ghost predicate NothingBefore(c: Config, t: int)
    requires Known(c)
  {
    forall i :: 0 <= i < |c.path| && c.nodes[c.path[i]].jobs != [] ==> t <= c.nodes[c.path[i]].jobs[0].start
  }

  ghost predicate InOrder(c: Config)
    requires Known(c)
  {
    && (forall i, j :: 0 <= i < j < |c.log| ==> c.log[i].time <= c.log[j].time)
    && (c.log != [] ==> NothingBefore(c, c.log[|c.log| - 1].time))
  }

  lemma InsertHead(l: seq<Entry>, e: Entry)
    ensures Insert(l, e) != [] && (Insert(l, e)[0] == e || (l != [] && Insert(l, e)[0] == l[0]))
  {
  }

  lemma AskInOrder(c: Config, ask: set<nat>)
    requires Safe(c) && InOrder(c) && MustAsk(c, ask)
    ensures Known(Ask(c)) && InOrder(Ask(c))
  {
    var d, p := Ask(c), c.path[1];
    assert p in c.path;
    forall n | n in d.path ensures n in d.nodes { assert n in c.path; }
    if c.log != [] {
      var t := c.log[|c.log| - 1].time;
      assert NothingBefore(c, t);
      if Active(c).jobs != [] {
        assert t <= Active(c).jobs[0].start;
        InsertHead(c.nodes[p].jobs, Asking(c));
      }
      forall i | 0 <= i < |d.path| && d.nodes[d.path[i]].jobs != [] ensures t <= d.nodes[d.path[i]].jobs[0].start {
        assert d.path[i] == c.path[i + 1];
        assert c.nodes[c.path[i + 1]].jobs != [] ==> t <= c.nodes[c.path[i + 1]].jobs[0].start;
      }
    }
  }

  /** What the active scheduler may execute is due no later than anything above it. */
  lemma NothingAboveBefore(c: Config, ask: set<nat>)
    requires Safe(c) && !MustAsk(c, ask) && Active(c).jobs != []
    ensures forall i :: 0 < i < |c.path| && c.nodes[c.path[i]].jobs != [] ==>
              Active(c).jobs[0].start <= c.nodes[c.path[i]].jobs[0].start
  {
    ReachedInBound(c, ask);
  }

  lemma NothingBeforeExecuted(c: Config, d: Config, t: int)
    requires Known(c) && Known(d) && d.path == c.path && NotPast(Active(d)) && t <= Active(d).now
    requires forall i :: 0 < i < |c.path| ==> d.nodes[c.path[i]] == c.nodes[c.path[i]]
    requires forall i :: 0 < i < |c.path| && c.nodes[c.path[i]].jobs != [] ==> t <= c.nodes[c.path[i]].jobs[0].start
    ensures NothingBefore(d, t)
  {
    if Active(d).jobs != [] { assert Active(d).jobs[0] in Active(d).jobs; }
  }

  lemma ExecuteNothingBefore(c: Config, ask: set<nat>, behave: Behaviour)
    requires Safe(c) && !MustAsk(c, ask) && Active(c).jobs != [] && Active(c).jobs[0].Own?
    ensures var d := Execute(c, behave, Active(c).jobs[0].start); Known(d) && NothingBefore(d, Active(c).jobs[0].start)
  {
    ExecuteTree(c, behave);
    NothingAboveBefore(c, ask);
    assert forall i :: 0 < i < |c.path| ==> c.path[i] != c.path[0];
    NothingBeforeExecuted(c, Execute(c, behave, Active(c).jobs[0].start), Active(c).jobs[0].start);
  }

  lemma ExecuteInOrder(c: Config, ask: set<nat>, behave: Behaviour)
    requires Safe(c) && InOrder(c) && !MustAsk(c, ask) && Active(c).jobs != [] && Active(c).jobs[0].Own?
    ensures var d := Execute(c, behave, Active(c).jobs[0].start); Known(d) && InOrder(d)
  {
    ExecuteNothingBefore(c, ask, behave);
    assert c.log != [] ==> c.log[|c.log| - 1].time <= Active(c).jobs[0].start;
  }

  lemma NothingBeforeGranted(c: Config, d: Config, k: nat, t: int)
    requires Known(c) && Known(d) && d.path == [k] + c.path && NothingBefore(c, t) && Active(c).jobs != []
    requires d.nodes[c.path[0]].jobs == Active(c).jobs[1..] && (|Active(c).jobs| > 1 ==> t <= Active(c).jobs[1].start)
    requires d.nodes[k].jobs != [] ==> t <= d.nodes[k].jobs[0].start
    requires forall i :: 0 < i < |c.path| ==> d.nodes[c.path[i]] == c.nodes[c.path[i]]
    ensures NothingBefore(d, t)
  {
    forall i | 0 <= i < |d.path| && d.nodes[d.path[i]].jobs != [] ensures t <= d.nodes[d.path[i]].jobs[0].start {
      if i > 1 { assert d.path[i] == c.path[i - 1]; }
    }
  }

  lemma GrantLeavesAbove(c: Config)
    requires Tree(c) && Active(c).jobs != [] && Active(c).jobs[0].Child?
    requires var d := Grant(c, Active(c).jobs[0].start); !d.failed && Tree(d) && d.path == [Active(c).jobs[0].id] + c.path
    ensures forall i :: 0 < i < |c.path| ==> Grant(c, Active(c).jobs[0].start).nodes[c.path[i]] == c.nodes[c.path[i]]
  {
    var d := Grant(c, Active(c).jobs[0].start);
    forall i | 0 < i < |c.path| ensures d.nodes[c.path[i]] == c.nodes[c.path[i]] {
      assert d.path[i + 1] == c.path[i] && d.path[0] != d.path[i + 1];
    }
  }

  lemma GrantNothingBefore(c: Config, t: int)
    requires Tree(c) && Lagging(c) && Linked(c) && !c.failed && Active(c).jobs != [] && Active(c).jobs[0].Child?
    requires NothingBefore(c, t)
    ensures Known(Grant(c, Active(c).jobs[0].start)) && NothingBefore(Grant(c, Active(c).jobs[0].start), t)
  {
    GrantWorks(c);
    GrantTree(c);
    FirstIsEarliest(Active(c));
    assert |Active(c).jobs| > 1 ==> Active(c).jobs[1] in Active(c).jobs;
    GrantLeavesAbove(c);
    NothingBeforeGranted(c, Grant(c, Active(c).jobs[0].start), Active(c).jobs[0].id, t);
  }

  lemma GrantInOrder(c: Config)
    requires Safe(c) && Linked(c) && !c.failed && InOrder(c) && Active(c).jobs != [] && Active(c).jobs[0].Child?
    ensures var d := Grant(c, Active(c).jobs[0].start); Known(d) && InOrder(d)
  {
    if c.log != [] {
      GrantNothingBefore(c, c.log[|c.log| - 1].time);
    } else {
      GrantTree(c);
    }
  }

  lemma TickInOrder(c: Config, ask: set<nat>, behave: Behaviour)
    requires Safe(c) && Linked(c) && !c.failed && InOrder(c)
    ensures Known(Tick(c, ask, behave)) && InOrder(Tick(c, ask, behave))
  {
    if MustAsk(c, ask) {
      AskInOrder(c, ask);
    } else if Active(c).jobs != [] {
      TickReaches(c, ask, behave);
      if Active(c).jobs[0].Own? {
        ExecuteInOrder(c, ask, behave);
      } else {
        GrantInOrder(c);
      }
    }
  }

  ghost predicate Orderly(c: Config) { Safe(c) && Linked(c) && !c.failed && InOrder(c) }

  lemma TickOrderly(c: Config, ask: set<nat>, behave: Behaviour)
    requires Orderly(c)
    ensures Orderly(Tick(c, ask, behave))
  {
    TickNeverFails(c, ask, behave);
    TickInOrder(c, ask, behave);
  }

  /** In every tree, whoever skips requests and whatever the jobs do: jobs are executed in the
      order of time across all schedulers. */
  lemma {:induction false} RunInOrder(c: Config, ask: set<nat>, behave: Behaviour, n: nat)
    requires Orderly(c)
    ensures Orderly(Iterate(Mode(ask, behave), c, n))
    decreases n
  {
    if n > 0 {
      TickOrderly(c, ask, behave);
      RunInOrder(Tick(c, ask, behave), ask, behave, n - 1);
    }
  }
}
