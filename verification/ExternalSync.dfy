/** Schedulers that get their run time from a parent (src/sched.c). A scheduler that knows
    how long it may run does not ask its parent for every job. In every tree of schedulers
    this executes the same jobs, at the same times, in the same order as always asking.

    Times are distances from a common base inside one window, where the comparison of
    module CyclicTime is the plain one. */
module ExternalSync {
  import opened Wrappers

  /** A queued job, or the entry by which the scheduler `id` below asks for run time. */
  datatype Entry = Own(id: nat, start: int, priority: int) | Child(id: nat, start: int, priority: int)

  /** `sync` is next_external_sync; `rank` the priority of its own entry at the parent. */
  datatype Node = Node(now: int, jobs: seq<Entry>, sync: Option<int>, rank: int)

  datatype Ran = Ran(node: nat, id: nat, time: int)

  /** A tree of schedulers. `path` leads from the active one to the root; all others wait for
      their parents. */
  datatype Config = Config(nodes: map<nat, Node>, parent: map<nat, nat>, path: seq<nat>, log: seq<Ran>, failed: bool)

  /** What a job does to its own scheduler. */
  datatype Act = Add(id: nat, delay: nat, priority: int) | Del(id: nat)

  /** What a job does depends on everything that was executed before it, on its scheduler, on
      itself and on the time. */
  type Behaviour = (seq<Ran>, nat, nat, int) -> seq<Act>

  predicate Stops(x: Entry, e: Entry) { x.start > e.start || (x.start == e.start && x.priority < e.priority) }

  function Insert(l: seq<Entry>, e: Entry): seq<Entry> {
    if l == [] || Stops(l[0], e) then [e] + l else [l[0]] + Insert(l[1..], e)
  }

  function Delete(l: seq<Entry>, id: nat): seq<Entry> {
    if l == [] then [] else (if l[0].Own? && l[0].id == id then [] else [l[0]]) + Delete(l[1..], id)
  }

  function Perform(l: seq<Entry>, now: int, acts: seq<Act>): seq<Entry>
    decreases |acts|
  {
    if acts == [] then l
    else match acts[0] {
      case Add(id, delay, priority) => Perform(Insert(l, Own(id, now + delay, priority)), now, acts[1..])
      case Del(id) => Perform(Delete(l, id), now, acts[1..])
    }
  }

  /** usfstl_sched_get_sync_time. */
  function GetSync(n: Node): int {
    var far := n.now + 0x4000_0000_0000_0000;
    var sync := if n.sync.Some? && far > n.sync.value >= n.now then n.sync.value else far;
    if n.jobs != [] && n.jobs[0].start < sync then n.jobs[0].start else sync
  }

  /** The request is skipped (src/sched.c:41-44); `ask` is the disable flag. */
  predicate Skips(n: Node, ask: bool, time: int) { !ask && n.sync.Some? && time < n.sync.value }

  predicate Known(c: Config) { c.path != [] && forall n :: n in c.path ==> n in c.nodes }

  function Active(c: Config): Node
    requires Known(c)
  {
    c.nodes[c.path[0]]
  }

  /** The active scheduler cannot run its first job yet: it asks its parent and waits. `ask`
      are the schedulers whose disable flag is set. */
  predicate MustAsk(c: Config, ask: set<nat>)
    requires Known(c)
  {
    var n := Active(c);
    && |c.path| > 1
    && (n.jobs == [] || (n.jobs[0].start > n.now && !Skips(n, c.path[0] in ask, n.jobs[0].start)))
  }

  /** The entry by which the active scheduler asks for its first job. */
  function Asking(c: Config): Entry
    requires Known(c) && Active(c).jobs != []
  {
    Child(c.path[0], Active(c).jobs[0].start, Active(c).rank)
  }

  function Ask(c: Config): Config
    requires Known(c) && |c.path| > 1
  {
    var p := c.nodes[c.path[1]];
    c.(path := c.path[1..],
       nodes := if Active(c).jobs == [] then c.nodes
                else c.nodes[c.path[1] := p.(jobs := Insert(p.jobs, Asking(c)))])
  }

  /** The first job of the active scheduler is reached; `t` is the time then. */
  function Execute(c: Config, behave: Behaviour, t: int): Config
    requires Known(c) && Active(c).jobs != [] && Active(c).jobs[0].Own?
  {
    var n, a := Active(c), c.path[0];
    var id := n.jobs[0].id;
    c.(nodes := c.nodes[a := n.(now := t, jobs := Perform(n.jobs[1..], t, behave(c.log, a, id, t)))],
       log := c.log + [Ran(a, id, t)])
  }

  /** The scheduler that asked gets its run time, with a new bound; its time must not pass its
      first job (src/sched.c:171-173) or go back (src/sched.c:147). */
  function Grant(c: Config, t: int): Config
    requires Known(c) && Active(c).jobs != [] && Active(c).jobs[0].Child?
  {
    var n, k := Active(c), Active(c).jobs[0].id;
    var g := n.(now := t, jobs := n.jobs[1..]);
    if k !in c.nodes || c.nodes[k].now > t || (c.nodes[k].jobs != [] && c.nodes[k].jobs[0].start < t) then c.(failed := true)
    else c.(path := [k] + c.path,
            nodes := c.nodes[c.path[0] := g][k := c.nodes[k].(now := t, sync := Some(GetSync(g)))])
  }

  /** One step of usfstl_sched_next on the active scheduler. */
  function Tick(c: Config, ask: set<nat>, behave: Behaviour): Config {
    if c.failed || !Known(c) then c
    else if MustAsk(c, ask) then Ask(c)
    else
      var n := Active(c);
      if n.jobs == [] then c
      else
        var t := if n.jobs[0].start > n.now then n.jobs[0].start else n.now;
        if n.jobs[0].Own? then Execute(c, behave, t) else Grant(c, t)
  }

  type Machine = Config -> Config

  function Mode(ask: set<nat>, behave: Behaviour): Machine { c => Tick(c, ask, behave) }

  /** `n` steps. */
  function Iterate(step: Machine, c: Config, n: nat): Config
    decreases n
  {
    if n == 0 then c else Iterate(step, step(c), n - 1)
  }

  // ------------------------------------------------------------ invariants

  ghost predicate SortedStarts(l: seq<Entry>) { forall i, j :: 0 <= i < j < |l| ==> l[i].start <= l[j].start }

  ghost predicate NotPast(n: Node) { SortedStarts(n.jobs) && forall e :: e in n.jobs ==> n.now <= e.start }

  /** `path` goes from parent to parent up to the root, and no scheduler is in the past. */
  ghost predicate Tree(c: Config) {
    && Known(c) && c.path[|c.path| - 1] !in c.parent
    && (forall i, j :: 0 <= i < j < |c.path| ==> c.path[i] != c.path[j])
    && (forall i :: 0 <= i < |c.path| - 1 ==> c.path[i] in c.parent && c.parent[c.path[i]] == c.path[i + 1])
    && (forall n :: n in c.nodes ==> NotPast(c.nodes[n]))
  }

  /** Towards the root, no clock is ahead of the one below it. */
  ghost predicate Lagging(c: Config)
    requires Known(c)
  {
    forall i, j :: 0 <= i < j < |c.path| ==> c.nodes[c.path[j]].now <= c.nodes[c.path[i]].now
  }

  /** The bound of a scheduler on the path is not after the first job of any above it. */
  ghost predicate Bounded(c: Config)
    requires Known(c)
  {
    forall i :: 0 <= i < |c.path| - 1 ==> BoundedAt(c, i)
  }

  ghost predicate BoundedAt(c: Config, i: nat)
    requires Known(c) && i < |c.path|
  {
    var n := c.nodes[c.path[i]];
    && n.sync.Some? && n.now <= n.sync.value
    && forall j :: i < j < |c.path| && c.nodes[c.path[j]].jobs != [] ==> n.sync.value <= c.nodes[c.path[j]].jobs[0].start
  }

  ghost predicate Safe(c: Config) { Tree(c) && Lagging(c) && Bounded(c) }

  /** How often the scheduler `k` has asked in the list `l`. */
  function Requests(l: seq<Entry>, k: nat): nat {
    if l == [] then 0 else (if l[0].Child? && l[0].id == k then 1 else 0) + Requests(l[1..], k)
  }

  /** A request in the list of `n` is the only one of a waiting scheduler below `n`, made for
      its first job. */
  ghost predicate LinkedAt(c: Config, n: nat)
    requires n in c.nodes
  {
    && (forall e :: e in c.nodes[n].jobs && e.Child? ==> LinkedEntry(c, n, e))
    && (forall k :: Requests(c.nodes[n].jobs, k) <= 1)
  }

  ghost predicate LinkedEntry(c: Config, n: nat, e: Entry) {
    && e.id in c.nodes && e.id !in c.path && e.id in c.parent && c.parent[e.id] == n
    && c.nodes[e.id].jobs != [] && c.nodes[e.id].jobs[0].start == e.start
  }

  ghost predicate Linked(c: Config) { forall n :: n in c.nodes ==> LinkedAt(c, n) }

  // ------------------------------------------------------------ lists

  lemma {:induction false} InsertRequests(l: seq<Entry>, e: Entry, k: nat)
    ensures Requests(Insert(l, e), k) == Requests(l, k) + (if e.Child? && e.id == k then 1 else 0)
    ensures forall x :: x in Insert(l, e) <==> x == e || x in l
  {
    if l == [] || Stops(l[0], e) {
      assert ([e] + l)[1..] == l;
    } else {
      InsertRequests(l[1..], e, k);
      assert ([l[0]] + Insert(l[1..], e))[1..] == Insert(l[1..], e);
      assert l == [l[0]] + l[1..];
    }
  }

  lemma {:induction false} DeleteRequests(l: seq<Entry>, id: nat, k: nat)
    ensures Requests(Delete(l, id), k) == Requests(l, k)
    ensures forall x :: x in Delete(l, id) ==> x in l
  {
    if l != [] {
      DeleteRequests(l[1..], id, k);
      var d := Delete(l[1..], id);
      assert ([l[0]] + d)[1..] == d && [] + d == d;
      assert l == [l[0]] + l[1..];
    }
  }

  lemma {:induction false} PerformRequests(l: seq<Entry>, now: int, acts: seq<Act>, k: nat)
    ensures Requests(Perform(l, now, acts), k) == Requests(l, k)
    ensures forall x :: x in Perform(l, now, acts) && x.Child? ==> x in l
    decreases |acts|
  {
    if acts != [] {
      match acts[0] {
        case Add(id, delay, priority) =>
          var e := Own(id, now + delay, priority);
          InsertRequests(l, e, k);
          PerformRequests(Insert(l, e), now, acts[1..], k);
        case Del(id) =>
          DeleteRequests(l, id, k);
          PerformRequests(Delete(l, id), now, acts[1..], k);
      }
    }
  }

  lemma {:induction false} RequestCounts(l: seq<Entry>, e: Entry)
    requires e in l && e.Child?
    ensures Requests(l, e.id) > 0
  {
    if e != l[0] {
      assert l == [l[0]] + l[1..];
      RequestCounts(l[1..], e);
    }
  }

  lemma {:induction false} InsertSorted(l: seq<Entry>, e: Entry)
    requires SortedStarts(l)
    ensures SortedStarts(Insert(l, e))
  {
    if l != [] && !Stops(l[0], e) {
      InsertSorted(l[1..], e);
      var r := Insert(l[1..], e);
      InsertRequests(l[1..], e, 0);
      forall k | 0 <= k < |r| ensures l[0].start <= r[k].start {
        assert r[k] in r;
        if r[k] != e {
          var i :| 0 <= i < |l[1..]| && l[1..][i] == r[k];
          assert l[i + 1] == r[k];
        }
      }
    }
  }

  lemma {:induction false} DeleteSorted(l: seq<Entry>, id: nat)
    requires SortedStarts(l)
    ensures SortedStarts(Delete(l, id))
  {
    if l != [] {
      DeleteSorted(l[1..], id);
      var r := Delete(l[1..], id);
      DeleteRequests(l[1..], id, 0);
      forall k | 0 <= k < |r| ensures l[0].start <= r[k].start {
        assert r[k] in r;
        var i :| 0 <= i < |l[1..]| && l[1..][i] == r[k];
        assert l[i + 1] == r[k];
      }
    }
  }

  lemma InsertNotPast(n: Node, e: Entry)
    requires NotPast(n) && n.now <= e.start
    ensures NotPast(n.(jobs := Insert(n.jobs, e)))
  {
    InsertSorted(n.jobs, e);
    InsertRequests(n.jobs, e, 0);
  }

  lemma {:induction false} PerformNotPast(n: Node, acts: seq<Act>)
    requires NotPast(n)
    ensures NotPast(n.(jobs := Perform(n.jobs, n.now, acts)))
    decreases |acts|
  {
    if acts != [] {
      match acts[0] {
        case Add(id, delay, priority) =>
          var e := Own(id, n.now + delay, priority);
          InsertNotPast(n, e);
          PerformNotPast(n.(jobs := Insert(n.jobs, e)), acts[1..]);
        case Del(id) =>
          DeleteSorted(n.jobs, id);
          DeleteRequests(n.jobs, id, 0);
          PerformNotPast(n.(jobs := Delete(n.jobs, id)), acts[1..]);
      }
    }
  }

  /** The first entry is taken. */
  lemma TailNotPast(n: Node)
    requires NotPast(n) && n.jobs != []
    ensures n.now <= n.jobs[0].start && NotPast(n.(now := n.jobs[0].start, jobs := n.jobs[1..]))
  {
    assert n.jobs[0] in n.jobs;
    forall e | e in n.jobs[1..] ensures n.jobs[0].start <= e.start {
      var k :| 0 <= k < |n.jobs[1..]| && n.jobs[1..][k] == e;
      assert n.jobs[k + 1] == e;
    }
  }

  // ------------------------------------------------------------ every step keeps the tree

  lemma TailTree(c: Config)
    requires Tree(c) && |c.path| > 1
    ensures Tree(c.(path := c.path[1..]))
  {
    var q := c.path[1..];
    forall n | n in q ensures n in c.nodes {
      var i :| 0 <= i < |q| && q[i] == n;
      assert c.path[i + 1] == n;
    }
    forall i | 0 <= i < |q| - 1 ensures q[i] in c.parent && c.parent[q[i]] == q[i + 1] {
      assert c.path[i + 1] in c.parent;
    }
  }

  lemma AskTree(c: Config, ask: set<nat>)
    requires Tree(c) && Lagging(c) && MustAsk(c, ask)
    ensures Tree(Ask(c)) && Lagging(Ask(c))
  {
    var d, p := Ask(c), c.path[1];
    TailTree(c);
    forall n | n in d.nodes ensures NotPast(d.nodes[n]) && d.nodes[n].now == c.nodes[n].now {
      assert NotPast(c.nodes[n]);
      if n == p && Active(c).jobs != [] {
        assert c.nodes[c.path[1]].now <= c.nodes[c.path[0]].now;
        InsertNotPast(c.nodes[p], Asking(c));
      }
    }
    forall i, j | 0 <= i < j < |d.path| ensures d.nodes[d.path[j]].now <= d.nodes[d.path[i]].now {
      assert c.nodes[c.path[j + 1]].now <= c.nodes[c.path[i + 1]].now;
    }
  }

  lemma ExecuteTree(c: Config, behave: Behaviour)
    requires Tree(c) && Lagging(c) && Active(c).jobs != [] && Active(c).jobs[0].Own?
    ensures Tree(Execute(c, behave, Active(c).jobs[0].start)) && Lagging(Execute(c, behave, Active(c).jobs[0].start))
  {
    var n, a := Active(c), c.path[0];
    var t := n.jobs[0].start;
    TailNotPast(n);
    PerformNotPast(n.(now := t, jobs := n.jobs[1..]), behave(c.log, a, n.jobs[0].id, t));
    var d := Execute(c, behave, t);
    forall i, j | 0 <= i < j < |d.path| ensures d.nodes[d.path[j]].now <= d.nodes[d.path[i]].now {
      assert c.nodes[c.path[j]].now <= c.nodes[c.path[i]].now;
    }
  }

  /** The scheduler whose request is reached can take the time: it is that of its first job. */
  lemma GrantWorks(c: Config)
    requires Tree(c) && Linked(c) && !c.failed && Active(c).jobs != [] && Active(c).jobs[0].Child?
    ensures var e := Active(c).jobs[0];
            LinkedEntry(c, c.path[0], e) && !Grant(c, e.start).failed && Grant(c, e.start).path == [e.id] + c.path
  {
    var e := Active(c).jobs[0];
    assert e in Active(c).jobs && LinkedAt(c, c.path[0]);
    var b := c.nodes[e.id];
    assert NotPast(b) && b.jobs[0] in b.jobs;
  }

  lemma GrantTree(c: Config)
    requires Tree(c) && Lagging(c) && Linked(c) && !c.failed && Active(c).jobs != [] && Active(c).jobs[0].Child?
    ensures Tree(Grant(c, Active(c).jobs[0].start)) && Lagging(Grant(c, Active(c).jobs[0].start))
  {
    var e := Active(c).jobs[0];
    GrantWorks(c);
    var d := Grant(c, e.start);
    GrantPath(c, d, e.id);
    forall m | m in d.nodes ensures NotPast(d.nodes[m]) {
      GrantNotPast(c, m);
    }
    GrantLags(c, d, e);
  }

  lemma GrantLags(c: Config, d: Config, e: Entry)
    requires Tree(c) && Lagging(c) && Active(c).now <= e.start && e.id !in c.path && e.id in c.nodes
    requires d.path == [e.id] + c.path && d.nodes.Keys == c.nodes.Keys && Known(d)
    requires d.nodes[e.id].now == d.nodes[c.path[0]].now == e.start
    requires forall m :: m in c.nodes && m != e.id && m != c.path[0] ==> d.nodes[m] == c.nodes[m]
    ensures Lagging(d)
  {
    forall i, j | 0 <= i < j < |d.path| ensures d.nodes[d.path[j]].now <= d.nodes[d.path[i]].now {
      GrantLagging(c, d, e, i, j);
    }
  }

  lemma GrantNotPast(c: Config, m: nat)
    requires Tree(c) && Linked(c) && !c.failed && Active(c).jobs != [] && Active(c).jobs[0].Child? && m in c.nodes
    ensures NotPast(Grant(c, Active(c).jobs[0].start).nodes[m])
  {
    GrantWorks(c);
    TailNotPast(Active(c));
    assert NotPast(c.nodes[m]);
    if m == Active(c).jobs[0].id { FirstIsEarliest(c.nodes[m]); }
  }

  lemma GrantPath(c: Config, d: Config, k: nat)
    requires Tree(c) && k in c.nodes && k !in c.path && k in c.parent && c.parent[k] == c.path[0]
    requires d.path == [k] + c.path && d.parent == c.parent && d.nodes.Keys == c.nodes.Keys
    ensures Known(d) && d.path[|d.path| - 1] !in d.parent
    ensures forall i, j :: 0 <= i < j < |d.path| ==> d.path[i] != d.path[j]
    ensures forall i :: 0 <= i < |d.path| - 1 ==> d.path[i] in d.parent && d.parent[d.path[i]] == d.path[i + 1]
  {
    forall i | 0 <= i < |d.path| - 1 ensures d.path[i] in d.parent && d.parent[d.path[i]] == d.path[i + 1] {
      assert i > 0 ==> c.path[i - 1] in c.parent && c.parent[c.path[i - 1]] == c.path[i];
    }
  }

  lemma FirstIsEarliest(n: Node)
    requires NotPast(n) && n.jobs != []
    ensures forall e :: e in n.jobs ==> n.jobs[0].start <= e.start
  {
    forall e | e in n.jobs ensures n.jobs[0].start <= e.start {
      var k :| 0 <= k < |n.jobs| && n.jobs[k] == e;
    }
  }

  lemma GrantLagging(c: Config, d: Config, e: Entry, i: nat, j: nat)
    requires Tree(c) && Lagging(c) && Active(c).now <= e.start && e.id !in c.path && e.id in c.nodes
    requires d.path == [e.id] + c.path && i < j < |d.path| && d.nodes.Keys == c.nodes.Keys
    requires d.nodes[e.id].now == d.nodes[c.path[0]].now == e.start
    requires forall m :: m in c.nodes && m != e.id && m != c.path[0] ==> d.nodes[m] == c.nodes[m]
    ensures d.nodes[d.path[j]].now <= d.nodes[d.path[i]].now
  {
    if j > 1 {
      assert d.path[j] == c.path[j - 1] && c.path[j - 1] in c.path && c.path[j - 1] != c.path[0];
      assert c.nodes[c.path[j - 1]].now <= c.nodes[c.path[0]].now;
      if i > 1 {
        assert d.path[i] == c.path[i - 1] && c.path[i - 1] in c.path && c.path[i - 1] != c.path[0];
      }
    }
  }

  // ------------------------------------------------------------ every step keeps the requests

  lemma AskLinked(c: Config)
    requires Tree(c) && Linked(c) && |c.path| > 1
    ensures Linked(Ask(c))
  {
    var d, p := Ask(c), c.path[1];
    forall n | n in d.nodes ensures LinkedAt(d, n) {
      assert LinkedAt(c, n);
      forall e | e in d.nodes[n].jobs && e.Child? ensures LinkedEntry(d, n, e) {
        AskLinkedEntry(c, n, e);
      }
      forall k ensures Requests(d.nodes[n].jobs, k) <= 1 {
        if n == p && Active(c).jobs != [] {
          InsertRequests(c.nodes[p].jobs, Asking(c), k);
          if k == c.path[0] { NotYetAsked(c, p, k); }
        }
      }
    }
  }

  /** A scheduler on the path has no request anywhere. */
  lemma NotYetAsked(c: Config, n: nat, k: nat)
    requires Linked(c) && n in c.nodes && k in c.path
    ensures Requests(c.nodes[n].jobs, k) == 0
  {
    assert LinkedAt(c, n);
    if Requests(c.nodes[n].jobs, k) > 0 {
      var e := SomeRequest(c.nodes[n].jobs, k);
    }
  }

  lemma {:induction false} SomeRequest(l: seq<Entry>, k: nat) returns (e: Entry)
    requires Requests(l, k) > 0
    ensures e in l && e.Child? && e.id == k
  {
    if l[0].Child? && l[0].id == k {
      e := l[0];
    } else {
      e := SomeRequest(l[1..], k);
      assert l == [l[0]] + l[1..];
    }
  }

  lemma AskLinkedEntry(c: Config, n: nat, e: Entry)
    requires Tree(c) && Linked(c) && |c.path| > 1 && n in c.nodes && e in Ask(c).nodes[n].jobs && e.Child?
    ensures LinkedEntry(Ask(c), n, e)
  {
    var d, p, a := Ask(c), c.path[1], c.path[0];
    assert LinkedAt(c, n);
    if Active(c).jobs != [] {
      InsertRequests(c.nodes[p].jobs, Asking(c), 0);
      if n == p && e == Asking(c) {
        assert a !in c.path[1..] && c.parent[c.path[0]] == c.path[1];
      } else {
        AskOldEntry(c, n, e);
      }
    } else {
      AskOldEntry(c, n, e);
    }
  }

  lemma AskOldEntry(c: Config, n: nat, e: Entry)
    requires Tree(c) && |c.path| > 1 && LinkedEntry(c, n, e)
    ensures LinkedEntry(Ask(c), n, e)
  {
    assert e.id !in c.path[1..];
    assert c.path[1] in c.path;
  }

  lemma ExecuteLinked(c: Config, behave: Behaviour, t: int)
    requires Tree(c) && Linked(c) && Active(c).jobs != [] && Active(c).jobs[0].Own?
    ensures Linked(Execute(c, behave, t))
  {
    var d, n, a := Execute(c, behave, t), Active(c), c.path[0];
    var acts := behave(c.log, a, n.jobs[0].id, t);
    assert n.jobs == [n.jobs[0]] + n.jobs[1..];
    forall m | m in d.nodes ensures LinkedAt(d, m) {
      assert LinkedAt(c, m);
      forall e | e in d.nodes[m].jobs && e.Child? ensures LinkedEntry(d, m, e) {
        if m == a { PerformRequests(n.jobs[1..], t, acts, 0); }
        assert e in c.nodes[m].jobs && LinkedEntry(c, m, e);
        assert a in c.path;
      }
      forall k ensures Requests(d.nodes[m].jobs, k) <= 1 {
        assert Requests(c.nodes[m].jobs, k) <= 1;
        if m == a { PerformRequests(n.jobs[1..], t, acts, k); }
      }
    }
  }

  lemma GrantLinked(c: Config)
    requires Tree(c) && Linked(c) && !c.failed && Active(c).jobs != [] && Active(c).jobs[0].Child?
    ensures Linked(Grant(c, Active(c).jobs[0].start))
  {
    var n, a := Active(c), c.path[0];
    var e := n.jobs[0];
    GrantWorks(c);
    var d := Grant(c, e.start);
    assert n.jobs == [e] + n.jobs[1..];
    forall m | m in d.nodes ensures LinkedAt(d, m) {
      assert LinkedAt(c, m);
      forall x | x in d.nodes[m].jobs && x.Child? ensures LinkedEntry(d, m, x) {
        assert x in c.nodes[m].jobs && LinkedEntry(c, m, x);
        GrantOthers(c, m, x);
        assert a in c.path;
      }
      forall k ensures Requests(d.nodes[m].jobs, k) <= 1 {
        assert Requests(c.nodes[m].jobs, k) <= 1;
      }
    }
  }

  /** The request that is granted was the only one of that scheduler. */
  lemma GrantOthers(c: Config, m: nat, x: Entry)
    requires Linked(c) && Known(c) && Active(c).jobs != [] && Active(c).jobs[0].Child? && m in c.nodes
    requires x.Child? && x in (if m == c.path[0] then Active(c).jobs[1..] else c.nodes[m].jobs)
    ensures x.id != Active(c).jobs[0].id
  {
    var n, a := Active(c), c.path[0];
    assert n.jobs[0] in n.jobs && LinkedAt(c, a) && LinkedAt(c, m);
    assert n.jobs == [n.jobs[0]] + n.jobs[1..];
    if m == a {
      RequestCounts(n.jobs[1..], x);
      assert Requests(n.jobs, x.id) <= 1;
    }
  }

  // ------------------------------------------------------------ every step keeps the bounds

  lemma AskBounded(c: Config)
    requires Tree(c) && Bounded(c) && |c.path| > 1
    ensures Known(Ask(c)) && Bounded(Ask(c))
  {
    TailTree(c);
    var d := Ask(c);
    forall i | 0 <= i < |d.path| - 1 ensures BoundedAt(d, i) {
      assert BoundedAt(c, i + 1);
      forall j | i < j < |d.path| ensures d.nodes[d.path[j]] == c.nodes[c.path[j + 1]] {
        assert c.path[1] != c.path[j + 1];
      }
    }
  }

  /** The time that the active scheduler moves to is covered by its bound. */
  lemma ReachedInBound(c: Config, ask: set<nat>)
    requires Safe(c) && !MustAsk(c, ask) && Active(c).jobs != []
    ensures Active(c).now <= Active(c).jobs[0].start
    ensures |c.path| > 1 ==> BoundedAt(c, 0) && Active(c).jobs[0].start <= Active(c).sync.value
  {
    var n := Active(c);
    assert NotPast(n) && n.jobs[0] in n.jobs;
    assert |c.path| > 1 ==> BoundedAt(c, 0);
  }

  lemma ExecuteBounded(c: Config, ask: set<nat>, behave: Behaviour)
    requires Safe(c) && !MustAsk(c, ask) && Active(c).jobs != [] && Active(c).jobs[0].Own?
    ensures Bounded(Execute(c, behave, Active(c).jobs[0].start))
  {
    ReachedInBound(c, ask);
    var d := Execute(c, behave, Active(c).jobs[0].start);
    forall i | 0 <= i < |d.path| - 1 ensures BoundedAt(d, i) {
      assert BoundedAt(c, i);
      forall j | i < j < |d.path| ensures d.nodes[d.path[j]] == c.nodes[c.path[j]] {
        assert c.path[0] != c.path[j];
      }
    }
  }

  /** The bound handed down covers the first job of every scheduler above. */
  lemma SyncCovers(c: Config, ask: set<nat>, g: Node, j: nat)
    requires Safe(c) && !MustAsk(c, ask) && Active(c).jobs != []
    requires g == Active(c).(now := Active(c).jobs[0].start, jobs := Active(c).jobs[1..])
    ensures g.now <= GetSync(g) && (g.jobs != [] ==> GetSync(g) <= g.jobs[0].start)
    ensures 0 < j < |c.path| && c.nodes[c.path[j]].jobs != [] ==> GetSync(g) <= c.nodes[c.path[j]].jobs[0].start
  {
    ReachedInBound(c, ask);
    TailNotPast(Active(c));
    assert g.jobs != [] ==> g.jobs[0] in g.jobs;
  }

  lemma GrantBounded(c: Config, ask: set<nat>, d: Config)
    requires Safe(c) && Linked(c) && !c.failed && !MustAsk(c, ask) && Active(c).jobs != [] && Active(c).jobs[0].Child?
    requires d == Grant(c, Active(c).jobs[0].start)
    ensures Known(d) && Bounded(d)
  {
    var n := Active(c);
    var e := n.jobs[0];
    var g := n.(now := e.start, jobs := n.jobs[1..]);
    GrantWorks(c);
    ReachedInBound(c, ask);
    forall i | 0 <= i < |d.path| - 1 ensures BoundedAt(d, i) {
      if i > 0 { assert BoundedAt(c, i - 1); }
      forall j | i < j < |d.path| && d.nodes[d.path[j]].jobs != []
        ensures d.nodes[d.path[i]].sync.Some? && d.nodes[d.path[i]].sync.value <= d.nodes[d.path[j]].jobs[0].start
      {
        GrantBoundedAt(c, ask, d, e, g, i, j);
      }
      SyncCovers(c, ask, g, 0);
      assert d.path[i] != e.id ==> d.path[i] in c.path;
    }
  }

  lemma GrantBoundedAt(c: Config, ask: set<nat>, d: Config, e: Entry, g: Node, i: nat, j: nat)
    requires Safe(c) && !MustAsk(c, ask) && Active(c).jobs != [] && e == Active(c).jobs[0] && e.id !in c.path
    requires g == Active(c).(now := e.start, jobs := Active(c).jobs[1..])
    requires d.path == [e.id] + c.path && i < j < |d.path| && d.nodes.Keys == c.nodes.Keys && e.id in c.nodes
    requires d.nodes[e.id].sync == Some(GetSync(g)) && d.nodes[c.path[0]] == g
    requires forall m :: m in c.nodes && m != e.id && m != c.path[0] ==> d.nodes[m] == c.nodes[m]
    requires d.nodes[d.path[j]].jobs != []
    ensures d.nodes[d.path[i]].sync.Some? && d.nodes[d.path[i]].sync.value <= d.nodes[d.path[j]].jobs[0].start
  {
    assert d.path[j] == c.path[j - 1] && c.path[j - 1] in c.path;
    assert j > 1 ==> c.path[0] != c.path[j - 1];
    if i == 0 {
      SyncCovers(c, ask, g, j - 1);
    } else {
      assert d.path[i] == c.path[i - 1] && c.path[i - 1] in c.path && BoundedAt(c, i - 1);
    }
  }

  lemma AskGood(c: Config, ask: set<nat>)
    requires Safe(c) && Linked(c) && MustAsk(c, ask)
    ensures Safe(Ask(c)) && Linked(Ask(c))
  {
    AskTree(c, ask);
    AskBounded(c);
    AskLinked(c);
  }

  lemma ExecuteGood(c: Config, ask: set<nat>, behave: Behaviour)
    requires Safe(c) && Linked(c) && !MustAsk(c, ask) && Active(c).jobs != [] && Active(c).jobs[0].Own?
    ensures Safe(Execute(c, behave, Active(c).jobs[0].start)) && Linked(Execute(c, behave, Active(c).jobs[0].start))
  {
    ExecuteTree(c, behave);
    ExecuteBounded(c, ask, behave);
    ExecuteLinked(c, behave, Active(c).jobs[0].start);
  }

  lemma GrantGood(c: Config, ask: set<nat>)
    requires Safe(c) && Linked(c) && !c.failed && !MustAsk(c, ask) && Active(c).jobs != [] && Active(c).jobs[0].Child?
    ensures var d := Grant(c, Active(c).jobs[0].start); !d.failed && Safe(d) && Linked(d)
  {
    GrantWorks(c);
    GrantTree(c);
    GrantBounded(c, ask, Grant(c, Active(c).jobs[0].start));
    GrantLinked(c);
  }

  /** The time at which the first entry of the active scheduler is reached is its start. */
  lemma TickReaches(c: Config, ask: set<nat>, behave: Behaviour)
    requires Tree(c) && !c.failed && !MustAsk(c, ask) && Active(c).jobs != []
    ensures var e := Active(c).jobs[0];
            Tick(c, ask, behave) == if e.Own? then Execute(c, behave, e.start) else Grant(c, e.start)
  {
    var n := Active(c);
    assert NotPast(n) && n.jobs[0] in n.jobs;
  }

  /** Every step keeps the invariants, and no assertion of the code fails. */
  lemma TickNeverFails(c: Config, ask: set<nat>, behave: Behaviour)
    requires Safe(c) && Linked(c) && !c.failed
    ensures var d := Tick(c, ask, behave); !d.failed && Safe(d) && Linked(d)
  {
    if MustAsk(c, ask) {
      AskGood(c, ask);
    } else if Active(c).jobs != [] {
      TickReaches(c, ask, behave);
      if Active(c).jobs[0].Own? {
        ExecuteGood(c, ask, behave);
      } else {
        GrantGood(c, ask);
      }
    }
  }
}
