/** When skipping a request is right without knowing where the bound came from: exactly if the
    request would have come first all the way up. See module ExternalSync. */
module ExternalSyncExact {
  import opened Wrappers
  import opened ExternalSync
  import opened ExternalSyncRefinement

  /** The active scheduler, not the root, could skip the request for its first job at `t`. */
  ghost predicate MaySkip(c: Config, t: int) {
    && Tree(c) && Lagging(c) && Linked(c) && !c.failed && |c.path| > 1
    && Active(c).jobs != [] && Active(c).jobs[0].Own? && Active(c).jobs[0].start == t > Active(c).now
  }

  ghost predicate FirstAllTheWay(c: Config, t: int)
    requires Known(c)
  {
    forall i :: 0 <= i < |c.path| - 1 ==> ComesFirst(c, i, t)
  }

  // ------------------------------------------------------------ coming first is enough

  lemma FirstIsExecuted(c: Config, all: set<nat>, behave: Behaviour, t: int) returns (n: nat)
    requires MaySkip(c, t) && AlwaysAsk(c, all) && FirstAllTheWay(c, t)
    ensures Iterate(Mode(all, behave), c, n).log == c.log + [Ran(c.path[0], Active(c).jobs[0].id, t)]
  {
    var m, d := FirstIsReached(c, all, behave, t);
    var e := OneStepMore(c, d, all, behave, m);
    RaisedExecutes(c, d, all, behave, t);
    n := m + 1;
  }

  lemma FirstIsReached(c: Config, all: set<nat>, behave: Behaviour, t: int) returns (m: nat, d: Config)
    requires MaySkip(c, t) && AlwaysAsk(c, all) && FirstAllTheWay(c, t)
    ensures d == Iterate(Mode(all, behave), c, m) && Raised(c, d, t)
  {
    m, d := ClimbAndReturn(c, all, behave, t);
  }

  lemma RaisedExecutes(c: Config, d: Config, all: set<nat>, behave: Behaviour, t: int)
    requires MaySkip(c, t) && Raised(c, d, t)
    ensures Tick(d, all, behave).log == c.log + [Ran(c.path[0], Active(c).jobs[0].id, t)]
  {
    assert c.path[0] in c.path;
    assert Tick(d, all, behave) == Execute(d, behave, t);
  }

  // ------------------------------------------------------------ and needed

  /** Nothing has been executed since `c`. */
  ghost predicate Since(c: Config, d: Config) {
    && d.nodes.Keys == c.nodes.Keys && d.parent == c.parent && d.log == c.log && !d.failed
    && Tree(d) && Lagging(d) && Linked(d)
  }

  /** Still climbing: `path[i]` asks for `t`, and nothing above it has changed. */
  ghost predicate Climbing(c: Config, d: Config, i: nat, t: int)
    requires Known(c)
  {
    && Since(c, d) && i < |c.path| && d.path == c.path[i..] && Known(d)
    && Active(d).jobs != [] && Active(d).jobs[0].start == t > Active(d).now && Active(d).rank == c.nodes[c.path[i]].rank
    && forall k :: i < k < |c.path| ==> d.nodes[c.path[k]] == c.nodes[c.path[k]]
  }

  /** `path[stuck]` waits behind another entry of its parent, at or above which the active
      scheduler is. */
  ghost predicate Behind(c: Config, d: Config, i: nat, stuck: nat)
    requires Known(c)
  {
    && Since(c, d) && stuck < i < |c.path| && d.path == c.path[i..]
    && d.nodes[c.path[stuck + 1]].jobs != []
    && !(d.nodes[c.path[stuck + 1]].jobs[0].Child? && d.nodes[c.path[stuck + 1]].jobs[0].id == c.path[stuck])
  }

  /** A scheduler that was not on the path has got its time and is about to use it. */
  ghost predicate Elsewhere(c: Config, d: Config) {
    && Since(c, d) && Known(d) && d.path[0] !in c.path && Active(d).jobs != [] && Active(d).jobs[0].start <= Active(d).now
  }

  /** Something of another scheduler than `path[0]` was executed first. */
  ghost predicate Overtaken(c: Config, d: Config) {
    c.path != [] && |c.log| < |d.log| && c.log <= d.log && d.log[|c.log|].node != c.path[0]
  }

  ghost predicate Waiting(c: Config, d: Config, stuck: nat, t: int)
    requires Known(c)
  {
    || (exists i :: 0 <= i <= stuck && Climbing(c, d, i, t))
    || (exists i :: 0 <= i && Behind(c, d, i, stuck))
    || Elsewhere(c, d)
    || Overtaken(c, d)
  }

  lemma AskSince(c: Config, d: Config, all: set<nat>)
    requires Since(c, d) && MustAsk(d, all)
    ensures Since(c, Ask(d)) && Ask(d).path == d.path[1..]
  {
    AskTree(d, all);
    AskLinked(d);
    assert d.path[1] in d.path;
  }

  /** A climbing scheduler asks. */
  lemma ClimbingAsks(c: Config, d: Config, i: nat, t: int, all: set<nat>, behave: Behaviour) returns (e: Config)
    requires Tree(c) && Climbing(c, d, i, t) && i + 1 < |c.path| && AlwaysAsk(c, all)
    ensures e == Tick(d, all, behave) && Since(c, e) && e.path == c.path[i + 1..]
    ensures var p := c.path[i + 1];
            && Asking(d) == Child(c.path[i], t, c.nodes[c.path[i]].rank) && Requests(c.nodes[p].jobs, c.path[i]) == 0
            && e.nodes == d.nodes[p := c.nodes[p].(jobs := Insert(c.nodes[p].jobs, Asking(d)))] && c.nodes[p].now < t
  {
    var p := c.path[i + 1];
    assert d.path[0] in d.path && d.path[1] == p && d.path[0] == c.path[i];
    assert MustAsk(d, all);
    e := Tick(d, all, behave);
    assert e == Ask(d);
    AskSince(c, d, all);
    assert d.nodes[d.path[1]].now <= d.nodes[d.path[0]].now;
    assert p in d.path;
    NotYetAsked(d, p, c.path[i]);
  }

  /** One step up; the request comes first there, or does not. */
  lemma ClimbingStep(c: Config, d: Config, i: nat, stuck: nat, t: int, all: set<nat>, behave: Behaviour) returns (e: Config)
    requires Tree(c) && Climbing(c, d, i, t) && i <= stuck && stuck + 1 < |c.path| && AlwaysAsk(c, all)
    requires (forall k :: 0 <= k < stuck ==> ComesFirst(c, k, t)) && !ComesFirst(c, stuck, t)
    ensures e == Tick(d, all, behave) && Waiting(c, e, stuck, t)
  {
    e := ClimbingAsks(c, d, i, t, all, behave);
    if i < stuck {
      assert ComesFirst(c, i, t);
      ClimbingFirst(c, d, e, i, t);
    } else {
      ClimbingStuck(c, d, e, i, t);
    }
  }

  lemma ClimbingFirst(c: Config, d: Config, e: Config, i: nat, t: int)
    requires Tree(c) && i + 1 < |c.path| && ComesFirst(c, i, t) && Since(c, d) && Since(c, e) && e.path == c.path[i + 1..]
    requires forall k :: i < k < |c.path| ==> d.nodes[c.path[k]] == c.nodes[c.path[k]]
    requires var p := c.path[i + 1];
             c.nodes[p].now < t &&
             e.nodes == d.nodes[p := c.nodes[p].(jobs := Insert(c.nodes[p].jobs, Child(c.path[i], t, c.nodes[c.path[i]].rank)))]
    ensures Climbing(c, e, i + 1, t)
  {
    assert e.path[0] == c.path[i + 1];
    forall k | i + 1 < k < |c.path| ensures e.nodes[c.path[k]] == c.nodes[c.path[k]] { assert c.path[i + 1] != c.path[k]; }
  }

  lemma ClimbingStuck(c: Config, d: Config, e: Config, i: nat, t: int)
    requires Tree(c) && i + 1 < |c.path| && !ComesFirst(c, i, t) && Since(c, e) && e.path == c.path[i + 1..]
    requires var p := c.path[i + 1];
             Requests(c.nodes[p].jobs, c.path[i]) == 0 && p in e.nodes &&
             e.nodes[p].jobs == Insert(c.nodes[p].jobs, Child(c.path[i], t, c.nodes[c.path[i]].rank))
    ensures Behind(c, e, i + 1, i)
  {
    RequestBehind(c.nodes[c.path[i + 1]].jobs, Child(c.path[i], t, c.nodes[c.path[i]].rank));
  }

  /** An entry that does not come first leaves the first one where it is. */
  lemma RequestBehind(l: seq<Entry>, e: Entry)
    requires l != [] && !Stops(l[0], e) && e.Child? && Requests(l, e.id) == 0
    ensures Insert(l, e) != [] && Insert(l, e)[0] == l[0] && !(l[0].Child? && l[0].id == e.id)
  {
  }

  lemma ParentsOnPath(c: Config, k: nat, n: nat)
    requires Tree(c) && k in c.parent && c.parent[k] == n && k in c.path
    ensures exists m :: 0 <= m < |c.path| - 1 && c.path[m] == k && c.path[m + 1] == n
  {
    var m :| 0 <= m < |c.path| && c.path[m] == k;
    assert m < |c.path| - 1;
    assert c.parent[c.path[m]] == c.path[m + 1];
  }

  /** Where a grant of the active scheduler leads. */
  lemma GrantSince(c: Config, d: Config) returns (e: Config)
    requires Since(c, d) && Active(d).jobs != [] && Active(d).jobs[0].Child?
    ensures e == Grant(d, Active(d).jobs[0].start) && Since(c, e)
    ensures LinkedEntry(d, d.path[0], Active(d).jobs[0]) && e.path == [Active(d).jobs[0].id] + d.path
    ensures Known(e) && Active(e).jobs != [] && Active(e).jobs[0].start == Active(e).now
    ensures forall n :: n in d.nodes && n != d.path[0] ==> e.nodes[n].jobs == d.nodes[n].jobs
  {
    var x := Active(d).jobs[0];
    GrantWorks(d);
    GrantTree(d);
    GrantLinked(d);
    e := Grant(d, x.start);
  }

  lemma BehindAsk(c: Config, d: Config, i: nat, stuck: nat, all: set<nat>) returns (e: Config)
    requires Tree(c) && Behind(c, d, i, stuck) && MustAsk(d, all)
    ensures e == Ask(d) && Behind(c, e, i + 1, stuck)
  {
    AskSince(c, d, all);
    e := Ask(d);
    assert e.path == c.path[i + 1..];
    assert c.path[stuck + 1] != c.path[i + 1];
  }

  lemma BehindStep(c: Config, d: Config, i: nat, stuck: nat, t: int, all: set<nat>, behave: Behaviour)
    requires Tree(c) && Behind(c, d, i, stuck)
    ensures Waiting(c, Tick(d, all, behave), stuck, t)
  {
    var e := Tick(d, all, behave);
    assert d.path[0] == c.path[i];
    if MustAsk(d, all) {
      var g := BehindAsk(c, d, i, stuck, all);
    } else if Active(d).jobs == [] {
      assert Behind(c, e, i, stuck);
    } else {
      TickReaches(d, all, behave);
      if Active(d).jobs[0].Own? {
        assert c.path[0] != c.path[i];
        assert Overtaken(c, e);
      } else {
        var g := BehindGrant(c, d, i, stuck, t);
      }
    }
  }

  lemma BehindGrant(c: Config, d: Config, i: nat, stuck: nat, t: int) returns (e: Config)
    requires Tree(c) && Behind(c, d, i, stuck) && Active(d).jobs != [] && Active(d).jobs[0].Child?
    ensures e == Grant(d, Active(d).jobs[0].start) && Waiting(c, e, stuck, t)
  {
    e := GrantSince(c, d);
    var k := Active(d).jobs[0].id;
    assert d.path[0] == c.path[i];
    if k in c.path {
      BackDown(c, d, e, i, stuck, k);
    } else {
      assert Elsewhere(c, e);
    }
  }

  /** A grant along the old path, above the place where the request is stuck. */
  lemma BackDown(c: Config, d: Config, e: Config, i: nat, stuck: nat, k: nat)
    requires Tree(c) && Behind(c, d, i, stuck) && Since(c, e) && k in c.path && k in c.parent && c.parent[k] == c.path[i]
    requires d.nodes[c.path[i]].jobs != [] && d.nodes[c.path[i]].jobs[0].Child? && d.nodes[c.path[i]].jobs[0].id == k
    requires e.path == [k] + d.path && forall n :: n in d.nodes && n != c.path[i] ==> e.nodes[n].jobs == d.nodes[n].jobs
    ensures Behind(c, e, i - 1, stuck)
  {
    OldPath(c, i, k);
    assert i - 1 != stuck;
    assert c.path[stuck + 1] != c.path[i] && c.path[stuck + 1] in c.path;
  }

  lemma OldPath(c: Config, i: nat, k: nat)
    requires Tree(c) && 0 < i < |c.path| && k in c.path && k in c.parent && c.parent[k] == c.path[i]
    ensures k == c.path[i - 1] && [k] + c.path[i..] == c.path[i - 1..]
  {
    ParentsOnPath(c, k, c.path[i]);
    var m :| 0 <= m < |c.path| - 1 && c.path[m] == k && c.path[m + 1] == c.path[i];
    assert m == i - 1;
  }

  lemma ElsewhereStep(c: Config, d: Config, stuck: nat, t: int, all: set<nat>, behave: Behaviour)
    requires Tree(c) && Elsewhere(c, d)
    ensures Waiting(c, Tick(d, all, behave), stuck, t)
  {
    var e := Tick(d, all, behave);
    assert c.path[0] in c.path;
    TickReaches(d, all, behave);
    if Active(d).jobs[0].Own? {
      assert Overtaken(c, e);
    } else {
      var g := GrantSince(c, d);
      var k := Active(d).jobs[0].id;
      if k in c.path {
        ParentsOnPath(c, k, d.path[0]);
      }
      assert Elsewhere(c, e);
    }
  }

  lemma WaitingStep(c: Config, d: Config, stuck: nat, t: int, all: set<nat>, behave: Behaviour) returns (e: Config)
    requires Tree(c) && stuck + 1 < |c.path| && AlwaysAsk(c, all) && Waiting(c, d, stuck, t)
    requires (forall k :: 0 <= k < stuck ==> ComesFirst(c, k, t)) && !ComesFirst(c, stuck, t)
    ensures e == Tick(d, all, behave) && Waiting(c, e, stuck, t)
  {
    if i :| 0 <= i <= stuck && Climbing(c, d, i, t) {
      e := ClimbingStep(c, d, i, stuck, t, all, behave);
    } else if i :| 0 <= i && Behind(c, d, i, stuck) {
      BehindStep(c, d, i, stuck, t, all, behave);
      e := Tick(d, all, behave);
    } else if Elsewhere(c, d) {
      ElsewhereStep(c, d, stuck, t, all, behave);
      e := Tick(d, all, behave);
    } else {
      SameNodes(d, all, behave);
      e := Tick(d, all, behave);
      assert Overtaken(c, e);
    }
  }

  /** What every step keeps holds after any number of steps. */
  lemma {:induction false} Kept(step: Machine, inv: Config -> bool, d: Config, n: nat)
    requires inv(d) && forall x {:trigger step(x)} :: inv(x) ==> inv(step(x))
    ensures inv(Iterate(step, d, n))
    decreases n
  {
    if n > 0 { Kept(step, inv, step(d), n - 1); }
  }

  ghost function WaitingFor(c: Config, stuck: nat, t: int): Config -> bool
    requires Known(c)
  {
    d => Waiting(c, d, stuck, t)
  }

  lemma StaysWaiting(c: Config, stuck: nat, t: int, all: set<nat>, behave: Behaviour, n: nat)
    requires Tree(c) && stuck + 1 < |c.path| && AlwaysAsk(c, all) && WaitingFor(c, stuck, t)(c)
    requires (forall k :: 0 <= k < stuck ==> ComesFirst(c, k, t)) && !ComesFirst(c, stuck, t)
    ensures WaitingFor(c, stuck, t)(Iterate(Mode(all, behave), c, n))
  {
    var step, inv := Mode(all, behave), WaitingFor(c, stuck, t);
    forall x | inv(x) ensures inv(step(x)) {
      var e := WaitingStep(c, x, stuck, t, all, behave);
    }
    Kept(step, inv, c, n);
  }

  lemma FirstStuck(c: Config, t: int) returns (stuck: nat)
    requires Known(c) && !FirstAllTheWay(c, t)
    ensures stuck + 1 < |c.path| && (forall k :: 0 <= k < stuck ==> ComesFirst(c, k, t)) && !ComesFirst(c, stuck, t)
  {
    stuck := 0;
    while stuck + 1 < |c.path| && ComesFirst(c, stuck, t)
      invariant stuck < |c.path| && forall k :: 0 <= k < stuck ==> ComesFirst(c, k, t)
    {
      stuck := stuck + 1;
    }
  }

  lemma NotExecutedNext(c: Config, all: set<nat>, behave: Behaviour, t: int, n: nat, id: nat)
    requires MaySkip(c, t) && AlwaysAsk(c, all) && !FirstAllTheWay(c, t)
    ensures Iterate(Mode(all, behave), c, n).log != c.log + [Ran(c.path[0], id, t)]
  {
    var stuck := FirstStuck(c, t);
    assert c.path[0..] == c.path;
    assert Climbing(c, c, 0, t);
    StaysWaiting(c, stuck, t, all, behave, n);
    WaitingLog(c, Iterate(Mode(all, behave), c, n), stuck, t, id);
  }

  lemma WaitingLog(c: Config, d: Config, stuck: nat, t: int, id: nat)
    requires Known(c) && WaitingFor(c, stuck, t)(d)
    ensures d.log != c.log + [Ran(c.path[0], id, t)]
  {
  }

  /** Always asking executes the job next that skipping executes at once, exactly if its request
      comes first in the list of every scheduler above. */
  lemma SkipIsAskingIff(c: Config, all: set<nat>, behave: Behaviour, t: int)
    requires MaySkip(c, t) && AlwaysAsk(c, all)
    ensures (exists n :: Iterate(Mode(all, behave), c, n).log == c.log + [Ran(c.path[0], Active(c).jobs[0].id, t)]) <==>
            FirstAllTheWay(c, t)
  {
    if FirstAllTheWay(c, t) {
      var n := FirstIsExecuted(c, all, behave, t);
    } else {
      forall n: nat ensures Iterate(Mode(all, behave), c, n).log != c.log + [Ran(c.path[0], Active(c).jobs[0].id, t)] {
        NotExecutedNext(c, all, behave, t, n, Active(c).jobs[0].id);
      }
    }
  }

  /** What skipping does: the job is executed at once. */
  lemma SkippingExecutes(c: Config, ask: set<nat>, behave: Behaviour, t: int)
    requires MaySkip(c, t) && !MustAsk(c, ask)
    ensures Tick(c, ask, behave).log == c.log + [Ran(c.path[0], Active(c).jobs[0].id, t)]
  {
    TickReaches(c, ask, behave);
  }

  /** Three schedulers in a row at time 3. The root has a job at 5, the middle one a job at 10
      and no bound of its own, the active one a job at 7 and the bound it got from the middle. */
  function MiddleWithoutBound(active: nat, middle: nat, root: nat): Config {
    var m := Node(3, [Own(2, 10, 0)], None, 0);
    Config(map[active := Node(3, [Own(1, 7, 0)], Some(GetSync(m)), 0), middle := m, root := Node(3, [Own(3, 5, 0)], None, 0)],
           map[active := middle, middle := root], [active, middle, root], [], false)
  }

  /** The failing family is not empty: the active scheduler skips its request, but always
      asking does not execute its job next. */
  lemma MissingBoundOvertakes(active: nat, middle: nat, root: nat, behave: Behaviour, n: nat)
    requires active != middle && active != root && middle != root
    ensures var c := MiddleWithoutBound(active, middle, root);
            && MaySkip(c, 7) && Tick(c, {}, behave).log == [Ran(active, 1, 7)]
            && Iterate(Mode({active, middle, root}, behave), c, n).log != [Ran(active, 1, 7)]
  {
    var c := MiddleWithoutBound(active, middle, root);
    assert Active(c).sync == Some(10);
    assert MaySkip(c, 7) by {
      forall m | m in c.nodes ensures LinkedAt(c, m) { assert c.nodes[m].jobs[1..] == []; }
    }
    SkippingExecutes(c, {}, behave, 7);
    assert !ComesFirst(c, 1, 7);
    NotExecutedNext(c, {active, middle, root}, behave, 7, n, 1);
  }
}
