/** Skipping requests below a bound refines always asking: see module ExternalSync. */
module ExternalSyncRefinement {
  import opened Wrappers
  import opened ExternalSync

  // ------------------------------------------------------------ iteration

  lemma {:induction false} IterateConcat(step: Machine, c: Config, m: nat, n: nat)
    ensures Iterate(step, c, m + n) == Iterate(step, Iterate(step, c, m), n)
    decreases m
  {
    if m > 0 { IterateConcat(step, step(c), m - 1, n); }
  }

  lemma OneMore(step: Machine, c: Config, n: nat)
    ensures Iterate(step, c, n + 1) == step(Iterate(step, c, n))
  {
    IterateConcat(step, c, n, 1);
    var b := Iterate(step, c, n);
    assert Iterate(step, b, 1) == Iterate(step, step(b), 0);
  }

  lemma AroundIt(step: Machine, c: Config, e: Config, m: nat)
    requires e == Iterate(step, step(c), m)
    ensures step(e) == Iterate(step, c, m + 2)
  {
    OneMore(step, step(c), m);
    assert Iterate(step, c, m + 2) == Iterate(step, step(c), m + 1);
  }

  // ------------------------------------------------------------ asking all the way up

  ghost predicate AlwaysAsk(c: Config, ask: set<nat>) { c.nodes.Keys <= ask }

  /** `d` is `c`, but with time `t` all along the path. */
  ghost predicate Raised(c: Config, d: Config, t: int) {
    && d.nodes.Keys == c.nodes.Keys && d.parent == c.parent && d.path == c.path && d.log == c.log && !d.failed
    && (forall n :: n in c.nodes ==> d.nodes[n].jobs == c.nodes[n].jobs && d.nodes[n].rank == c.nodes[n].rank)
    && (forall n :: n in c.nodes && n !in c.path ==> d.nodes[n] == c.nodes[n])
    && (forall n :: n in c.path && n in c.nodes ==> d.nodes[n].now == t)
  }

  /** The request of `path[i]` for time `t` would be the first entry of its parent. */
  ghost predicate ComesFirst(c: Config, i: nat, t: int)
    requires Known(c) && i + 1 < |c.path|
  {
    var p := c.nodes[c.path[i + 1]];
    p.jobs == [] || Stops(p.jobs[0], Child(c.path[i], t, c.nodes[c.path[i]].rank))
  }

  /** The active scheduler wants to move to `t`, and the request comes first all the way up. */
  ghost predicate Unhindered(c: Config, t: int) {
    && Tree(c) && Lagging(c) && |c.path| > 1 && !c.failed
    && Active(c).jobs != [] && Active(c).jobs[0].start == t > Active(c).now
    && (forall i :: 0 <= i < |c.path| - 1 ==> ComesFirst(c, i, t))
  }

  /** The request goes to the front of the parent's list. */
  lemma AskUnhindered(c: Config, ask: set<nat>, behave: Behaviour, t: int)
    requires AlwaysAsk(c, ask) && Unhindered(c, t)
    ensures var p := c.nodes[c.path[1]];
            Tick(c, ask, behave) == c.(path := c.path[1..], nodes := c.nodes[c.path[1] := p.(jobs := [Asking(c)] + p.jobs)])
    ensures Tree(Tick(c, ask, behave)) && Lagging(Tick(c, ask, behave))
  {
    assert ComesFirst(c, 0, t) && c.path[0] in c.path;
    assert MustAsk(c, ask);
    AskTree(c, ask);
  }

  lemma StillUnhindered(c: Config, d: Config, t: int)
    requires Unhindered(c, t) && |c.path| > 2 && Tree(d) && Lagging(d) && !d.failed
    requires var p := c.nodes[c.path[1]];
             d.path == c.path[1..] && d.nodes == c.nodes[c.path[1] := p.(jobs := [Asking(c)] + p.jobs)]
    ensures Unhindered(d, t)
  {
    assert c.nodes[c.path[1]].now <= c.nodes[c.path[0]].now;
    forall i | 0 <= i < |d.path| - 1 ensures ComesFirst(d, i, t) {
      assert ComesFirst(c, i + 1, t);
      assert c.path[i + 2] != c.path[1];
    }
  }

  /** `e` is `c` with the request of the active scheduler in front of its parent's list, and
      time `t` from the parent's parent up, and at the parent unless that is the root. */
  ghost predicate Above(c: Config, e: Config, t: int)
    requires Known(c) && |c.path| > 1 && Active(c).jobs != []
  {
    var p := c.path[1];
    && e.nodes.Keys == c.nodes.Keys && e.parent == c.parent && e.path == c.path[1..] && e.log == c.log && !e.failed
    && (forall n :: n in c.nodes ==> e.nodes[n].rank == c.nodes[n].rank)
    && (forall n :: n in c.nodes && n != p ==> e.nodes[n].jobs == c.nodes[n].jobs)
    && e.nodes[p].jobs == [Asking(c)] + c.nodes[p].jobs
    && (forall n :: n in c.nodes && n !in c.path[1..] ==> e.nodes[n] == c.nodes[n])
    && (forall n :: n in c.path[1..] && n in c.nodes && n != p ==> e.nodes[n].now == t)
    && e.nodes[p].now <= t && (e.nodes[p].now == t || |c.path| == 2)
  }

  lemma Climbed(c: Config, d: Config, e: Config, t: int)
    requires Unhindered(c, t)
    requires var p := c.nodes[c.path[1]];
             d == c.(path := c.path[1..], nodes := c.nodes[c.path[1] := p.(jobs := [Asking(c)] + p.jobs)])
    requires if |c.path| == 2 then e == d else Raised(d, e, t)
    ensures Above(c, e, t)
  {
    assert c.path[1] in c.path && c.path[1..][0] == c.path[1];
    assert c.nodes[c.path[1]].now <= c.nodes[c.path[0]].now;
    assert |c.path| == 2 ==> c.path[1..] == [c.path[1]];
  }

  /** The active scheduler of `c` asks for time `t`. */
  ghost predicate Wants(c: Config, t: int) {
    && Known(c) && |c.path| > 1 && c.path[0] !in c.path[1..]
    && Active(c).jobs != [] && Active(c).now <= t == Active(c).jobs[0].start
  }

  /** The parent grants the request. */
  lemma AboveGrants(c: Config, e: Config, ask: set<nat>, behave: Behaviour, t: int)
    requires Wants(c, t) && Above(c, e, t)
    ensures var a, p := c.path[0], c.path[1];
            var g := e.nodes[p].(now := t, jobs := c.nodes[p].jobs);
            Tick(e, ask, behave) ==
            e.(path := c.path, nodes := e.nodes[p := g][a := c.nodes[a].(now := t, sync := Some(GetSync(g)))])
  {
    var a, p := c.path[0], c.path[1];
    assert a in c.path && p in c.path;
    assert e.nodes[p].jobs[1..] == c.nodes[p].jobs;
    assert [a] + e.path == c.path;
    forall n | n in e.path ensures n in e.nodes { assert n in c.path; }
  }

  lemma GrantUnhindered(c: Config, e: Config, ask: set<nat>, behave: Behaviour, t: int) returns (d: Config)
    requires Wants(c, t) && Above(c, e, t)
    ensures d == Tick(e, ask, behave) && Raised(c, d, t)
  {
    AboveGrants(c, e, ask, behave, t);
    d := Tick(e, ask, behave);
    AboveRaised(c, e, d, t);
  }

  lemma Around(c: Config, b: Config, e: Config, d: Config, ask: set<nat>, behave: Behaviour, m: nat)
    requires b == Tick(c, ask, behave) && e == Iterate(Mode(ask, behave), b, m) && d == Tick(e, ask, behave)
    ensures d == Iterate(Mode(ask, behave), c, m + 2)
  {
    AroundIt(Mode(ask, behave), c, e, m);
  }

  lemma UnhinderedWants(c: Config, t: int)
    requires Unhindered(c, t)
    ensures Wants(c, t)
  {
  }

  lemma AboveRaised(c: Config, e: Config, d: Config, t: int)
    requires Wants(c, t) && Above(c, e, t) && d.path == c.path && d == e.(path := d.path, nodes := d.nodes)
    requires d.nodes.Keys == c.nodes.Keys
    requires forall n :: n in c.nodes && n != c.path[0] && n != c.path[1] ==> d.nodes[n] == e.nodes[n]
    requires d.nodes[c.path[0]].now == d.nodes[c.path[1]].now == t
    requires d.nodes[c.path[0]].jobs == c.nodes[c.path[0]].jobs && d.nodes[c.path[0]].rank == c.nodes[c.path[0]].rank
    requires d.nodes[c.path[1]].jobs == c.nodes[c.path[1]].jobs && d.nodes[c.path[1]].rank == c.nodes[c.path[1]].rank
    ensures Raised(c, d, t)
  {
    var a, p := c.path[0], c.path[1];
    assert a in c.path && p in c.path;
    forall n | n in c.path && n in c.nodes ensures d.nodes[n].now == t {
      assert n == a || n in c.path[1..];
    }
    forall n | n in c.nodes && n !in c.path ensures d.nodes[n] == c.nodes[n] {
      assert n !in c.path[1..];
    }
  }

  /** `b` is `c` after the active scheduler has asked, with the request in front. */
  ghost predicate AskedFirst(c: Config, b: Config)
    requires Known(c) && |c.path| > 1 && Active(c).jobs != []
  {
    var p := c.nodes[c.path[1]];
    b == c.(path := c.path[1..], nodes := c.nodes[c.path[1] := p.(jobs := [Asking(c)] + p.jobs)])
  }

  lemma ClimbStart(c: Config, ask: set<nat>, behave: Behaviour, t: int) returns (b: Config)
    requires AlwaysAsk(c, ask) && Unhindered(c, t)
    ensures b == Tick(c, ask, behave) && AskedFirst(c, b) && |b.path| == |c.path| - 1
    ensures |c.path| > 2 ==> AlwaysAsk(b, ask) && Unhindered(b, t)
  {
    b := Tick(c, ask, behave);
    AskUnhindered(c, ask, behave, t);
    if |c.path| > 2 {
      StillUnhindered(c, b, t);
    }
  }

  lemma ClimbEnd(c: Config, b: Config, e: Config, ask: set<nat>, behave: Behaviour, t: int, m: nat) returns (n: nat, d: Config)
    requires Unhindered(c, t) && b == Tick(c, ask, behave) && e == Iterate(Mode(ask, behave), b, m)
    requires AskedFirst(c, b) && if |c.path| == 2 then e == b else Raised(b, e, t)
    ensures d == Iterate(Mode(ask, behave), c, n) && Raised(c, d, t)
  {
    Climbed(c, b, e, t);
    UnhinderedWants(c, t);
    d := GrantUnhindered(c, e, ask, behave, t);
    Around(c, b, e, d, ask, behave, m);
    n := m + 2;
  }

  /** Asking for an unhindered time climbs to the root and comes back with that time,
      without executing anything. */
  lemma {:induction false} ClimbAndReturn(c: Config, ask: set<nat>, behave: Behaviour, t: int) returns (n: nat, d: Config)
    requires AlwaysAsk(c, ask) && Unhindered(c, t)
    ensures d == Iterate(Mode(ask, behave), c, n) && Raised(c, d, t)
    decreases |c.path|
  {
    var b := ClimbStart(c, ask, behave, t);
    var m, e := 0, b;
    if |c.path| > 2 {
      m, e := ClimbAndReturn(b, ask, behave, t);
    }
    n, d := ClimbEnd(c, b, e, ask, behave, t, m);
  }

  // ------------------------------------------------------------ the simulation

  /** The clock of `a` may be ahead of that of `f`, but not of the next job. */
  ghost predicate Harmless(f: Node, a: Node) {
    && f.jobs == a.jobs && f.rank == a.rank
    && (f.now == a.now || (f.now < a.now && (f.jobs != [] ==> a.now < f.jobs[0].start)))
  }

  ghost predicate SameShape(f: Config, a: Config) {
    && f.nodes.Keys == a.nodes.Keys && f.parent == a.parent && f.path == a.path && f.log == a.log && f.failed == a.failed
    && Known(f) && Known(a) && Lagging(a)
  }

  ghost predicate Same(f: Config, a: Config) {
    SameShape(f, a) && forall n :: n in f.nodes ==> Harmless(f.nodes[n], a.nodes[n])
  }

  /** As `Same`, and the active scheduler of `a` has time for its first job. */
  ghost predicate Ready(f: Config, a: Config) {
    && SameShape(f, a) && (forall n :: n in f.nodes && n != f.path[0] ==> Harmless(f.nodes[n], a.nodes[n]))
    && Active(f).jobs == Active(a).jobs != [] && Active(f).rank == Active(a).rank && Active(a).now <= Active(a).jobs[0].start
  }

  lemma BothMustAsk(f: Config, a: Config, ask: set<nat>, all: set<nat>)
    requires Same(f, a) && AlwaysAsk(f, all) && MustAsk(f, ask)
    ensures MustAsk(a, all)
  {
    assert f.path[0] in f.path && Harmless(Active(f), Active(a));
  }

  lemma BothAsk(f: Config, a: Config, ask: set<nat>, all: set<nat>)
    requires Same(f, a) && Tree(f) && AlwaysAsk(f, all) && MustAsk(f, ask)
    ensures MustAsk(a, all) && Same(Ask(f), Ask(a))
  {
    BothMustAsk(f, a, ask, all);
    var d, e := Ask(f), Ask(a);
    forall n | n in d.nodes ensures Harmless(d.nodes[n], e.nodes[n]) && e.nodes[n].now == a.nodes[n].now {
      AskHarmless(f, a, n);
    }
    forall n | n in f.path[1..] ensures n in f.path {
    }
    AskLags(a, e);
  }

  lemma AskLags(a: Config, e: Config)
    requires Known(a) && |a.path| > 1 && e.path == a.path[1..] && Lagging(a)
    requires e.nodes.Keys == a.nodes.Keys && forall n :: n in a.nodes ==> e.nodes[n].now == a.nodes[n].now
    ensures Lagging(e)
  {
  }

  lemma AskHarmless(f: Config, a: Config, n: nat)
    requires Same(f, a) && |f.path| > 1 && n in f.nodes
    requires Active(a).jobs != [] ==> Active(a).jobs[0].start > Active(a).now
    ensures Harmless(Ask(f).nodes[n], Ask(a).nodes[n]) && Ask(a).nodes[n].now == a.nodes[n].now
  {
    var p := f.path[1];
    assert f.path[0] in f.path && p in f.path;
    assert Harmless(Active(f), Active(a)) && Harmless(f.nodes[n], a.nodes[n]);
    assert a.nodes[a.path[1]].now <= a.nodes[a.path[0]].now;
    if n == p && Active(f).jobs != [] {
      assert Asking(f) == Asking(a);
      InsertHead(f.nodes[p].jobs, Asking(f));
    }
  }

  lemma InsertHead(l: seq<Entry>, e: Entry)
    ensures Insert(l, e) != [] && (Insert(l, e)[0] == e || (l != [] && Insert(l, e)[0] == l[0]))
  {
  }

  lemma BothExecute(f: Config, a: Config, behave: Behaviour, t: int)
    requires Ready(f, a) && Tree(f) && Active(f).jobs[0].Own? && t == Active(f).jobs[0].start
    ensures Same(Execute(f, behave, t), Execute(a, behave, t))
  {
    var d, e := Execute(f, behave, t), Execute(a, behave, t);
    forall i, j | 0 <= i < j < |e.path| ensures e.nodes[e.path[j]].now <= e.nodes[e.path[i]].now {
      assert a.nodes[a.path[j]].now <= a.nodes[a.path[i]].now;
      assert a.nodes[a.path[j]].now <= a.nodes[a.path[0]].now;
      assert f.path[0] != f.path[j];
    }
  }

  /** What a grant that works changes: the scheduler that gives and the one that gets. */
  ghost predicate Granted(c: Config, d: Config, k: nat, t: int)
    requires Known(c)
  {
    && d.nodes.Keys == c.nodes.Keys && d.parent == c.parent && d.path == [k] + c.path && d.log == c.log && d.failed == c.failed
    && k in c.nodes && k !in c.path && Active(c).jobs != []
    && d.nodes[c.path[0]] == Active(c).(now := t, jobs := Active(c).jobs[1..])
    && d.nodes[k] == c.nodes[k].(now := t, sync := d.nodes[k].sync)
    && forall n :: n in c.nodes && n != k && n != c.path[0] ==> d.nodes[n] == c.nodes[n]
  }

  lemma GrantIsGranted(c: Config, t: int)
    requires Known(c) && Active(c).jobs != [] && Active(c).jobs[0].Child? && !c.failed
    requires var k := Active(c).jobs[0].id;
             k in c.nodes && k !in c.path && c.nodes[k].now <= t && (c.nodes[k].jobs != [] ==> t <= c.nodes[k].jobs[0].start)
    ensures Granted(c, Grant(c, t), Active(c).jobs[0].id, t)
  {
    assert c.path[0] in c.path;
  }

  lemma BothGranted(f: Config, a: Config, d: Config, e: Config, k: nat, t: int)
    requires Ready(f, a) && Active(a).now <= t && Granted(f, d, k, t) && Granted(a, e, k, t)
    requires forall i, j :: 0 <= i < j < |a.path| ==> a.path[i] != a.path[j]
    ensures Same(d, e)
  {
    forall n | n in d.nodes ensures Harmless(d.nodes[n], e.nodes[n]) {
      assert n != f.path[0] ==> Harmless(f.nodes[n], a.nodes[n]);
    }
    GrantStillLagging(a, e, k, t);
  }

  lemma BothGrant(f: Config, a: Config, t: int)
    requires Ready(f, a) && Tree(f) && Linked(f) && !f.failed && Active(f).jobs[0].Child? && t == Active(f).jobs[0].start
    ensures Same(Grant(f, t), Grant(a, t))
  {
    GrantWorks(f);
    var k := Active(f).jobs[0].id;
    TakesTime(f, a, k, t);
    GrantIsGranted(f, t);
    GrantIsGranted(a, t);
    BothGranted(f, a, Grant(f, t), Grant(a, t), k, t);
  }

  lemma TakesTime(f: Config, a: Config, k: nat, t: int)
    requires Ready(f, a) && Tree(f) && k in f.nodes && k !in f.path && f.nodes[k].jobs != [] && f.nodes[k].jobs[0].start == t
    ensures k in a.nodes && a.nodes[k].now <= t && a.nodes[k].jobs == f.nodes[k].jobs
  {
    assert f.path[0] in f.path && Harmless(f.nodes[k], a.nodes[k]);
    assert NotPast(f.nodes[k]) && f.nodes[k].jobs[0] in f.nodes[k].jobs;
  }

  lemma GrantStillLagging(a: Config, e: Config, k: nat, t: int)
    requires Known(a) && Lagging(a) && Active(a).now <= t && k !in a.path && k in a.nodes
    requires forall i, j :: 0 <= i < j < |a.path| ==> a.path[i] != a.path[j]
    requires e.path == [k] + a.path && e.nodes.Keys == a.nodes.Keys && e.nodes[k].now == e.nodes[a.path[0]].now == t
    requires forall n :: n in a.nodes && n != k && n != a.path[0] ==> e.nodes[n] == a.nodes[n]
    ensures Known(e) && Lagging(e)
  {
    forall i, j | 0 <= i < j < |e.path| ensures e.nodes[e.path[j]].now <= e.nodes[e.path[i]].now {
      assert e.path[j] == a.path[j - 1] && a.path[j - 1] in a.path;
      assert j > 1 ==> a.path[0] != a.path[j - 1] && a.nodes[a.path[j - 1]].now <= a.nodes[a.path[0]].now;
      if i > 0 {
        assert e.path[i] == a.path[i - 1] && a.path[i - 1] in a.path;
        assert a.nodes[a.path[j - 1]].now <= a.nodes[a.path[i - 1]].now;
        assert a.path[i - 1] != a.path[j - 1];
      }
    }
  }

  /** Both execute, or grant, the same first entry at the same time. */
  lemma BothRun(f: Config, a: Config, ask: set<nat>, all: set<nat>, behave: Behaviour)
    requires Ready(f, a) && Tree(f) && Linked(f) && !f.failed && !MustAsk(f, ask) && !MustAsk(a, all)
    ensures Same(Tick(f, ask, behave), Tick(a, all, behave))
  {
    TickReaches(f, ask, behave);
    var t := Active(f).jobs[0].start;
    assert Tick(a, all, behave) == if Active(a).jobs[0].Own? then Execute(a, behave, t) else Grant(a, t);
    if Active(f).jobs[0].Own? {
      BothExecute(f, a, behave, t);
    } else {
      BothGrant(f, a, t);
    }
  }

  /** Where `f` skips the request, nothing above hinders it. */
  lemma SkipUnhindered(f: Config, a: Config, ask: set<nat>, all: set<nat>, t: int)
    requires Same(f, a) && Safe(f) && !f.failed && AlwaysAsk(f, all)
    requires !MustAsk(f, ask) && MustAsk(a, all) && Active(f).jobs != [] && t == Active(f).jobs[0].start
    ensures Active(f).now < t && Active(a).now < t
    ensures forall i :: 0 <= i < |a.path| - 1 ==> ComesFirst(a, i, t)
    ensures forall j :: 0 < j < |f.path| && f.nodes[f.path[j]].jobs != [] ==> t < f.nodes[f.path[j]].jobs[0].start
  {
    assert f.path[0] in f.path && Harmless(Active(f), Active(a)) && BoundedAt(f, 0);
    assert NotPast(Active(f)) && Active(f).jobs[0] in Active(f).jobs;
    forall i | 0 <= i < |a.path| - 1 ensures ComesFirst(a, i, t) {
      assert f.path[i + 1] in f.path && Harmless(f.nodes[f.path[i + 1]], a.nodes[a.path[i + 1]]);
    }
  }

  lemma SameTree(f: Config, a: Config)
    requires Same(f, a) && Tree(f)
    ensures Tree(a)
  {
    forall n | n in a.nodes ensures NotPast(a.nodes[n]) {
      assert Harmless(f.nodes[n], a.nodes[n]) && NotPast(f.nodes[n]);
      if a.nodes[n].jobs != [] { FirstIsEarliest(f.nodes[n]); }
    }
  }

  /** When `f` skips the request, `a` asks, gets the time and is then where `f` is. */
  lemma AskInstead(f: Config, a: Config, ask: set<nat>, all: set<nat>, behave: Behaviour) returns (n: nat, b: Config)
    requires Same(f, a) && Safe(f) && !f.failed && AlwaysAsk(f, all)
    requires !MustAsk(f, ask) && MustAsk(a, all) && Active(f).jobs != []
    ensures b == Iterate(Mode(all, behave), a, n) && Ready(f, b) && !MustAsk(b, all)
  {
    var t := Active(f).jobs[0].start;
    assert f.path[0] in f.path && Harmless(Active(f), Active(a));
    SkipUnhindered(f, a, ask, all, t);
    SameTree(f, a);
    n, b := ClimbAndReturn(a, all, behave, t);
    RaisedReady(f, a, b, t);
  }

  lemma RaisedReady(f: Config, a: Config, b: Config, t: int)
    requires Same(f, a) && Tree(f) && Lagging(f) && !f.failed && Raised(a, b, t)
    requires Active(f).now < t && Active(f).jobs != [] && t == Active(f).jobs[0].start
    requires forall j :: 0 < j < |f.path| && f.nodes[f.path[j]].jobs != [] ==> t < f.nodes[f.path[j]].jobs[0].start
    ensures Ready(f, b) && Active(b).now == t
  {
    assert f.path[0] in f.path && Harmless(Active(f), Active(a));
    forall n | n in f.nodes && n != f.path[0] ensures Harmless(f.nodes[n], b.nodes[n]) {
      assert Harmless(f.nodes[n], a.nodes[n]);
      if n in f.path {
        var j :| 0 <= j < |f.path| && f.path[j] == n;
        assert f.nodes[f.path[j]].now <= f.nodes[f.path[0]].now;
      }
    }
  }

  lemma OneStepMore(a: Config, b: Config, all: set<nat>, behave: Behaviour, n: nat) returns (d: Config)
    requires b == Iterate(Mode(all, behave), a, n)
    ensures d == Tick(b, all, behave) == Iterate(Mode(all, behave), a, n + 1)
  {
    OneMore(Mode(all, behave), a, n);
    d := Tick(b, all, behave);
  }

  /** One step with skipping is matched by one or more steps that always ask. */
  lemma Simulate(f: Config, a: Config, ask: set<nat>, all: set<nat>, behave: Behaviour) returns (n: nat, d: Config)
    requires Same(f, a) && Safe(f) && Linked(f) && !f.failed && AlwaysAsk(f, all)
    ensures n > 0 && d == Iterate(Mode(all, behave), a, n) && Same(Tick(f, ask, behave), d)
  {
    if MustAsk(f, ask) {
      BothAsk(f, a, ask, all);
      d := OneStepMore(a, a, all, behave, 0);
      n := 1;
    } else if Active(f).jobs == [] {
      assert f.path[0] in f.path && Harmless(Active(f), Active(a));
      d := OneStepMore(a, a, all, behave, 0);
      n := 1;
    } else {
      n, d := SimulateRun(f, a, ask, all, behave);
    }
  }

  lemma SimulateRun(f: Config, a: Config, ask: set<nat>, all: set<nat>, behave: Behaviour) returns (n: nat, d: Config)
    requires Same(f, a) && Safe(f) && Linked(f) && !f.failed && AlwaysAsk(f, all) && !MustAsk(f, ask) && Active(f).jobs != []
    ensures n > 0 && d == Iterate(Mode(all, behave), a, n) && Same(Tick(f, ask, behave), d)
  {
    var b := a;
    n := 0;
    if MustAsk(a, all) {
      n, b := AskInstead(f, a, ask, all, behave);
    } else {
      SameReady(f, a);
    }
    BothRun(f, b, ask, all, behave);
    d := OneStepMore(a, b, all, behave, n);
    n := n + 1;
  }

  lemma SameReady(f: Config, a: Config)
    requires Same(f, a) && Tree(f) && Active(f).jobs != []
    ensures Ready(f, a)
  {
    assert f.path[0] in f.path && Harmless(Active(f), Active(a));
    assert NotPast(Active(f)) && Active(f).jobs[0] in Active(f).jobs;
  }

  // ------------------------------------------------------------ the theorem

  lemma {:induction false} LogGrows(step: Machine, c: Config, n: nat)
    requires forall x: Config :: x.log <= step(x).log
    ensures c.log <= Iterate(step, c, n).log
    decreases n
  {
    if n > 0 { LogGrows(step, step(c), n - 1); }
  }

  ghost predicate Related(all: set<nat>, f: Config, a: Config) {
    AlwaysAsk(f, all) && !f.failed && Safe(f) && Linked(f) && Same(f, a)
  }

  /** `k` steps of `asking` from `a` match one of `free` from `f`. */
  ghost predicate Matched(free: Machine, asking: Machine, rel: (Config, Config) -> bool, f: Config, a: Config, k: nat) {
    k > 0 && rel(free(f), Iterate(asking, a, k))
  }

  lemma FirstMatch(
      free: Machine, asking: Machine, rel: (Config, Config) -> bool, steps: (Config, Config) -> nat, f: Config, a: Config)
    returns (k: nat, b: Config)
    requires (forall x, y {:trigger steps(x, y)} :: rel(x, y) ==> Matched(free, asking, rel, x, y, steps(x, y))) && rel(f, a)
    ensures k > 0 && b == Iterate(asking, a, k) && rel(free(f), b)
  {
    k := steps(f, a);
    assert Matched(free, asking, rel, f, a, k);
    b := Iterate(asking, a, k);
  }

  /** If each step of `free` is matched by steps of `asking`, then so is each run. */
  lemma {:induction false} RunsMatch(
      free: Machine, asking: Machine, rel: (Config, Config) -> bool, steps: (Config, Config) -> nat, f: Config, a: Config, n: nat)
    returns (m: nat)
    requires forall x, y {:trigger steps(x, y)} :: rel(x, y) ==> Matched(free, asking, rel, x, y, steps(x, y))
    requires rel(f, a)
    ensures n <= m && rel(Iterate(free, f, n), Iterate(asking, a, m))
    decreases n
  {
    if n == 0 {
      m := 0;
    } else {
      var k, b := FirstMatch(free, asking, rel, steps, f, a);
      m := RunsMatch(free, asking, rel, steps, free(f), b, n - 1);
      IterateConcat(asking, a, k, m);
      m := k + m;
    }
  }

  ghost function Relation(all: set<nat>): (Config, Config) -> bool { (x, y) => Related(all, x, y) }

  ghost function StepsFor(ask: set<nat>, all: set<nat>, behave: Behaviour, f: Config, a: Config): nat {
    if exists k: nat :: Matched(Mode(ask, behave), Mode(all, behave), Relation(all), f, a, k) then
      var k: nat :| Matched(Mode(ask, behave), Mode(all, behave), Relation(all), f, a, k); k
    else 0
  }

  ghost function Steps(ask: set<nat>, all: set<nat>, behave: Behaviour): (Config, Config) -> nat {
    (x, y) => StepsFor(ask, all, behave, x, y)
  }

  lemma StepMatched(f: Config, a: Config, ask: set<nat>, all: set<nat>, behave: Behaviour)
    requires Relation(all)(f, a)
    ensures Matched(Mode(ask, behave), Mode(all, behave), Relation(all), f, a, Steps(ask, all, behave)(f, a))
  {
    var k, d := Simulate(f, a, ask, all, behave);
    TickNeverFails(f, ask, behave);
    SameNodes(f, ask, behave);
    assert Related(all, Mode(ask, behave)(f), d);
    assert Matched(Mode(ask, behave), Mode(all, behave), Relation(all), f, a, k);
  }

  lemma SameNodes(f: Config, ask: set<nat>, behave: Behaviour)
    ensures Tick(f, ask, behave).nodes.Keys == f.nodes.Keys && f.log <= Tick(f, ask, behave).log
  {
  }

  lemma AskingGrows(all: set<nat>, behave: Behaviour)
    ensures forall x: Config :: x.log <= Mode(all, behave)(x).log
  {
    forall x: Config ensures x.log <= Mode(all, behave)(x).log { SameNodes(x, all, behave); }
  }

  /** The run that always asks, cut off after `n` steps. */
  lemma LogsSoFar(asking: Machine, c: Config, n: nat, m: nat)
    requires n <= m && forall x: Config :: x.log <= asking(x).log
    ensures Iterate(asking, c, n).log <= Iterate(asking, c, m).log
  {
    IterateConcat(asking, c, n, m - n);
    LogGrows(asking, Iterate(asking, c, n), m - n);
  }

  lemma RunRelated(c: Config, ask: set<nat>, all: set<nat>, behave: Behaviour, n: nat) returns (m: nat)
    requires Safe(c) && Linked(c) && !c.failed && AlwaysAsk(c, all)
    ensures n <= m && Related(all, Iterate(Mode(ask, behave), c, n), Iterate(Mode(all, behave), c, m))
  {
    var rel, steps := Relation(all), Steps(ask, all, behave);
    forall x, y | rel(x, y) ensures Matched(Mode(ask, behave), Mode(all, behave), rel, x, y, steps(x, y)) {
      StepMatched(x, y, ask, all, behave);
    }
    m := RunsMatch(Mode(ask, behave), Mode(all, behave), rel, steps, c, c, n);
  }

  /** For every tree of schedulers, every behaviour of their jobs and every choice of which of
      them skip requests: what has been executed after `n` steps is exactly what has been
      executed at some point when every scheduler always asks, and nothing that asking
      executes in `n` steps is missing. No assertion fails. */
  lemma FreeRunningIsAsking(c: Config, ask: set<nat>, all: set<nat>, behave: Behaviour, n: nat) returns (m: nat)
    requires Safe(c) && Linked(c) && !c.failed && AlwaysAsk(c, all)
    ensures n <= m && Iterate(Mode(ask, behave), c, n).log == Iterate(Mode(all, behave), c, m).log
    ensures Iterate(Mode(all, behave), c, n).log <= Iterate(Mode(ask, behave), c, n).log
    ensures !Iterate(Mode(ask, behave), c, n).failed
  {
    m := RunRelated(c, ask, all, behave, n);
    AskingGrows(all, behave);
    LogsSoFar(Mode(all, behave), c, n, m);
  }
}
