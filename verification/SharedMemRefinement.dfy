/** Sending the shared memory only to outdated peers refines sending it every time: every run
    that is possible with the one is possible with the other, and shows the same memory. */
module SharedMemRefinement {
  import opened Wrappers
  import opened SharedMem

  /** `b` may have more sections in its buffer than `a`; what is declared, with which sizes, and
      who waits is the same. */
  ghost predicate Follows(a: Node, b: Node) {
    && a.local.Keys == b.local.Keys && SizesFit(a.local, b.local) && a.msg.Keys <= b.msg.Keys && SameKids(a, b)
  }

  ghost predicate Parallel(y: System, z: System) {
    && z.holder == y.holder && z.parent == y.parent && z.nodes.Keys == y.nodes.Keys
    && forall n :: n in y.nodes ==> Follows(y.nodes[n], z.nodes[n])
  }

  /** What is allowed in `y` is allowed in `z`. */
  lemma AllowedToo(y: System, z: System, op: Op)
    requires Parallel(y, z) && WellFormed(y) && Allowed(y, op)
    ensures z.holder in z.nodes && Allowed(z, op)
  {
    assert Follows(y.nodes[y.holder], z.nodes[z.holder]);
  }

  // ------------------------------------------------------------ what a step does to the shape

  /** `n` after it has announced its view, with the waiting flag of `kid` as given. */
  ghost predicate AnnouncedShape(n: Node, n': Node) {
    n'.local == n.local && n'.msg.Keys == n.local.Keys && n'.kids.Keys == n.kids.Keys
  }

  ghost predicate FlagsBut(n: Node, n': Node, kid: nat) {
    n'.kids.Keys == n.kids.Keys && forall k :: k in n.kids && k != kid ==> n'.kids[k].waiting == n.kids[k].waiting
  }

  /** `c` after it has received the message `m`. */
  ghost predicate ReceivedShape(c: Node, c': Node, m: map<Name, Buf>) {
    && c'.local.Keys == c.local.Keys && SizesFit(c.local, c'.local)
    && c'.msg.Keys == c.msg.Keys + (if m == map[] then {} else c.local.Keys * m.Keys)
  }

  lemma ReceiveShape(c: Node, m: map<Name, Buf>, keepClean: bool)
    requires Declared(c) && Announces(c) && SizesFit(c.local, m)
    ensures ReceivedShape(c, Receive(c, m, keepClean), m) && SameKids(c, Receive(c, m, keepClean))
  {
    HandleEffect(c, m, keepClean);
  }

  lemma PrepareShape(n: Node)
    requires Declared(n)
    ensures Prepare(n).Ok? && AnnouncedShape(n, Prepare(n).s) && SameKids(n, Prepare(n).s) && Prepare(n).s.msg == n.local
  {
    PrepareEffect(n, {});
  }

  /** Controller and participant after a grant: the message holds all of the controller's
      sections, or nothing. */
  lemma GrantNodeShape(n: Node, c: Node, kid: nat, eager: bool) returns (p: Node, m: map<Name, Buf>)
    requires Declared(n) && Declared(c) && Announces(c) && SizesFit(c.local, n.local) && kid in n.kids
    ensures Granting(n, kid) == Ok(p) && m == Message(p, eager || (kid in p.kids && p.kids[kid].outdated))
    ensures (m == map[] || m == n.local) && (eager ==> m == n.local)
    ensures AnnouncedShape(n, p) && FlagsBut(n, p, kid)
    ensures ReceivedShape(c, Receive(c, m, true), m) && SameKids(c, Receive(c, m, true))
  {
    PrepareShape(n.(kids := n.kids[kid := n.kids[kid].(waiting := false)]));
    p := Granting(n, kid).s;
    m := Message(p, eager || (kid in p.kids && p.kids[kid].outdated));
    ReceiveShape(c, m, true);
  }

  lemma ReturnNodeShape(n: Node, c: Node, eager: bool) returns (p: Node, m: map<Name, Buf>)
    requires Declared(c) && Declared(n) && Announces(n) && SizesFit(n.local, c.local)
    ensures Prepare(c) == Ok(p) && m == Message(p, eager || p.dirty)
    ensures (m == map[] || m == c.local) && (eager ==> m == c.local)
    ensures AnnouncedShape(c, p) && SameKids(c, p)
    ensures ReceivedShape(n, Receive(n, m, false), m) && SameKids(n, Receive(n, m, false))
  {
    PrepareShape(c);
    p := Prepare(c).s;
    m := Message(p, eager || p.dirty);
    ReceiveShape(n, m, false);
  }

  ghost predicate OnlyTwo(y: System, z: System, n: nat, c: nat) {
    && z.parent == y.parent && z.nodes.Keys == y.nodes.Keys && n in y.nodes && c in y.nodes && n != c
    && forall k :: k in y.nodes && k != n && k != c ==> z.nodes[k] == y.nodes[k]
  }

  /** What an exchange of the token needs from the invariant. */
  lemma EdgeFacts(y: System, common: set<Name>, n: nat, c: nat)
    requires Inv(y, common) && n in y.nodes && c in y.nodes && c != y.holder
    ensures Declared(y.nodes[n]) && Declared(y.nodes[c]) && Announces(y.nodes[c]) && SizesFit(y.nodes[c].local, y.nodes[n].local)
  {
  }

  lemma GrantShape(y: System, kid: nat, eager: bool, z: System) returns (m: map<Name, Buf>)
    requires y.holder in y.nodes && kid in y.nodes && kid in y.nodes[y.holder].kids && y.holder != kid
    requires Declared(y.nodes[y.holder]) && Declared(y.nodes[kid]) && Announces(y.nodes[kid])
    requires SizesFit(y.nodes[kid].local, y.nodes[y.holder].local) && GrantTo(y, kid, eager) == Ok(z)
    ensures z.holder == kid && OnlyTwo(y, z, y.holder, kid)
    ensures (m == map[] || m == y.nodes[y.holder].local) && (eager ==> m == y.nodes[y.holder].local)
    ensures AnnouncedShape(y.nodes[y.holder], z.nodes[y.holder]) && FlagsBut(y.nodes[y.holder], z.nodes[y.holder], kid)
    ensures kid in z.nodes[y.holder].kids && !z.nodes[y.holder].kids[kid].waiting
    ensures ReceivedShape(y.nodes[kid], z.nodes[kid], m) && SameKids(y.nodes[kid], z.nodes[kid])
  {
    var p;
    p, m := GrantNodeShape(y.nodes[y.holder], y.nodes[kid], kid, eager);
  }

  lemma ReturnShape(y: System, eager: bool, z: System) returns (m: map<Name, Buf>)
    requires y.holder in y.nodes && y.holder in y.parent && y.parent[y.holder] in y.nodes && y.holder != y.parent[y.holder]
    requires Declared(y.nodes[y.holder]) && Declared(y.nodes[y.parent[y.holder]]) && Announces(y.nodes[y.parent[y.holder]])
    requires SizesFit(y.nodes[y.parent[y.holder]].local, y.nodes[y.holder].local) && ReturnToParent(y, eager) == Ok(z)
    requires y.holder in y.nodes[y.parent[y.holder]].kids
    ensures z.holder == y.parent[y.holder] && OnlyTwo(y, z, z.holder, y.holder)
    ensures (m == map[] || m == y.nodes[y.holder].local) && (eager ==> m == y.nodes[y.holder].local)
    ensures AnnouncedShape(y.nodes[y.holder], z.nodes[y.holder]) && SameKids(y.nodes[y.holder], z.nodes[y.holder])
    ensures ReceivedShape(y.nodes[z.holder], z.nodes[z.holder], m) && FlagsBut(y.nodes[z.holder], z.nodes[z.holder], y.holder)
    ensures y.holder in z.nodes[z.holder].kids && z.nodes[z.holder].kids[y.holder].waiting
  {
    var p;
    p, m := ReturnNodeShape(y.nodes[y.parent[y.holder]], y.nodes[y.holder], eager);
  }

  // ------------------------------------------------------------ both steps together

  lemma FollowsAnnounced(a: Node, a': Node, b: Node, b': Node, kid: nat)
    requires Follows(a, b) && AnnouncedShape(a, a') && AnnouncedShape(b, b') && FlagsBut(a, a', kid) && FlagsBut(b, b', kid)
    requires kid in a'.kids ==> kid in b'.kids && a'.kids[kid].waiting == b'.kids[kid].waiting
    ensures Follows(a', b')
  {
  }

  lemma FollowsReceived(a: Node, a': Node, b: Node, b': Node, m: map<Name, Buf>, l: map<Name, Buf>, kid: nat)
    requires Follows(a, b) && ReceivedShape(a, a', m) && ReceivedShape(b, b', l) && m.Keys <= l.Keys
    requires FlagsBut(a, a', kid) && FlagsBut(b, b', kid)
    requires kid in a'.kids ==> kid in b'.kids && a'.kids[kid].waiting == b'.kids[kid].waiting
    ensures Follows(a', b')
  {
  }

  lemma ParallelTwo(y: System, z: System, y': System, z': System, n: nat, c: nat)
    requires Parallel(y, z) && OnlyTwo(y, y', n, c) && OnlyTwo(z, z', n, c) && z'.holder == y'.holder
    requires Follows(y'.nodes[n], z'.nodes[n]) && Follows(y'.nodes[c], z'.nodes[c])
    ensures Parallel(y', z')
  {
    forall k | k in y'.nodes ensures Follows(y'.nodes[k], z'.nodes[k]) {
      assert Follows(y.nodes[k], z.nodes[k]);
    }
  }

  lemma GrantParallel(y: System, z: System, common: set<Name>, kid: nat) returns (y': System, z': System)
    requires Inv(y, common) && Inv(z, common) && Parallel(y, z) && Allowed(y, Grant(kid)) && Allowed(z, Grant(kid))
    ensures GrantTo(y, kid, false) == Ok(y') && GrantTo(z, kid, true) == Ok(z')
    ensures Inv(y', common) && Inv(z', common) && Parallel(y', z')
  {
    var h := y.holder;
    GrantGood(y, common, kid, false);
    GrantGood(z, common, kid, true);
    y', z' := GrantTo(y, kid, false).s, GrantTo(z, kid, true).s;
    GrantSides(y, z, common, kid, y', z');
    ParallelTwo(y, z, y', z', h, kid);
  }

  lemma GrantSides(y: System, z: System, common: set<Name>, kid: nat, y': System, z': System)
    requires Inv(y, common) && Inv(z, common) && Parallel(y, z) && Allowed(y, Grant(kid)) && Allowed(z, Grant(kid))
    requires GrantTo(y, kid, false) == Ok(y') && GrantTo(z, kid, true) == Ok(z')
    ensures y'.holder == z'.holder == kid && OnlyTwo(y, y', y.holder, kid) && OnlyTwo(z, z', y.holder, kid)
    ensures Follows(y'.nodes[y.holder], z'.nodes[y.holder]) && Follows(y'.nodes[kid], z'.nodes[kid])
  {
    var h := y.holder;
    EdgeFacts(y, common, h, kid);
    EdgeFacts(z, common, h, kid);
    var m := GrantShape(y, kid, false, y');
    var l := GrantShape(z, kid, true, z');
    assert Follows(y.nodes[h], z.nodes[h]) && Follows(y.nodes[kid], z.nodes[kid]);
    FollowsAnnounced(y.nodes[h], y'.nodes[h], z.nodes[h], z'.nodes[h], kid);
    FollowsReceived(y.nodes[kid], y'.nodes[kid], z.nodes[kid], z'.nodes[kid], m, l, kid);
  }

  lemma ReturnParallel(y: System, z: System, common: set<Name>) returns (y': System, z': System)
    requires Inv(y, common) && Inv(z, common) && Parallel(y, z) && Allowed(y, Return) && Allowed(z, Return)
    ensures ReturnToParent(y, false) == Ok(y') && ReturnToParent(z, true) == Ok(z')
    ensures Inv(y', common) && Inv(z', common) && Parallel(y', z')
  {
    ReturnGood(y, common, false);
    ReturnGood(z, common, true);
    y', z' := ReturnToParent(y, false).s, ReturnToParent(z, true).s;
    ReturnSides(y, z, common, y', z');
    ParallelTwo(y, z, y', z', y'.holder, y.holder);
  }

  lemma ReturnSides(y: System, z: System, common: set<Name>, y': System, z': System)
    requires Inv(y, common) && Inv(z, common) && Parallel(y, z) && Allowed(y, Return) && Allowed(z, Return)
    requires ReturnToParent(y, false) == Ok(y') && ReturnToParent(z, true) == Ok(z')
    ensures y'.holder == z'.holder && OnlyTwo(y, y', y'.holder, y.holder) && OnlyTwo(z, z', y'.holder, y.holder)
    ensures Follows(y'.nodes[y.holder], z'.nodes[y.holder]) && Follows(y'.nodes[y'.holder], z'.nodes[y'.holder])
  {
    var h, n := y.holder, y.parent[y.holder];
    EdgeFacts(y, common, h, n);
    EdgeFacts(z, common, h, n);
    var m := ReturnShape(y, false, y');
    var l := ReturnShape(z, true, z');
    assert Follows(y.nodes[h], z.nodes[h]) && Follows(y.nodes[n], z.nodes[n]);
    FollowsAnnounced(y.nodes[h], y'.nodes[h], z.nodes[h], z'.nodes[h], h);
    FollowsReceived(y.nodes[n], y'.nodes[n], z.nodes[n], z'.nodes[n], m, l, h);
  }

  lemma FollowsWritten(a: Node, b: Node, s: Name, buf: Buf)
    requires Follows(a, b) && s in a.local && |buf| == |a.local[s]|
    ensures Follows(a.(local := a.local[s := buf]), b.(local := b.local[s := buf]))
  {
  }

  lemma WriteSides(y: System, z: System, s: Name, b: Buf, y': System, z': System)
    requires Parallel(y, z) && WellFormed(y) && WellFormed(z) && Allowed(y, Write(s, b)) && Allowed(z, Write(s, b))
    requires Step(y, Write(s, b), false) == Ok(y') && Step(z, Write(s, b), true) == Ok(z')
    ensures Parallel(y', z')
  {
    FollowsWritten(y.nodes[y.holder], z.nodes[z.holder], s, b);
  }

  lemma WriteParallel(y: System, z: System, common: set<Name>, s: Name, b: Buf) returns (y': System, z': System)
    requires Inv(y, common) && Inv(z, common) && Parallel(y, z) && Allowed(y, Write(s, b)) && Allowed(z, Write(s, b))
    ensures Step(y, Write(s, b), false) == Ok(y') && Step(z, Write(s, b), true) == Ok(z')
    ensures Inv(y', common) && Inv(z', common) && Parallel(y', z')
  {
    WriteGood(y, common, s, b, false);
    WriteGood(z, common, s, b, true);
    y', z' := Step(y, Write(s, b), false).s, Step(z, Write(s, b), true).s;
    WriteSides(y, z, s, b, y', z');
  }

  lemma StepParallel(y: System, z: System, common: set<Name>, op: Op) returns (y': System, z': System)
    requires Inv(y, common) && Inv(z, common) && Parallel(y, z) && Allowed(y, op)
    ensures Allowed(z, op) && Step(y, op, false) == Ok(y') && Step(z, op, true) == Ok(z')
    ensures Inv(y', common) && Inv(z', common) && Parallel(y', z')
  {
    AllowedToo(y, z, op);
    match op
    case Write(s, b) => y', z' := WriteParallel(y, z, common, s, b);
    case Grant(kid) => y', z' := GrantParallel(y, z, common, kid);
    case Return => y', z' := ReturnParallel(y, z, common);
  }

  /** Every run with lazy sending is a run with eager sending. */
  lemma {:induction false} EagerRun(y: System, z: System, common: set<Name>, ops: seq<Op>, lazy: Outcome<System>)
    returns (eager: Outcome<System>)
    requires Inv(y, common) && Inv(z, common) && Parallel(y, z) && Run(y, ops, false, lazy)
    ensures Run(z, ops, true, eager)
    decreases |ops|
  {
    if ops == [] {
      eager := Ok(z);
    } else {
      var y', z' := StepParallel(y, z, common, ops[0]);
      eager := EagerRun(y', z', common, ops[1..], lazy);
    }
  }

  /** Every run in which buffers are sent only to outdated peers is also a run when they are
      sent every time, and both show the running process the same memory. */
  lemma LazyRefinesEager(y: System, common: set<Name>, ops: seq<Op>, lazy: Outcome<System>) returns (eager: Outcome<System>)
    requires Initial(y, common) && Run(y, ops, false, lazy)
    ensures Run(y, ops, true, eager) && lazy.Ok? && eager.Ok?
    ensures lazy.s.holder in lazy.s.nodes && eager.s.holder in eager.s.nodes
    ensures HolderMemory(lazy.s, common) == HolderMemory(eager.s, common)
  {
    InitialInv(y, common);
    eager := EagerRun(y, y, common, ops, lazy);
    RunSeesOneMemory(y, common, ops, false, lazy);
    RunSeesOneMemory(y, common, ops, true, eager);
  }
}
