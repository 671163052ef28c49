/** What passing the run token sends and flags (src/multi-shared-mem.c, src/multi-ctl.c,
    src/multi-ptc.c): the buffer goes out exactly if it is needed, the flags record who still
    needs it, and while nobody writes nothing is sent at all. */
module SharedMemQuiet {
  import opened Wrappers
  import opened SharedMem
  import opened SharedMemRefinement

  /** The receiver of the sections `m`: it takes those it declares, and its own waiting
      participants now need them. */
  ghost predicate Takes(c: Node, c': Node, m: map<Name, Buf>, dirty: bool) {
    && c'.local.Keys == c.local.Keys && c'.kids == Outdate(c.kids, false) && c'.dirty == dirty
    && forall s :: s in c.local ==> c'.local[s] == if s in m then m[s] else c.local[s]
  }

  /** The flags of a participant after its controller has announced its memory: a change
      outdates it. */
  ghost function Marked(f: Flags, changed: bool): Flags { f.(outdated := f.outdated || changed) }

  lemma PrepareMarks(n: Node)
    requires Declared(n)
    ensures var p := Prepare(n).s;
            && Prepare(n).Ok? && p.local == n.local == p.msg && p.dirty == (n.dirty || Changed(n))
            && p.kids.Keys == n.kids.Keys && forall k :: k in n.kids ==> p.kids[k] == Marked(n.kids[k], Changed(n))
  {
    PrepareEffect(n, {});
  }

  /** `n'` and `c'` are controller and participant after a grant. */
  ghost predicate Granted(n: Node, n': Node, c: Node, c': Node, kid: nat)
    requires kid in n.kids
  {
    && n'.local == n'.msg == n.local && n'.dirty == (n.dirty || Changed(n)) && n'.kids.Keys == n.kids.Keys
    && (forall k :: k in n.kids && k != kid ==> n'.kids[k] == Marked(n.kids[k], Changed(n)))
    && n'.kids[kid] == Flags(false, false)
    && if (n.kids[kid].outdated || Changed(n)) && n.local != map[] then Takes(c, c', n.local, c.dirty) else c' == c
  }

  /** `c'` and `n'` are participant and controller after the token came back. */
  ghost predicate Returned(c: Node, c': Node, n: Node, n': Node, kid: nat)
    requires kid in n.kids
  {
    && c'.local == c'.msg == c.local && !c'.dirty && c'.kids.Keys == c.kids.Keys
    && (forall k :: k in c.kids ==> c'.kids[k] == Marked(c.kids[k], Changed(c)))
    && kid in n'.kids && n'.kids[kid] == n.kids[kid].(waiting := true)
    && var back := n'.(kids := n'.kids[kid := n.kids[kid]]);
       if (c.dirty || Changed(c)) && c.local != map[] then Takes(n, back, c.local, true) else back == n
  }

  lemma GrantingMarks(n: Node, kid: nat)
    requires Declared(n) && kid in n.kids
    ensures var p := Granting(n, kid).s;
            && Granting(n, kid).Ok? && p.local == n.local == p.msg && p.dirty == (n.dirty || Changed(n))
            && p.kids.Keys == n.kids.Keys && (forall k :: k in n.kids && k != kid ==> p.kids[k] == Marked(n.kids[k], Changed(n)))
            && p.kids[kid].outdated == (n.kids[kid].outdated || Changed(n))
  {
    var r := n.(kids := n.kids[kid := n.kids[kid].(waiting := false)]);
    PrepareMarks(r);
    assert Changed(r) == Changed(n);
  }

  lemma GrantedNodes(n: Node, c: Node, kid: nat)
    requires Declared(n) && Declared(c) && Announces(c) && SizesFit(c.local, n.local) && kid in n.kids
    ensures Granting(n, kid).Ok? && kid in Granting(n, kid).s.kids
    ensures var p := Granting(n, kid).s;
            Granted(n, SetFlags(p, kid, false, true), c, Receive(c, Message(p, p.kids[kid].outdated), true), kid)
  {
    GrantingMarks(n, kid);
    var p := Granting(n, kid).s;
    HandleEffect(c, Message(p, p.kids[kid].outdated), true);
  }

  /** Granting run time sends the controller's sections exactly if the participant is flagged
      or the controller has changed one since it last announced them. The participant's flag
      is then clear; a change leaves the controller dirty and all others flagged. */
  lemma GrantSends(y: System, common: set<Name>, kid: nat, z: System)
    requires Inv(y, common) && Allowed(y, Grant(kid)) && GrantTo(y, kid, false) == Ok(z)
    ensures Granted(y.nodes[y.holder], z.nodes[y.holder], y.nodes[kid], z.nodes[kid], kid)
  {
    EdgeFacts(y, common, y.holder, kid);
    GrantedNodes(y.nodes[y.holder], y.nodes[kid], kid);
  }

  lemma ReturnedNodes(n: Node, c: Node, kid: nat)
    requires Declared(c) && Declared(n) && Announces(n) && SizesFit(n.local, c.local) && kid in n.kids && !n.kids[kid].waiting
    ensures Prepare(c).Ok?
    ensures var p := Prepare(c).s;
            Returned(c, p.(dirty := false), n, SetFlags(Receive(n, Message(p, p.dirty), false), kid, true, false), kid)
  {
    PrepareMarks(c);
    var p := Prepare(c).s;
    HandleEffect(n, Message(p, p.dirty), false);
    FlagsBack(Receive(n, Message(p, p.dirty), false), n.kids, kid);
  }

  /** Resetting the flags of `kid` undoes what the end of the exchange does to them. */
  lemma FlagsBack(r: Node, kids: map<nat, Flags>, kid: nat)
    requires kid in kids && !kids[kid].waiting && (r.kids == kids || r.kids == Outdate(kids, false))
    ensures var n := SetFlags(r, kid, true, false);
            n.kids[kid] == kids[kid].(waiting := true) && n.(kids := n.kids[kid := kids[kid]]) == r
  {
    var n := SetFlags(r, kid, true, false);
    assert n.kids[kid := kids[kid]] == r.kids;
  }

  /** Returning the token sends the sections exactly if the process is dirty or has changed
      one; it is then clean, and its controller, if it got them, is dirty itself. */
  lemma ReturnSends(y: System, common: set<Name>, z: System)
    requires Inv(y, common) && Allowed(y, Return) && ReturnToParent(y, false) == Ok(z)
    ensures z.holder == y.parent[y.holder]
    ensures Returned(y.nodes[y.holder], z.nodes[y.holder], y.nodes[z.holder], z.nodes[z.holder], y.holder)
  {
    var n := y.parent[y.holder];
    EdgeFacts(y, common, y.holder, n);
    assert !y.nodes[n].kids[y.holder].waiting;
    ReturnedNodes(y.nodes[n], y.nodes[y.holder], y.holder);
  }

  ghost predicate QuietNode(n: Node) {
    !n.dirty && !Changed(n) && forall k :: k in n.kids ==> !n.kids[k].outdated
  }

  ghost predicate Quiet(y: System) { forall n :: n in y.nodes ==> QuietNode(y.nodes[n]) }

  ghost predicate SameMemory(y: System, z: System) {
    z.nodes.Keys == y.nodes.Keys && forall n :: n in y.nodes ==> z.nodes[n].local == y.nodes[n].local
  }

  lemma QuietTwo(y: System, z: System, n: nat, c: nat)
    requires Quiet(y) && OnlyTwo(y, z, n, c) && QuietNode(z.nodes[n]) && QuietNode(z.nodes[c])
    requires z.nodes[n].local == y.nodes[n].local && z.nodes[c].local == y.nodes[c].local
    ensures Quiet(z) && SameMemory(y, z)
  {
  }

  /** A quiet process stays quiet when it announces its memory. */
  lemma AnnouncingQuiet(n: Node, n': Node, kid: nat)
    requires QuietNode(n) && n'.local == n'.msg && n'.dirty == n.dirty && n'.kids.Keys == n.kids.Keys
    requires forall k :: k in n.kids && k != kid ==> n'.kids[k] == Marked(n.kids[k], false)
    requires kid in n.kids ==> !n'.kids[kid].outdated
    ensures QuietNode(n')
  {
  }

  lemma GrantQuiet(y: System, common: set<Name>, kid: nat, z: System)
    requires Inv(y, common) && Quiet(y) && Allowed(y, Grant(kid)) && GrantTo(y, kid, false) == Ok(z)
    ensures Quiet(z) && SameMemory(y, z) && z.nodes[kid] == y.nodes[kid]
  {
    GrantSends(y, common, kid, z);
    GrantOnly(y, kid, z);
    assert QuietNode(y.nodes[y.holder]) && QuietNode(y.nodes[kid]);
    AnnouncingQuiet(y.nodes[y.holder], z.nodes[y.holder], kid);
    QuietTwo(y, z, y.holder, kid);
  }

  lemma GrantOnly(y: System, kid: nat, z: System)
    requires y.holder in y.nodes && kid in y.nodes && kid in y.nodes[y.holder].kids && y.holder != kid
    requires GrantTo(y, kid, false) == Ok(z)
    ensures OnlyTwo(y, z, y.holder, kid)
  {
  }

  lemma ReturnOnly(y: System, z: System)
    requires y.holder in y.nodes && y.holder in y.parent && y.parent[y.holder] in y.nodes && y.holder != y.parent[y.holder]
    requires ReturnToParent(y, false) == Ok(z)
    ensures OnlyTwo(y, z, y.holder, y.parent[y.holder])
  {
  }

  lemma ReturnQuiet(y: System, common: set<Name>, z: System)
    requires Inv(y, common) && Quiet(y) && Allowed(y, Return) && ReturnToParent(y, false) == Ok(z)
    ensures Quiet(z) && SameMemory(y, z)
  {
    ReturnSends(y, common, z);
    ReturnOnly(y, z);
    assert QuietNode(y.nodes[y.holder]) && QuietNode(y.nodes[z.holder]);
    AnnouncingQuiet(y.nodes[y.holder], z.nodes[y.holder], y.holder);
    ReturnedQuiet(y.nodes[z.holder], z.nodes[z.holder], y.holder);
    QuietTwo(y, z, y.holder, z.holder);
  }

  lemma ReturnedQuiet(n: Node, n': Node, kid: nat)
    requires QuietNode(n) && kid in n.kids && kid in n'.kids && n'.kids[kid] == n.kids[kid].(waiting := true)
    requires n'.(kids := n'.kids[kid := n.kids[kid]]) == n
    ensures QuietNode(n')
  {
    assert forall k :: k in n'.kids ==> k in n'.kids[kid := n.kids[kid]];
  }

  lemma InitialQuiet(y: System, common: set<Name>)
    requires Initial(y, common)
    ensures Quiet(y)
  {
    forall n, k | n in y.nodes && k in y.nodes[n].kids ensures !y.nodes[n].kids[k].outdated {
      assert k in y.parent && y.parent[k] == n;
    }
  }

  /** However the token travels, while nobody writes no process becomes dirty and no
      participant is flagged, so no section is ever sent. */
  lemma {:induction false} RunQuiet(y: System, common: set<Name>, ops: seq<Op>, last: Outcome<System>)
    requires Inv(y, common) && Quiet(y) && Run(y, ops, false, last) && forall op :: op in ops ==> !op.Write?
    ensures last.Ok? && Quiet(last.s) && SameMemory(y, last.s)
    decreases |ops|
  {
    if ops != [] {
      if ops[0].Grant? {
        GrantGood(y, common, ops[0].kid, false);
        GrantQuiet(y, common, ops[0].kid, Step(y, ops[0], false).s);
      } else {
        ReturnGood(y, common, false);
        ReturnQuiet(y, common, Step(y, ops[0], false).s);
      }
      RunQuiet(Step(y, ops[0], false).s, common, ops[1..], last);
    }
  }
}
