/** Shared memory between the processes of a multi-participant simulation
    (src/multi-shared-mem.c, src/multi-ctl.c, src/multi-ptc.c): the operations of one
    process, and a tree of processes that pass the run token. */
module SharedMem {
  import opened Wrappers

  type Name = nat
  type Buf = seq<bv8>

  /** Flags a controller keeps for a participant. */
  datatype Flags = Flags(waiting: bool, outdated: bool)

  /** One process: its sections, the message buffer (its notion of the remote view), the
      flag that its own view is outdated, the dirty bit and its participants. */
  datatype Node = Node(local: map<Name, Buf>, msg: map<Name, Buf>, outdated: bool, dirty: bool, kids: map<nat, Flags>)

  function Zero(size: nat): Buf { seq(size, _ => 0 as bv8) }

  ghost predicate IsZero(b: Buf) { b == Zero(|b|) }

  /** Set the outdated flag of all participants, or only of those that wait. */
  function Outdate(kids: map<nat, Flags>, all: bool): map<nat, Flags> {
    map k | k in kids :: if all || kids[k].waiting then kids[k].(outdated := true) else kids[k]
  }

  /** A section that is in both has the same size in both. */
  ghost predicate SizesFit(a: map<Name, Buf>, b: map<Name, Buf>) { forall s :: s in a && s in b ==> |a[s]| == |b[s]| }

  /** A local section differs from what was last announced. */
  ghost predicate Changed(n: Node) { exists s :: s in n.local && s in n.msg && n.msg[s] != n.local[s] }

  /** usfstl_shared_mem_prepare_msg: merge the local sections into the message. */
  ghost function Prepare(n: Node): Outcome<Node> {
    if n.outdated || !SizesFit(n.local, n.msg) then Aborted
    else if exists s :: s in n.local && s !in n.msg && !IsZero(n.local[s]) then Aborted
    else
      var m := n.(msg := map s | s in n.local.Keys + n.msg.Keys :: if s in n.local then n.local[s] else n.msg[s]);
      if Changed(n)
      then Ok(m.(dirty := true, kids := Outdate(n.kids, true)))
      else Ok(m)
  }

  /** usfstl_shared_mem_merge_msg: only sections this process declares are kept. */
  ghost function Merge(n: Node, m: map<Name, Buf>): Node {
    n.(msg := map s | s in n.msg.Keys + (n.local.Keys * m.Keys) :: if s in n.local && s in m then m[s] else n.msg[s],
       outdated := n.outdated || exists s :: s in m && s in n.local)
  }

  /** usfstl_shared_mem_handle_msg; an empty message means no change. */
  ghost function Handle(n: Node, m: map<Name, Buf>, keepClean: bool): Node {
    if m == map[] then n
    else Merge(n.(kids := Outdate(n.kids, false), dirty := n.dirty || !keepClean), m)
  }

  /** usfstl_shared_mem_update_local_view. */
  ghost function UpdateLocal(n: Node): Node {
    if !n.outdated then n
    else n.(outdated := false,
            local := map s | s in n.local :: if s in n.msg then n.msg[s] else n.local[s])
  }

  /** The message that is sent: the buffer only when it is needed. */
  function Message(n: Node, needed: bool): map<Name, Buf> { if needed then n.msg else map[] }

  // ------------------------------------------------------------ the tree

  /** `parent` maps every process but the root to its controller. */
  datatype System = System(nodes: map<nat, Node>, parent: map<nat, nat>, holder: nat)

  datatype Op = Write(s: Name, b: Buf) | Grant(kid: nat) | Return

  /** usfstl_multi_controller_sched_callback: the controller's side, before it sends. */
  ghost function Granting(n: Node, kid: nat): Outcome<Node>
    requires kid in n.kids
  {
    Prepare(n.(kids := n.kids[kid := n.kids[kid].(waiting := false)]))
  }

  /** The flags of a participant once it has been resumed, or once it has waited. */
  ghost function SetFlags(n: Node, kid: nat, waiting: bool, clear: bool): Node {
    n.(kids := n.kids[kid := Flags(waiting, !clear && kid in n.kids && n.kids[kid].outdated)])
  }

  /** A message arrives and the receiver refreshes its view. */
  ghost function Receive(n: Node, m: map<Name, Buf>, keepClean: bool): Node {
    UpdateLocal(Handle(n, m, keepClean))
  }

  /** The assertions on sizes hold: those of the merge, for the sections the process declares,
      and those of the refresh. */
  ghost predicate MergeFits(n: Node, m: map<Name, Buf>) {
    forall s :: s in m && s in n.local ==> |m[s]| == |n.local[s]| && (s in n.msg ==> |n.msg[s]| == |m[s]|)
  }

  ghost predicate RefreshFits(n: Node) { n.outdated ==> SizesFit(n.local, n.msg) }

  ghost predicate ReceiveFits(n: Node, m: map<Name, Buf>, keepClean: bool) {
    MergeFits(n, m) && RefreshFits(Handle(n, m, keepClean))
  }

  /** The controller grants run time; multi_rpc_sched_cont resumes the participant. */
  ghost function GrantTo(y: System, kid: nat, eager: bool): Outcome<System>
    requires y.holder in y.nodes && kid in y.nodes && kid in y.nodes[y.holder].kids
  {
    match Granting(y.nodes[y.holder], kid)
    case Aborted => Aborted
    case Ok(p) =>
      var needed := eager || (kid in p.kids && p.kids[kid].outdated);
      var c := Receive(y.nodes[kid], Message(p, needed), true);
      if !ReceiveFits(y.nodes[kid], Message(p, needed), true) then Aborted
      else Ok(System(y.nodes[y.holder := SetFlags(p, kid, false, true)][kid := c], y.parent, kid))
  }

  /** usfstl_multi_sched_ext_wait_participant, and multi_rpc_sched_wait at the controller. */
  ghost function ReturnToParent(y: System, eager: bool): Outcome<System>
    requires y.holder in y.nodes && y.holder in y.parent && y.parent[y.holder] in y.nodes
  {
    match Prepare(y.nodes[y.holder])
    case Aborted => Aborted
    case Ok(c) =>
      var n := Receive(y.nodes[y.parent[y.holder]], Message(c, eager || c.dirty), false);
      if !ReceiveFits(y.nodes[y.parent[y.holder]], Message(c, eager || c.dirty), false) then Aborted
      else Ok(System(y.nodes[y.holder := c.(dirty := false)][y.parent[y.holder] := SetFlags(n, y.holder, true, false)],
                y.parent, y.parent[y.holder]))
  }

  /** What the run-token rule allows: only the holder writes, and only sections it has
      already announced; it passes the token to a waiting participant or back. */
  ghost predicate Allowed(y: System, op: Op)
    requires y.holder in y.nodes
  {
    match op
    case Write(s, b) => s in y.nodes[y.holder].local && s in y.nodes[y.holder].msg && |b| == |y.nodes[y.holder].local[s]|
    case Grant(kid) =>
      && kid in y.parent && y.parent[kid] == y.holder
      && kid in y.nodes[y.holder].kids && y.nodes[y.holder].kids[kid].waiting
    case Return => y.holder in y.parent
  }

  ghost function Step(y: System, op: Op, eager: bool): Outcome<System>
    requires WellFormed(y) && Allowed(y, op)
  {
    match op
    case Write(s, b) =>
      var n := y.nodes[y.holder];
      Ok(y.(nodes := y.nodes[y.holder := n.(local := n.local[s := b])]))
    case Grant(kid) => GrantTo(y, kid, eager)
    case Return => ReturnToParent(y, eager)
  }

  // ------------------------------------------------------------ invariant

  ghost predicate WellFormed(y: System) {
    && y.holder in y.nodes
    && (forall k :: k in y.parent ==> k in y.nodes && y.parent[k] in y.nodes && k != y.parent[k])
    && (forall n, k :: n in y.nodes && k in y.nodes[n].kids ==> k in y.parent && y.parent[k] == n)
    && (forall k :: k in y.parent ==> k in y.nodes[y.parent[k]].kids)
  }

  ghost predicate Waits(y: System, k: nat)
    requires WellFormed(y)
  {
    k in y.parent && y.nodes[y.parent[k]].kids[k].waiting
  }

  /** The processes that do not wait form the path from the root to the holder. */
  ghost predicate TokenPath(y: System)
    requires WellFormed(y)
  {
    && !Waits(y, y.holder)
    && (forall k :: k in y.parent && !Waits(y, k) ==> !Waits(y, y.parent[k]))
    && (forall k :: k in y.parent && y.parent[k] == y.holder ==> Waits(y, k))
    && (forall k, l :: k in y.parent && l in y.parent && y.parent[k] == y.parent[l] && !Waits(y, k) && !Waits(y, l) ==> k == l)
  }

  /** The value of a section in a message buffer; a section not yet there is zero. */
  ghost function View(n: Node, s: Name): Buf
    requires s in n.local
  {
    if s in n.msg then n.msg[s] else Zero(|n.local[s]|)
  }

  /** `common` are sections that every process declares; sections of one name have one size
      wherever they are declared. */
  ghost predicate Sections(y: System, common: set<Name>)
    requires WellFormed(y)
  {
    && (forall n :: n in y.nodes ==> common <= y.nodes[n].local.Keys)
    && (forall n, k :: n in y.nodes && k in y.nodes ==> SizesFit(y.nodes[n].local, y.nodes[k].local))
  }

  /** Each process that does not run has announced its view; nobody's view is marked stale. */
  ghost predicate Announced(y: System)
    requires WellFormed(y)
  {
    && (forall n :: n in y.nodes ==> Declared(y.nodes[n]))
    && (forall n :: n in y.nodes && n != y.holder ==> Announces(y.nodes[n]))
  }

  /** Only declared sections are in the buffer; one that is not there yet is still zero. */
  ghost predicate Declared(n: Node) {
    && !n.outdated && n.msg.Keys <= n.local.Keys && SizesFit(n.local, n.msg)
    && forall s :: s in n.local && s !in n.msg ==> IsZero(n.local[s])
  }

  ghost predicate Announces(n: Node) {
    forall s :: s in n.local && s in n.msg ==> n.local[s] == n.msg[s]
  }

  /** The common sections as a process last announced them. */
  ghost function Seen(n: Node, common: set<Name>): map<Name, Buf> {
    map s | s in common && s in n.local :: View(n, s)
  }

  /** The common sections as the process has them in memory. */
  ghost function Memory(n: Node, common: set<Name>): map<Name, Buf> {
    map s | s in common && s in n.local :: n.local[s]
  }

  /** A participant that is not flagged (or, on the path, not dirty) agrees with its
      controller on the common sections. */
  ghost predicate CoherentEdge(y: System, k: nat, common: set<Name>)
    requires WellFormed(y) && k in y.parent
  {
    var n := y.nodes[y.parent[k]];
    if Waits(y, k) then !y.nodes[k].dirty && (n.kids[k].outdated || Seen(y.nodes[k], common) == Seen(n, common))
    else y.nodes[k].dirty || Seen(y.nodes[k], common) == Seen(n, common)
  }

  ghost predicate Coherent(y: System, common: set<Name>)
    requires WellFormed(y)
  {
    forall k :: k in y.parent ==> CoherentEdge(y, k, common)
  }

  ghost predicate Inv(y: System, common: set<Name>) {
    WellFormed(y) && TokenPath(y) && Sections(y, common) && Announced(y) && Coherent(y, common)
  }

  // ------------------------------------------------------------ one process

  lemma AnnouncedIsMemory(n: Node, common: set<Name>)
    requires Declared(n) && Announces(n)
    ensures Seen(n, common) == Memory(n, common)
  {
  }

  ghost predicate SameKids(before: Node, after: Node) {
    && after.kids.Keys == before.kids.Keys
    && forall k :: k in before.kids ==> after.kids[k].waiting == before.kids[k].waiting
  }

  ghost predicate AllFlagged(n: Node) {
    forall k :: k in n.kids && n.kids[k].waiting ==> n.kids[k].outdated
  }

  /** prepare announces the memory; unless the view stayed the same it marks the process
      dirty and all participants outdated. */
  lemma PrepareEffect(n: Node, common: set<Name>)
    requires Declared(n)
    ensures Prepare(n).Ok?
    ensures var p := Prepare(n).s;
            && p.msg == p.local == n.local && Declared(p) && Announces(p) && SameKids(n, p)
            && Seen(p, common) == Memory(n, common)
            && (|| (p.dirty && forall k :: k in p.kids ==> p.kids[k].outdated)
                || (p.dirty == n.dirty && p.kids == n.kids && Seen(p, common) == Seen(n, common)))
  {
    var p := Prepare(n).s;
    assert p.msg == n.local;
    AnnouncedIsMemory(p, common);
  }

  /** A non-empty message replaces the sections it holds and outdates waiting participants. */
  lemma HandleEffect(c: Node, m: map<Name, Buf>, keepClean: bool)
    requires Declared(c) && Announces(c) && SizesFit(c.local, m)
    ensures ReceiveFits(c, m, keepClean)
    ensures var r := Receive(c, m, keepClean);
            && Declared(r) && Announces(r) && r.local.Keys == c.local.Keys && SizesFit(c.local, r.local)
            && (m == map[] ==> r == c)
            && (m != map[] ==> r.kids == Outdate(c.kids, false) && r.dirty == (c.dirty || !keepClean))
            && forall s :: s in c.local ==> r.local[s] == if s in m then m[s] else c.local[s]
  {
    var h := Handle(c, m, keepClean);
    var r := UpdateLocal(h);
    if m != map[] {
      assert h.msg.Keys <= c.local.Keys;
      forall s | s in c.local
        ensures r.local[s] == (if s in m then m[s] else c.local[s])
        ensures s in r.msg ==> r.local[s] == r.msg[s]
      {
      }
    }
  }

  /** Whoever gets the buffer, or nothing when the views agree, has the sender's sections. */
  lemma DeliverEffect(p: Node, c: Node, common: set<Name>, needed: bool, keepClean: bool)
    requires p.msg == p.local && Declared(c) && Announces(c) && SizesFit(c.local, p.local)
    requires common <= p.local.Keys && common <= c.local.Keys
    requires needed || Seen(c, common) == Memory(p, common)
    ensures ReceiveFits(c, Message(p, needed), keepClean)
    ensures var r := Receive(c, Message(p, needed), keepClean);
            && Declared(r) && Announces(r) && SameKids(c, r) && r.local.Keys == c.local.Keys && SizesFit(c.local, r.local)
            && Seen(r, common) == Memory(r, common) == Memory(p, common)
            && (r == c || (AllFlagged(r) && r.dirty == (c.dirty || !keepClean)))
  {
    var m := Message(p, needed);
    HandleEffect(c, m, keepClean);
    var r := Receive(c, m, keepClean);
    AnnouncedIsMemory(c, common);
    AnnouncedIsMemory(r, common);
    if needed {
      assert forall s :: s in common ==> s in m;
    } else {
      assert r == c;
    }
  }

  // ------------------------------------------------------------ passing the run token

  /** `z` differs from `y` only in controller `n` and participant `c`, and in the holder. */
  ghost predicate OnlyChanged(y: System, z: System, n: nat, c: nat) {
    && z.parent == y.parent && z.nodes.Keys == y.nodes.Keys && n in y.nodes && c in y.nodes && z.holder in y.nodes
    && (forall k :: k in y.nodes && k != n && k != c ==> z.nodes[k] == y.nodes[k])
    && z.nodes[n].kids.Keys == y.nodes[n].kids.Keys && z.nodes[c].kids.Keys == y.nodes[c].kids.Keys
    && z.nodes[n].local.Keys == y.nodes[n].local.Keys && z.nodes[c].local.Keys == y.nodes[c].local.Keys
  }

  lemma KeepsStructure(y: System, z: System, n: nat, c: nat)
    requires WellFormed(y) && OnlyChanged(y, z, n, c)
    ensures WellFormed(z)
  {
    assert forall k :: k in y.nodes ==> z.nodes[k].kids.Keys == y.nodes[k].kids.Keys;
    forall m, k | m in z.nodes && k in z.nodes[m].kids ensures k in z.parent && z.parent[k] == m {
      assert k in y.nodes[m].kids;
    }
  }

  /** Towards its participants other than `but`, a process has flagged everyone who waits, or
      nothing has changed. */
  ghost predicate KidsKept(before: Node, after: Node, common: set<Name>, but: nat) {
    && after.kids.Keys == before.kids.Keys
    && (forall k :: k in before.kids && k != but ==> after.kids[k].waiting == before.kids[k].waiting)
    && (|| (forall k :: k in after.kids && k != but && after.kids[k].waiting ==> after.kids[k].outdated)
        || (Seen(after, common) == Seen(before, common) && forall k :: k in before.kids && k != but ==> after.kids[k] == before.kids[k]))
  }

  /** Controller and participant after the token has moved between them: both have the same
      view, and both have told their other participants what changed. */
  ghost predicate InStep(n: Node, c: Node, n': Node, c': Node, common: set<Name>, kid: nat) {
    && n'.local.Keys == n.local.Keys && c'.local.Keys == c.local.Keys && Declared(n') && Declared(c')
    && SizesFit(n.local, n'.local) && SizesFit(c.local, c'.local)
    && Seen(c', common) == Seen(n', common)
    && KidsKept(n, n', common, kid) && KidsKept(c, c', common, kid)
    && (n'.dirty || (!n.dirty && Seen(n', common) == Seen(n, common)))
    && (kid in n'.kids && n'.kids[kid].waiting ==> !c'.dirty)
  }

  ghost predicate Exchanged(y: System, z: System, common: set<Name>, n: nat, c: nat) {
    && OnlyChanged(y, z, n, c) && n != c
    && InStep(y.nodes[n], y.nodes[c], z.nodes[n], z.nodes[c], common, c)
  }

  lemma WaitsKept(y: System, z: System, common: set<Name>, n: nat, c: nat)
    requires WellFormed(y) && Exchanged(y, z, common, n, c) && c in y.parent && y.parent[c] == n
    ensures WellFormed(z) && forall k :: k in y.parent && k != c ==> Waits(z, k) == Waits(y, k)
  {
    KeepsStructure(y, z, n, c);
  }

  lemma KeepsEdge(y: System, z: System, common: set<Name>, n: nat, c: nat, k: nat)
    requires WellFormed(y) && Coherent(y, common) && Exchanged(y, z, common, n, c) && WellFormed(z)
    requires c in y.parent && y.parent[c] == n && !Waits(y, n) && k in y.parent
    requires k != c ==> Waits(z, k) == Waits(y, k)
    requires k != c && (y.parent[k] == n || y.parent[k] == c) ==> Waits(y, k)
    ensures CoherentEdge(z, k, common)
  {
    assert CoherentEdge(y, k, common);
  }

  lemma KeepsCoherence(y: System, z: System, common: set<Name>, n: nat, c: nat)
    requires WellFormed(y) && Coherent(y, common) && Exchanged(y, z, common, n, c)
    requires c in y.parent && y.parent[c] == n && !Waits(y, n)
    requires forall k :: k in y.parent && k != c && (y.parent[k] == n || y.parent[k] == c) ==> Waits(y, k)
    ensures WellFormed(z) && Coherent(z, common)
  {
    WaitsKept(y, z, common, n, c);
    forall k | k in y.parent ensures CoherentEdge(z, k, common) {
      KeepsEdge(y, z, common, n, c, k);
    }
  }

  /** Every process declares the same sections as before, with the same sizes. */
  ghost predicate SameDeclared(y: System, z: System) {
    && z.nodes.Keys == y.nodes.Keys
    && forall k :: k in y.nodes ==> z.nodes[k].local.Keys == y.nodes[k].local.Keys && SizesFit(y.nodes[k].local, z.nodes[k].local)
  }

  lemma SizesFitBoth(a: map<Name, Buf>, b: map<Name, Buf>, c: map<Name, Buf>, d: map<Name, Buf>)
    requires SizesFit(a, b) && SizesFit(a, c) && SizesFit(b, d) && c.Keys == a.Keys && d.Keys == b.Keys
    ensures SizesFit(c, d)
  {
  }

  lemma SectionsKept(y: System, z: System, common: set<Name>)
    requires WellFormed(y) && WellFormed(z) && SameDeclared(y, z) && Sections(y, common)
    ensures Sections(z, common)
  {
    forall k, l | k in z.nodes && l in z.nodes ensures SizesFit(z.nodes[k].local, z.nodes[l].local) {
      SizesFitBoth(y.nodes[k].local, y.nodes[l].local, z.nodes[k].local, z.nodes[l].local);
    }
  }

  lemma ExchangeDeclared(y: System, z: System, common: set<Name>, n: nat, c: nat)
    requires Exchanged(y, z, common, n, c)
    ensures SameDeclared(y, z)
  {
  }

  /** The memory of the process that holds the run token. */
  ghost function HolderMemory(y: System, common: set<Name>): map<Name, Buf>
    requires y.holder in y.nodes
  {
    Memory(y.nodes[y.holder], common)
  }

  ghost predicate Continues(y: System, o: Outcome<System>, common: set<Name>) {
    && o.Ok? && Inv(o.s, common) && y.holder in y.nodes
    && HolderMemory(o.s, common) == HolderMemory(y, common)
  }

  lemma SameSections(a: Node, b: Node, common: set<Name>)
    requires a.local == b.local && a.msg == b.msg
    ensures Seen(a, common) == Seen(b, common) && Memory(a, common) == Memory(b, common)
  {
  }

  /** The controller that grants: its participants other than `kid` are told what changed. */
  lemma GrantingController(n: Node, common: set<Name>, kid: nat)
    requires Declared(n) && kid in n.kids
    ensures Granting(n, kid).Ok?
    ensures var p := Granting(n, kid).s;
            && p.msg == p.local == n.local && kid in p.kids
            && (p.kids[kid].outdated || (!n.kids[kid].outdated && Seen(n, common) == Memory(n, common)))
  {
    var q := n.(kids := n.kids[kid := n.kids[kid].(waiting := false)]);
    SameSections(q, n, common);
    PrepareEffect(q, common);
  }

  lemma GrantedController(n: Node, common: set<Name>, kid: nat)
    requires Declared(n) && kid in n.kids
    ensures Granting(n, kid).Ok?
    ensures var a := SetFlags(Granting(n, kid).s, kid, false, true);
            && a.local == n.local && Declared(a) && Announces(a) && KidsKept(n, a, common, kid)
            && kid in a.kids && !a.kids[kid].waiting
            && Seen(a, common) == Memory(n, common)
            && (a.dirty || (!n.dirty && Seen(a, common) == Seen(n, common)))
  {
    var q := n.(kids := n.kids[kid := n.kids[kid].(waiting := false)]);
    SameSections(q, n, common);
    PrepareEffect(q, common);
    SameSections(Granting(n, kid).s, SetFlags(Granting(n, kid).s, kid, false, true), common);
  }

  lemma GrantNodes(n: Node, c: Node, common: set<Name>, kid: nat, eager: bool)
    requires Declared(n) && Declared(c) && Announces(c) && common <= n.local.Keys && common <= c.local.Keys
    requires kid in n.kids && kid !in c.kids && (n.kids[kid].outdated || Seen(c, common) == Seen(n, common))
    requires SizesFit(c.local, n.local)
    ensures Granting(n, kid).Ok? && kid in Granting(n, kid).s.kids
    ensures var p := Granting(n, kid).s; ReceiveFits(c, Message(p, eager || p.kids[kid].outdated), true)
    ensures var p := Granting(n, kid).s;
            var r := Receive(c, Message(p, eager || p.kids[kid].outdated), true);
            && InStep(n, c, SetFlags(p, kid, false, true), r, common, kid)
            && Memory(r, common) == Memory(n, common)
  {
    GrantingController(n, common, kid);
    GrantedController(n, common, kid);
    var p := Granting(n, kid).s;
    assert Memory(p, common) == Memory(n, common);
    DeliverEffect(p, c, common, eager || p.kids[kid].outdated, true);
  }

  /** The participant that hands the token back has announced its view. */
  lemma ReturnedParticipant(c: Node, common: set<Name>, kid: nat)
    requires Declared(c) && kid !in c.kids
    ensures Prepare(c).Ok?
    ensures var p := Prepare(c).s;
            && p.msg == p.local == c.local && (p.dirty || (!c.dirty && Seen(c, common) == Memory(c, common)))
    ensures var b := Prepare(c).s.(dirty := false);
            && Declared(b) && Announces(b) && KidsKept(c, b, common, kid) && Seen(b, common) == Memory(c, common)
  {
    PrepareEffect(c, common);
    SameSections(Prepare(c).s, Prepare(c).s.(dirty := false), common);
  }

  lemma ReturnedController(n: Node, r: Node, common: set<Name>, kid: nat)
    requires kid in n.kids && Declared(r) && SameKids(n, r) && (r == n || (AllFlagged(r) && r.dirty))
    ensures var a := SetFlags(r, kid, true, false);
            && Declared(a) && KidsKept(n, a, common, kid)
            && (a.dirty || (!n.dirty && Seen(a, common) == Seen(n, common)))
            && Seen(a, common) == Seen(r, common) && Memory(a, common) == Memory(r, common)
  {
    SameSections(r, SetFlags(r, kid, true, false), common);
  }

  lemma ReturnNodes(n: Node, c: Node, common: set<Name>, kid: nat, eager: bool)
    requires Declared(n) && Announces(n) && Declared(c) && common <= n.local.Keys && common <= c.local.Keys
    requires kid in n.kids && kid !in c.kids && (c.dirty || Seen(c, common) == Seen(n, common))
    requires SizesFit(n.local, c.local)
    ensures Prepare(c).Ok? && Prepare(c).s.local == c.local && Announces(Prepare(c).s)
    ensures ReceiveFits(n, Message(Prepare(c).s, eager || Prepare(c).s.dirty), false)
    ensures var p := Prepare(c).s;
            var r := Receive(n, Message(p, eager || p.dirty), false);
            && InStep(n, c, SetFlags(r, kid, true, false), p.(dirty := false), common, kid)
            && Memory(SetFlags(r, kid, true, false), common) == Memory(c, common)
  {
    ReturnedParticipant(c, common, kid);
    var p := Prepare(c).s;
    assert Memory(p, common) == Memory(c, common);
    DeliverEffect(p, n, common, eager || p.dirty, false);
    ReturnedController(n, Receive(n, Message(p, eager || p.dirty), false), common, kid);
  }

  lemma ExchangeIntro(y: System, z: System, common: set<Name>, n: nat, c: nat)
    requires n in y.nodes && c in y.nodes && n != c && z.holder in y.nodes && z.parent == y.parent
    requires z.nodes.Keys == y.nodes.Keys && (forall k :: k in y.nodes && k != n && k != c ==> z.nodes[k] == y.nodes[k])
    requires InStep(y.nodes[n], y.nodes[c], z.nodes[n], z.nodes[c], common, c)
    ensures Exchanged(y, z, common, n, c)
  {
  }

  lemma TokenPathGrant(y: System, z: System, kid: nat)
    requires WellFormed(y) && WellFormed(z) && z.parent == y.parent && TokenPath(y)
    requires kid in y.parent && y.parent[kid] == y.holder && z.holder == kid && !Waits(z, kid) && Waits(y, kid)
    requires forall k :: k in y.parent && k != kid ==> Waits(z, k) == Waits(y, k)
    ensures TokenPath(z)
  {
  }

  lemma TokenPathReturn(y: System, z: System)
    requires WellFormed(y) && WellFormed(z) && z.parent == y.parent && TokenPath(y)
    requires y.holder in y.parent && z.holder == y.parent[y.holder] && Waits(z, y.holder)
    requires forall k :: k in y.parent && k != y.holder ==> Waits(z, k) == Waits(y, k)
    ensures TokenPath(z)
  {
  }

  /** What remains of the invariant once the token has moved along an edge of the tree. */
  lemma ExchangeKeeps(y: System, z: System, common: set<Name>, n: nat, c: nat)
    requires Inv(y, common) && Exchanged(y, z, common, n, c) && c in y.parent && y.parent[c] == n && !Waits(y, n)
    requires y.holder == n || y.holder == c
    requires Memory(z.nodes[n], common) == Memory(z.nodes[c], common) == Memory(y.nodes[y.holder], common)
    ensures WellFormed(z) && Coherent(z, common) && Sections(z, common)
    ensures forall k :: k in y.parent && k != c ==> Waits(z, k) == Waits(y, k)
  {
    KeepsCoherence(y, z, common, n, c);
    WaitsKept(y, z, common, n, c);
    ExchangeDeclared(y, z, common, n, c);
    SectionsKept(y, z, common);
  }

  /** The token has moved, and the process that had it has announced its view. */
  lemma ExchangeAnnounced(y: System, z: System, common: set<Name>, n: nat, c: nat)
    requires WellFormed(y) && Announced(y) && Exchanged(y, z, common, n, c) && WellFormed(z)
    requires (y.holder == n && z.holder == c) || (y.holder == c && z.holder == n)
    requires Announces(z.nodes[y.holder])
    ensures Announced(z)
  {
  }

  lemma GrantInv(y: System, z: System, common: set<Name>, kid: nat)
    requires Inv(y, common) && Allowed(y, Grant(kid)) && Exchanged(y, z, common, y.holder, kid) && z.holder == kid
    requires Announces(z.nodes[y.holder]) && kid in z.nodes[y.holder].kids && !z.nodes[y.holder].kids[kid].waiting
    requires Memory(z.nodes[y.holder], common) == Memory(z.nodes[kid], common) == Memory(y.nodes[y.holder], common)
    ensures Continues(y, Ok(z), common)
  {
    ExchangeKeeps(y, z, common, y.holder, kid);
    ExchangeAnnounced(y, z, common, y.holder, kid);
    TokenPathGrant(y, z, kid);
  }

  lemma GrantExchange(y: System, common: set<Name>, kid: nat, eager: bool)
    requires y.holder in y.nodes && kid in y.nodes && kid != y.holder
    requires Declared(y.nodes[y.holder]) && Declared(y.nodes[kid]) && Announces(y.nodes[kid])
    requires common <= y.nodes[y.holder].local.Keys && common <= y.nodes[kid].local.Keys
    requires kid in y.nodes[y.holder].kids && kid !in y.nodes[kid].kids
    requires y.nodes[y.holder].kids[kid].outdated || Seen(y.nodes[kid], common) == Seen(y.nodes[y.holder], common)
    requires SizesFit(y.nodes[kid].local, y.nodes[y.holder].local)
    ensures var o := GrantTo(y, kid, eager);
            && o.Ok? && o.s.holder == kid && Exchanged(y, o.s, common, y.holder, kid)
            && Announces(o.s.nodes[y.holder]) && kid in o.s.nodes[y.holder].kids && !o.s.nodes[y.holder].kids[kid].waiting
            && o.s.nodes[y.holder].local == y.nodes[y.holder].local
            && Memory(o.s.nodes[kid], common) == Memory(y.nodes[y.holder], common)
  {
    var n, c := y.nodes[y.holder], y.nodes[kid];
    GrantNodes(n, c, common, kid, eager);
    GrantedController(n, common, kid);
    var p := Granting(n, kid).s;
    var z := GrantSystem(y, kid, eager, p, Message(p, eager || p.kids[kid].outdated));
    ExchangeIntro(y, z, common, y.holder, kid);
  }

  lemma GrantSystem(y: System, kid: nat, eager: bool, p: Node, m: map<Name, Buf>) returns (z: System)
    requires y.holder in y.nodes && kid in y.nodes && kid in y.nodes[y.holder].kids && kid != y.holder
    requires Granting(y.nodes[y.holder], kid) == Ok(p) && kid in p.kids && m == Message(p, eager || p.kids[kid].outdated)
    requires ReceiveFits(y.nodes[kid], m, true)
    ensures GrantTo(y, kid, eager) == Ok(z) && z.parent == y.parent && z.holder == kid && z.nodes.Keys == y.nodes.Keys
    ensures z.nodes[y.holder] == SetFlags(p, kid, false, true) && z.nodes[kid] == Receive(y.nodes[kid], m, true)
    ensures forall k :: k in y.nodes && k != y.holder && k != kid ==> z.nodes[k] == y.nodes[k]
  {
    z := GrantTo(y, kid, eager).s;
  }

  lemma GrantGood(y: System, common: set<Name>, kid: nat, eager: bool)
    requires Inv(y, common) && Allowed(y, Grant(kid))
    ensures Continues(y, GrantTo(y, kid, eager), common) && GrantTo(y, kid, eager).s.holder == kid
  {
    assert CoherentEdge(y, kid, common);
    GrantExchange(y, common, kid, eager);
    GrantInv(y, GrantTo(y, kid, eager).s, common, kid);
  }

  lemma ReturnInv(y: System, z: System, common: set<Name>)
    requires Inv(y, common) && Allowed(y, Return)
    requires Exchanged(y, z, common, y.parent[y.holder], y.holder) && z.holder == y.parent[y.holder]
    requires Announces(z.nodes[y.holder]) && y.holder in z.nodes[z.holder].kids && z.nodes[z.holder].kids[y.holder].waiting
    requires Memory(z.nodes[z.holder], common) == Memory(z.nodes[y.holder], common) == Memory(y.nodes[y.holder], common)
    ensures Continues(y, Ok(z), common)
  {
    ExchangeKeeps(y, z, common, z.holder, y.holder);
    ExchangeAnnounced(y, z, common, z.holder, y.holder);
    TokenPathReturn(y, z);
  }

  lemma ReturnExchange(y: System, common: set<Name>, n: nat, eager: bool)
    requires y.holder in y.nodes && y.holder in y.parent && y.parent[y.holder] == n && n in y.nodes && n != y.holder
    requires Declared(y.nodes[y.holder]) && Declared(y.nodes[n]) && Announces(y.nodes[n])
    requires common <= y.nodes[y.holder].local.Keys && common <= y.nodes[n].local.Keys
    requires y.holder in y.nodes[n].kids && y.holder !in y.nodes[y.holder].kids
    requires y.nodes[y.holder].dirty || Seen(y.nodes[y.holder], common) == Seen(y.nodes[n], common)
    requires SizesFit(y.nodes[n].local, y.nodes[y.holder].local)
    ensures var o := ReturnToParent(y, eager);
            && o.Ok? && o.s.holder == n && Exchanged(y, o.s, common, n, y.holder)
            && Announces(o.s.nodes[y.holder]) && y.holder in o.s.nodes[n].kids && o.s.nodes[n].kids[y.holder].waiting
            && o.s.nodes[y.holder].local == y.nodes[y.holder].local
            && Memory(o.s.nodes[n], common) == Memory(y.nodes[y.holder], common)
  {
    ReturnNodes(y.nodes[n], y.nodes[y.holder], common, y.holder, eager);
    ExchangeIntro(y, ReturnToParent(y, eager).s, common, n, y.holder);
  }

  lemma ReturnGood(y: System, common: set<Name>, eager: bool)
    requires Inv(y, common) && Allowed(y, Return)
    ensures Continues(y, ReturnToParent(y, eager), common) && ReturnToParent(y, eager).s.holder == y.parent[y.holder]
  {
    assert CoherentEdge(y, y.holder, common);
    ReturnExchange(y, common, y.parent[y.holder], eager);
    ReturnInv(y, ReturnToParent(y, eager).s, common);
  }

  lemma WriteNode(n: Node, common: set<Name>, s: Name, b: Buf)
    requires Declared(n) && s in n.local && s in n.msg && |b| == |n.local[s]|
    ensures var m := n.(local := n.local[s := b]);
            && Declared(m) && Seen(m, common) == Seen(n, common) && m.local.Keys == n.local.Keys
            && (forall t :: t in n.local ==> |m.local[t]| == |n.local[t]|)
            && Memory(m, common) == SpecWrite(Memory(n, common), s, b)
  {
  }

  /** Only the memory of the holder differs. */
  ghost predicate MemoryChanged(y: System, z: System, common: set<Name>) {
    && y.holder in y.nodes && z.nodes.Keys == y.nodes.Keys && z.parent == y.parent && z.holder == y.holder
    && (forall k :: k in y.nodes && k != y.holder ==> z.nodes[k] == y.nodes[k])
    && var n, m := y.nodes[y.holder], z.nodes[y.holder];
       && m.kids == n.kids && m.dirty == n.dirty && Declared(m) && m.local.Keys == n.local.Keys
       && Seen(m, common) == Seen(n, common)
       && forall t :: t in m.local ==> |m.local[t]| == |n.local[t]|
  }

  lemma WriteStructure(y: System, z: System, common: set<Name>)
    requires Inv(y, common) && MemoryChanged(y, z, common)
    ensures WellFormed(z) && TokenPath(z)
    ensures forall k :: k in y.parent ==> Waits(z, k) == Waits(y, k)
  {
    SameKidsWellFormed(y, z);
  }

  lemma SameKidsWellFormed(y: System, z: System)
    requires WellFormed(y) && z.nodes.Keys == y.nodes.Keys && z.parent == y.parent && z.holder == y.holder
    requires forall k :: k in y.nodes ==> z.nodes[k].kids == y.nodes[k].kids
    ensures WellFormed(z) && forall k :: k in y.parent ==> Waits(z, k) == Waits(y, k)
  {
  }

  lemma WriteSections(y: System, z: System, common: set<Name>)
    requires Inv(y, common) && MemoryChanged(y, z, common) && WellFormed(z)
    ensures Sections(z, common) && Announced(z)
  {
    assert SameDeclared(y, z);
    SectionsKept(y, z, common);
  }

  lemma WriteInv(y: System, z: System, common: set<Name>)
    requires Inv(y, common) && MemoryChanged(y, z, common)
    ensures Inv(z, common)
  {
    WriteStructure(y, z, common);
    WriteSections(y, z, common);
    forall k | k in y.parent ensures CoherentEdge(z, k, common) {
      assert CoherentEdge(y, k, common);
    }
  }

  lemma WriteGood(y: System, common: set<Name>, s: Name, b: Buf, eager: bool)
    requires Inv(y, common) && Allowed(y, Write(s, b))
    ensures var o := Step(y, Write(s, b), eager);
            && o.Ok? && Inv(o.s, common)
            && HolderMemory(o.s, common) == SpecWrite(HolderMemory(y, common), s, b)
  {
    var n := y.nodes[y.holder];
    WriteNode(n, common, s, b);
    WriteInv(y, Step(y, Write(s, b), eager).s, common);
  }

  // ------------------------------------------------------------ runs

  /** The specification: one memory, whoever runs. */
  ghost function SpecWrite(mem: map<Name, Buf>, s: Name, b: Buf): map<Name, Buf> {
    if s in mem then mem[s := b] else mem
  }

  ghost function SpecMemory(mem: map<Name, Buf>, ops: seq<Op>): map<Name, Buf>
    decreases |ops|
  {
    if ops == [] then mem
    else SpecMemory(if ops[0].Write? then SpecWrite(mem, ops[0].s, ops[0].b) else mem, ops[1..])
  }

  /** A run in which every operation is allowed where it happens. */
  ghost predicate Run(y: System, ops: seq<Op>, eager: bool, last: Outcome<System>)
    decreases |ops|
  {
    if ops == [] then last == Ok(y)
    else
      && WellFormed(y) && Allowed(y, ops[0])
      && match Step(y, ops[0], eager)
         case Ok(z) => Run(z, ops[1..], eager, last)
         case Aborted => last == Aborted
  }

  /** Whatever is sent when, the running process sees one memory: the value it reads is the
      last one any process wrote. No assertion of the code fails. */
  lemma {:induction false} RunSeesOneMemory(y: System, common: set<Name>, ops: seq<Op>, eager: bool, last: Outcome<System>)
    requires Inv(y, common) && Run(y, ops, eager, last)
    ensures last.Ok? && Inv(last.s, common)
    ensures HolderMemory(last.s, common) == SpecMemory(HolderMemory(y, common), ops)
    decreases |ops|
  {
    if ops != [] {
      match ops[0] {
        case Write(s, b) => WriteGood(y, common, s, b, eager);
        case Grant(kid) => GrantGood(y, common, kid, eager);
        case Return => ReturnGood(y, common, eager);
      }
      RunSeesOneMemory(Step(y, ops[0], eager).s, common, ops[1..], eager, last);
    }
  }

  /** Before the first exchange: every section is zero and nothing has been announced. */
  ghost predicate Initial(y: System, common: set<Name>) {
    && WellFormed(y) && y.holder !in y.parent && Sections(y, common)
    && (forall k :: k in y.parent ==> y.nodes[y.parent[k]].kids[k] == Flags(true, false))
    && (forall n :: n in y.nodes ==>
          && y.nodes[n].msg == map[] && !y.nodes[n].outdated && !y.nodes[n].dirty
          && forall s :: s in y.nodes[n].local ==> IsZero(y.nodes[n].local[s]))
  }

  /** Two processes that have announced nothing have the same view. */
  lemma NothingSeen(c: Node, n: Node, common: set<Name>)
    requires c.msg == map[] && n.msg == map[] && SizesFit(c.local, n.local)
    requires common <= c.local.Keys && common <= n.local.Keys
    ensures Seen(c, common) == Seen(n, common)
  {
  }

  lemma InitialPath(y: System, common: set<Name>)
    requires Initial(y, common)
    ensures TokenPath(y)
  {
    assert forall k :: k in y.parent ==> Waits(y, k);
  }

  lemma InitialInv(y: System, common: set<Name>)
    requires Initial(y, common)
    ensures Inv(y, common)
  {
    InitialPath(y, common);
    forall k | k in y.parent ensures CoherentEdge(y, k, common) {
      NothingSeen(y.nodes[k], y.nodes[y.parent[k]], common);
    }
  }
}
