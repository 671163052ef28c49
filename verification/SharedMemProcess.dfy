/** The message buffer of one process as the code keeps it: sections one after the other,
    searched from the front and appended at the end (src/multi-shared-mem.c). */
module SharedMemProcess {
  import opened Wrappers
  import opened SharedMem

  /** struct usfstl_shared_mem_msg_section */
  datatype Section = Section(name: Name, buf: Buf)

  ghost predicate Distinct(b: seq<Section>) {
    forall i, j :: 0 <= i < j < |b| ==> b[i].name != b[j].name
  }

  ghost function Names(names: seq<Name>): set<Name> { set s | s in names }

  /** No section is declared twice. */
  ghost predicate DistinctNames(names: seq<Name>) { forall i, j :: 0 <= i < j < |names| ==> names[i] != names[j] }

  lemma NextSection(names: seq<Name>, i: nat)
    requires DistinctNames(names) && i < |names|
    ensures names[i] !in names[..i]
    ensures Names(names[..i + 1]) == Names(names[..i]) + {names[i]}
  {
    assert names[..i + 1] == names[..i] + [names[i]];
  }

  /** The sections of a buffer by name. */
  ghost function ToMap(b: seq<Section>): map<Name, Buf> {
    if b == [] then map[] else ToMap(b[..|b| - 1])[b[|b| - 1].name := b[|b| - 1].buf]
  }

  lemma {:induction false} ToMapDomain(b: seq<Section>, name: Name)
    ensures name in ToMap(b) <==> exists i :: 0 <= i < |b| && b[i].name == name
  {
    if b != [] {
      ToMapDomain(b[..|b| - 1], name);
      if i :| 0 <= i < |b| && b[i].name == name {
        if i < |b| - 1 { assert b[..|b| - 1][i].name == name; }
      }
    }
  }

  lemma {:induction false} ToMapFrom(b: seq<Section>, name: Name) returns (i: nat)
    requires name in ToMap(b)
    ensures i < |b| && b[i] == Section(name, ToMap(b)[name])
  {
    i := |b| - 1;
    if b[i].name != name {
      i := ToMapFrom(b[..|b| - 1], name);
    }
  }

  lemma {:induction false} ToMapAt(b: seq<Section>, i: nat)
    requires Distinct(b) && i < |b|
    ensures b[i].name in ToMap(b) && ToMap(b)[b[i].name] == b[i].buf
  {
    if i < |b| - 1 {
      ToMapAt(b[..|b| - 1], i);
    }
  }

  lemma {:induction false} ToMapSet(b: seq<Section>, i: nat, buf: Buf)
    requires Distinct(b) && i < |b|
    ensures Distinct(b[i := Section(b[i].name, buf)])
    ensures ToMap(b[i := Section(b[i].name, buf)]) == ToMap(b)[b[i].name := buf]
  {
    var r := b[i := Section(b[i].name, buf)];
    if i < |b| - 1 {
      ToMapSet(b[..|b| - 1], i, buf);
      assert r[..|b| - 1] == b[..|b| - 1][i := Section(b[i].name, buf)];
    } else {
      assert r[..|b| - 1] == b[..|b| - 1];
    }
  }

  lemma ToMapAppend(b: seq<Section>, s: Section)
    requires Distinct(b) && s.name !in ToMap(b)
    ensures Distinct(b + [s]) && ToMap(b + [s]) == ToMap(b)[s.name := s.buf]
  {
    assert (b + [s])[..|b|] == b;
    forall i | 0 <= i < |b| ensures b[i].name != s.name {
      ToMapDomain(b, s.name);
    }
  }

  class Process {
    const sections: seq<Name>
    var local: map<Name, Buf>
    var buffer: seq<Section>
    var outdated: bool
    var dirty: bool
    var kids: map<nat, Flags>

    ghost predicate Valid()
      reads this
    {
      Distinct(buffer) && local.Keys == Names(sections) && DistinctNames(sections)
    }

    ghost function Value(): Node
      reads this
    {
      Node(local, ToMap(buffer), outdated, dirty, kids)
    }

    /** usfstl_shared_mem_find_msg_section; `ok` is false when a section of that name has
        another size. */
    method Find(name: Name, size: nat) returns (ok: bool, i: int)
      requires Valid()
      ensures ok <==> (name in ToMap(buffer) ==> |ToMap(buffer)[name]| == size)
      ensures -1 <= i < |buffer|
      ensures i >= 0 ==> buffer[i].name == name && name in ToMap(buffer) && ToMap(buffer)[name] == buffer[i].buf
      ensures i < 0 ==> name !in ToMap(buffer)
    {
      ok, i := true, 0;
      while i < |buffer|
        invariant ok
        invariant 0 <= i <= |buffer| && forall k :: 0 <= k < i ==> buffer[k].name != name
      {
        if buffer[i].name == name {
          ToMapAt(buffer, i);
          return |buffer[i].buf| == size, i;
        }
        i := i + 1;
      }
      ToMapDomain(buffer, name);
      i := -1;
    }

    /** Overwrite the section `name`, or append it. */
    method Put(name: Name, buf: Buf) returns (ok: bool)
      requires Valid()
      modifies this`buffer
      ensures ok <==> (name in old(ToMap(buffer)) ==> |old(ToMap(buffer))[name]| == |buf|)
      ensures Valid() && ToMap(buffer) == if ok then old(ToMap(buffer))[name := buf] else old(ToMap(buffer))
    {
      var i;
      ok, i := Find(name, |buf|);
      if !ok {
        return;
      }
      if i >= 0 {
        ToMapSet(buffer, i, buf);
        buffer := buffer[i := Section(name, buf)];
      } else {
        ToMapAppend(buffer, Section(name, buf));
        buffer := buffer + [Section(name, buf)];
      }
    }

    /** usfstl_shared_mem_merge_local_section; `ok` is false when a new section is not zero, or
        the announced one has another size. */
    method MergeLocal(name: Name) returns (ok: bool, changed: bool)
      requires Valid() && name in local
      modifies this`buffer
      ensures Valid()
      ensures ok <==> if name in old(ToMap(buffer)) then |old(ToMap(buffer))[name]| == |local[name]| else IsZero(local[name])
      ensures ok ==> ToMap(buffer) == old(ToMap(buffer))[name := local[name]]
      ensures ok ==> (changed <==> name in old(ToMap(buffer)) && old(ToMap(buffer))[name] != local[name])
    {
      var i;
      ok, i := Find(name, |local[name]|);
      changed := false;
      if !ok {
        return;
      }
      if i < 0 {
        ok := Put(name, Zero(|local[name]|));
        ok := Zero(|local[name]|) == local[name];
      } else if buffer[i].buf != local[name] {
        ok := Put(name, local[name]);
        changed := true;
      } else {
        assert ToMap(buffer)[name := local[name]] == ToMap(buffer);
      }
    }

    method MergeNext(s: Name, modified: bool, ghost was: map<Name, Buf>, ghost done: set<Name>)
      returns (good: bool, modified': bool)
      requires Valid() && MergedUpTo(ToMap(buffer), was, local, done, modified) && s in local && s !in done
      modifies this`buffer
      ensures Valid()
      ensures good ==> MergedUpTo(ToMap(buffer), was, local, done + {s}, modified')
      ensures !good ==> !MayMerge(was, local, s)
    {
      MergedStep(ToMap(buffer), was, local, done, modified, s);
      var changed;
      good, changed := MergeLocal(s);
      modified' := modified || changed;
    }

    /** The loop of usfstl_shared_mem_update_msg: all local sections are merged. */
    method UpdateMsg() returns (ok: bool, modified: bool)
      requires Valid()
      modifies this`buffer
      ensures Valid()
      ensures ok ==> MergedUpTo(ToMap(buffer), old(ToMap(buffer)), local, local.Keys, modified)
      ensures !ok ==> exists s :: s in local && !MayMerge(old(ToMap(buffer)), local, s)
    {
      ghost var was := ToMap(buffer);
      ok, modified := true, false;
      ghost var done := {};
      for i := 0 to |sections|
        invariant Valid() && ok && MergedUpTo(ToMap(buffer), was, local, done, modified)
        invariant done == Names(sections[..i])
      {
        NextSection(sections, i);
        ok, modified := MergeNext(sections[i], modified, was, done);
        if !ok {
          return;
        }
        done := done + {sections[i]};
      }
      assert sections[..|sections|] == sections;
    }

    /** usfstl_shared_mem_prepare_msg; `ok` is false when one of its assertions fails. */
    method PrepareMsg() returns (ok: bool)
      requires Valid()
      modifies this
      ensures Valid()
      ensures if ok then Ok(Value()) == SharedMem.Prepare(old(Value())) else SharedMem.Prepare(old(Value())) == Aborted
    {
      if outdated {
        return false;
      }
      ghost var n := Value();
      var modified;
      ok, modified := UpdateMsg();
      if !ok {
        RefusedPrepare(n);
        return;
      }
      MergedIsPrepared(ToMap(buffer), n);
      if modified {
        kids := Outdate(kids, true);
        dirty := true;
      }
    }

    /** usfstl_shared_mem_merge_remote_section, for the section at `i`. */
    method MergeRemote(ghost m: Node, msg: seq<Section>, i: nat, relevant: bool) returns (ok: bool, relevant': bool)
      requires Valid() && i < |msg| && MessageFits(m, msg, i) && ReceivedUpTo(m, Value(), msg, i, relevant)
      modifies this`buffer
      ensures Valid() && (ok <==> MessageFits(m, msg, i + 1))
      ensures ok ==> ReceivedUpTo(m, Value(), msg, i + 1, relevant')
    {
      ReceivedStep(m, Value(), msg, i, relevant);
      ok, relevant' := true, relevant;
      if msg[i].name in local {
        ok := |local[msg[i].name]| == |msg[i].buf|;
        if ok {
          ReceivedSize(m, Value(), msg, i, relevant);
          ok := Put(msg[i].name, msg[i].buf);
          relevant' := true;
        }
      }
    }

    /** usfstl_shared_mem_merge_msg: sections this process does not declare are skipped. `ok` is
        false when a size does not fit. */
    method MergeMsg(msg: seq<Section>) returns (ok: bool, relevant: bool)
      requires Valid()
      modifies this`buffer
      ensures Valid() && (ok <==> MessageFits(old(Value()), msg, |msg|))
      ensures ok ==> ReceivedUpTo(old(Value()), Value(), msg, |msg|, relevant)
    {
      ghost var m := Value();
      ok, relevant := true, false;
      for i := 0 to |msg|
        invariant Valid() && ok && MessageFits(m, msg, i) && ReceivedUpTo(m, Value(), msg, i, relevant)
      {
        ok, relevant := MergeRemote(m, msg, i, relevant);
        if !ok {
          return;
        }
      }
    }

    /** usfstl_shared_mem_handle_msg. */
    method HandleMsg(msg: seq<Section>, keepClean: bool) returns (ok: bool)
      requires Valid()
      modifies this
      ensures Valid() && (ok <==> MessageFits(old(Value()), msg, |msg|))
      ensures ok ==> Value() == SharedMem.Handle(old(Value()), ToMap(msg), keepClean)
    {
      if |msg| == 0 {
        return true;
      }
      kids := Outdate(kids, false);
      dirty := dirty || !keepClean;
      var relevant;
      ok, relevant := MergeMsg(msg);
      if !ok {
        return;
      }
      assert msg[..|msg|] == msg && msg[|msg| - 1].name in ToMap(msg);
      if relevant {
        outdated := true;
      }
    }

    /** Copy one section of the buffer to memory, if the process declares it. */
    method RefreshSection(s: Section, ghost was: map<Name, Buf>, ghost m: map<Name, Buf>) returns (ok: bool)
      requires Valid() && Refreshed(local, was, m) && SizesFit(was, m)
      modifies this`local
      ensures Valid() && (ok <==> (s.name in was ==> |was[s.name]| == |s.buf|))
      ensures ok ==> Refreshed(local, was, m[s.name := s.buf]) && SizesFit(was, m[s.name := s.buf])
    {
      RefreshedStep(local, was, m, s);
      ok := s.name in local ==> |local[s.name]| == |s.buf|;
      if ok && s.name in local {
        local := local[s.name := s.buf];
      }
    }

    /** usfstl_shared_mem_update_local_view; `ok` is false when a size does not fit. */
    method UpdateLocalView() returns (ok: bool)
      requires Valid()
      modifies this`local, this`outdated
      ensures Valid() && (ok <==> RefreshFits(old(Value())))
      ensures ok ==> Value() == SharedMem.UpdateLocal(old(Value()))
    {
      ok := true;
      if !outdated {
        return;
      }
      ghost var was := local;
      outdated := false;
      for i := 0 to |buffer|
        invariant Valid() && ok && !outdated && Refreshed(local, was, ToMap(buffer[..i])) && SizesFit(was, ToMap(buffer[..i]))
      {
        assert buffer[..i + 1][..i] == buffer[..i];
        ok := RefreshSection(buffer[i], was, ToMap(buffer[..i]));
        if !ok {
          ToMapAt(buffer, i);
          return;
        }
      }
      assert buffer[..|buffer|] == buffer;
      RefreshedIsUpdated(local, old(Value()));
    }
  }

  /** `local` is `was` with the sections of `m` that it declares. */
  ghost predicate Refreshed(local: map<Name, Buf>, was: map<Name, Buf>, m: map<Name, Buf>) {
    local.Keys == was.Keys && forall s :: s in was ==> local[s] == if s in m then m[s] else was[s]
  }

  lemma RefreshedIsUpdated(local: map<Name, Buf>, n: Node)
    requires n.outdated && Refreshed(local, n.local, n.msg)
    ensures SharedMem.UpdateLocal(n) == n.(local := local, outdated := false)
  {
    assert SharedMem.UpdateLocal(n).local == local;
  }

  lemma RefreshedStep(local: map<Name, Buf>, was: map<Name, Buf>, m: map<Name, Buf>, s: Section)
    requires Refreshed(local, was, m) && SizesFit(was, m)
    ensures s.name in local ==> |local[s.name]| == |was[s.name]|
    ensures (s.name in local ==> |local[s.name]| == |s.buf|) ==> SizesFit(was, m[s.name := s.buf])
    ensures Refreshed(if s.name in local then local[s.name := s.buf] else local, was, m[s.name := s.buf])
  {
  }

  /** The first `i` sections of a message have been merged into `m`, giving `v`. */
  ghost predicate ReceivedUpTo(m: Node, v: Node, msg: seq<Section>, i: nat, relevant: bool) {
    && i <= |msg|
    && v == SharedMem.Merge(m, ToMap(msg[..i])).(outdated := m.outdated)
    && (relevant <==> exists s :: s in ToMap(msg[..i]) && s in m.local)
  }

  lemma ReceivedStep(m: Node, v: Node, msg: seq<Section>, i: nat, relevant: bool)
    requires i < |msg| && ReceivedUpTo(m, v, msg, i, relevant)
    ensures var s := msg[i];
            if s.name in m.local then ReceivedUpTo(m, v.(msg := v.msg[s.name := s.buf]), msg, i + 1, true)
            else ReceivedUpTo(m, v, msg, i + 1, relevant)
  {
    assert msg[..i + 1][..i] == msg[..i];
    MergeStep(m, ToMap(msg[..i]), msg[i]);
  }

  /** The first `i` sections of a message meet the assertions on sizes. */
  ghost predicate MessageFits(n: Node, msg: seq<Section>, i: nat) {
    && i <= |msg|
    && forall k :: 0 <= k < i && msg[k].name in n.local ==>
         |msg[k].buf| == |n.local[msg[k].name]| && (msg[k].name in n.msg ==> |n.msg[msg[k].name]| == |msg[k].buf|)
  }

  /** A buffer in which names are distinct is checked as the sections it stands for. */
  lemma FitsIsMergeFits(n: Node, msg: seq<Section>)
    requires Distinct(msg)
    ensures MessageFits(n, msg, |msg|) <==> MergeFits(n, ToMap(msg))
  {
    forall k | 0 <= k < |msg| ensures msg[k].name in ToMap(msg) && ToMap(msg)[msg[k].name] == msg[k].buf {
      ToMapAt(msg, k);
    }
    forall s | s in ToMap(msg) ensures exists k :: 0 <= k < |msg| && msg[k].name == s {
      ToMapDomain(msg, s);
    }
  }

  /** A section that was merged before has the declared size. */
  lemma ReceivedSize(m: Node, v: Node, msg: seq<Section>, i: nat, relevant: bool)
    requires i < |msg| && MessageFits(m, msg, i) && ReceivedUpTo(m, v, msg, i, relevant) && msg[i].name in m.local
    requires |m.local[msg[i].name]| == |msg[i].buf|
    ensures MessageFits(m, msg, i + 1) <==> (msg[i].name in v.msg ==> |v.msg[msg[i].name]| == |msg[i].buf|)
  {
    var name := msg[i].name;
    if name in ToMap(msg[..i]) {
      var k := ToMapFrom(msg[..i], name);
      assert msg[..i][k] == msg[k];
    }
  }

  /** The sections `done` of a buffer hold local values, the others what they held before. */
  ghost predicate Merged(m: map<Name, Buf>, was: map<Name, Buf>, local: map<Name, Buf>, done: set<Name>) {
    && m.Keys == was.Keys + done
    && done <= local.Keys
    && forall s :: s in m ==> m[s] == if s in done then local[s] else was[s]
  }

  /** The assertions on a local section: its announced size is its size; a new one is zero. */
  ghost predicate MayMerge(was: map<Name, Buf>, local: map<Name, Buf>, s: Name)
    requires s in local
  {
    if s in was then |was[s]| == |local[s]| else IsZero(local[s])
  }

  /** The sections `done` have been merged; `modified` tells whether one of them differed. */
  ghost predicate MergedUpTo(m: map<Name, Buf>, was: map<Name, Buf>, local: map<Name, Buf>, done: set<Name>, modified: bool) {
    && Merged(m, was, local, done)
    && (forall s :: s in done ==> MayMerge(was, local, s))
    && (modified <==> exists s :: s in done && s in was && was[s] != local[s])
  }

  lemma MergedStep(m: map<Name, Buf>, was: map<Name, Buf>, local: map<Name, Buf>, done: set<Name>, modified: bool, s: Name)
    requires MergedUpTo(m, was, local, done, modified) && s in local && s !in done
    ensures (s in m <==> s in was) && (s in was ==> m[s] == was[s])
    ensures MayMerge(was, local, s) ==>
              MergedUpTo(m[s := local[s]], was, local, done + {s}, modified || (s in was && was[s] != local[s]))
  {
  }

  lemma MergeStep(n: Node, m: map<Name, Buf>, s: Section)
    ensures SharedMem.Merge(n, m[s.name := s.buf]).msg ==
              if s.name in n.local then SharedMem.Merge(n, m).msg[s.name := s.buf] else SharedMem.Merge(n, m).msg
  {
  }

  lemma RefusedPrepare(n: Node)
    requires exists s :: s in n.local && !MayMerge(n.msg, n.local, s)
    ensures Prepare(n) == Aborted
  {
  }

  lemma MergedIsPrepared(m: map<Name, Buf>, n: Node)
    requires !n.outdated && Merged(m, n.msg, n.local, n.local.Keys)
    requires forall s :: s in n.local ==> MayMerge(n.msg, n.local, s)
    ensures Prepare(n) == Ok(if Changed(n) then n.(msg := m, dirty := true, kids := Outdate(n.kids, true)) else n.(msg := m))
  {
    assert Prepare(n).s.msg == m;
  }
}
