/** Saving and restoring global variables between tests (src/restore.c): the list of ranges
    is compacted in place, then the bytes it covers are saved and later written back. */
module Restore {

  const WORD: int := 0x1_0000_0000_0000_0000

  /** `size` bytes from address `ptr`. */
  datatype Info = Info(ptr: nat, size: nat)

  predicate Inside(a: nat, e: Info) { e.ptr <= a < e.ptr + e.size }

  ghost predicate Covers(l: seq<Info>, a: nat) { exists i :: 0 <= i < |l| && Inside(a, l[i]) }

  /** The address of an entry in the running program. */
  function Moved(e: Info, base: nat): nat { (e.ptr + base) % WORD }

  /** The entries that are to be restored, moved; `skip` says which addresses are not. */
  function Kept(l: seq<Info>, base: nat, skip: nat -> bool): seq<Info>
    decreases |l|
  {
    if l == [] then []
    else
      var e := l[|l| - 1];
      Kept(l[..|l| - 1], base, skip) + (if skip(Moved(e, base)) then [] else [Info(Moved(e, base), e.size)])
  }

  /** Where an entry ends, in 64-bit arithmetic. */
  function End(e: Info): nat { (e.ptr + e.size) % WORD }

  /** `out` with `e` added: to its last entry if that ends where `e` begins. */
  function Join(out: seq<Info>, e: Info): seq<Info> {
    if out != [] && End(out[|out| - 1]) == e.ptr then
      out[|out| - 1 := Info(out[|out| - 1].ptr, (out[|out| - 1].size + e.size) % WORD)]
    else out + [e]
  }

  function Compacted(l: seq<Info>): (r: seq<Info>)
    ensures |r| <= |l|
    decreases |l|
  {
    if l == [] then [] else Join(Compacted(l[..|l| - 1]), l[|l| - 1])
  }

  /** The addresses ascend, so the first is not 0. */
  ghost predicate Ascending(l: seq<Info>, base: nat) {
    && (forall i :: 0 <= i < |l| ==> 0 < Moved(l[i], base))
    && (forall i, j :: 0 <= i < j < |l| ==> Moved(l[i], base) < Moved(l[j], base))
  }

  // ------------------------------------------------------------ what compaction covers

  /** An object in memory: not at address 0, and inside the first `top` bytes. */
  predicate Object(e: Info, top: nat) { 0 < e.ptr && e.ptr + e.size <= top }

  ghost predicate Objects(l: seq<Info>, top: nat) { forall e :: e in l ==> Object(e, top) }

  /** The joined entry, if two objects are joined. */
  lemma JoinedObject(x: Info, e: Info, top: nat)
    requires Object(x, top) && Object(e, top) && top <= WORD && End(x) == e.ptr
    ensures x.ptr + x.size == e.ptr && (x.size + e.size) % WORD == x.size + e.size
    ensures Object(Info(x.ptr, x.size + e.size), top)
  {
  }

  lemma JoinCovers(out: seq<Info>, e: Info, a: nat, top: nat)
    requires Objects(out, top) && Object(e, top) && top <= WORD
    ensures Covers(Join(out, e), a) <==> Covers(out, a) || Inside(a, e)
    ensures Objects(Join(out, e), top)
  {
    var r, n := Join(out, e), |out|;
    if n > 0 && End(out[n - 1]) == e.ptr {
      JoinedObject(out[n - 1], e, top);
    }
    if Covers(out, a) {
      var i :| 0 <= i < n && Inside(a, out[i]);
      assert Inside(a, r[i]);
    }
    if Inside(a, e) {
      assert Inside(a, r[|r| - 1]);
    }
    if Covers(r, a) {
      var i :| 0 <= i < |r| && Inside(a, r[i]);
      assert i < n - 1 ==> Inside(a, out[i]);
    }
  }

  /** After compaction no entry begins where the one before it ends: nothing is left to join. */
  lemma {:induction false} CompactedJoins(l: seq<Info>)
    ensures forall i :: 0 <= i < |Compacted(l)| - 1 ==> End(Compacted(l)[i]) != Compacted(l)[i + 1].ptr
    decreases |l|
  {
    if l != [] {
      CompactedJoins(l[..|l| - 1]);
    }
  }

  /** The compacted list covers exactly the same bytes. */
  lemma {:induction false} CompactedCovers(l: seq<Info>, a: nat, top: nat)
    requires Objects(l, top) && top <= WORD
    ensures Covers(Compacted(l), a) <==> Covers(l, a)
    ensures Objects(Compacted(l), top)
    decreases |l|
  {
    if l != [] {
      var n := |l| - 1;
      CompactedCovers(l[..n], a, top);
      JoinCovers(Compacted(l[..n]), l[n], a, top);
      CoversNext(l, n, a);
      assert l[..n + 1] == l;
    }
  }

  lemma KeptNext(l: seq<Info>, i: nat, base: nat, skip: nat -> bool)
    requires i < |l|
    ensures Kept(l[..i + 1], base, skip) ==
            Kept(l[..i], base, skip) + (if skip(Moved(l[i], base)) then [] else [Info(Moved(l[i], base), l[i].size)])
    ensures Compacted(Kept(l[..i + 1], base, skip)) ==
            if skip(Moved(l[i], base)) then Compacted(Kept(l[..i], base, skip))
            else Join(Compacted(Kept(l[..i], base, skip)), Info(Moved(l[i], base), l[i].size))
  {
    assert l[..i + 1][..i] == l[..i];
    var k, e := Kept(l[..i], base, skip), Info(Moved(l[i], base), l[i].size);
    var w := k + [e];
    assert w[..|w| - 1] == k && w[|w| - 1] == e && k + [] == k;
    assert Compacted(w) == Join(Compacted(w[..|w| - 1]), w[|w| - 1]);
  }

  /** Entry `e` of the file is to be restored and has the byte at `a`. */
  predicate Restores(e: Info, base: nat, skip: nat -> bool, a: nat) {
    !skip(Moved(e, base)) && Inside(a, Info(Moved(e, base), e.size))
  }

  ghost predicate SomeRestores(l: seq<Info>, base: nat, skip: nat -> bool, a: nat) {
    exists i :: 0 <= i < |l| && Restores(l[i], base, skip, a)
  }

  lemma SomeRestoresNext(l: seq<Info>, base: nat, skip: nat -> bool, a: nat)
    requires l != []
    ensures SomeRestores(l, base, skip, a) <==>
            SomeRestores(l[..|l| - 1], base, skip, a) || Restores(l[|l| - 1], base, skip, a)
  {
    var init, n := l[..|l| - 1], |l| - 1;
    if i :| 0 <= i < n && Restores(init[i], base, skip, a) {
      assert Restores(l[i], base, skip, a);
    }
    if i :| 0 <= i < |l| && Restores(l[i], base, skip, a) {
      assert i < n ==> Restores(init[i], base, skip, a);
    }
  }

  /** Every entry of the file that is to be restored is an object in memory. */
  ghost predicate Loaded(l: seq<Info>, base: nat, skip: nat -> bool, top: nat) { Objects(Kept(l, base, skip), top) }

  /** The result covers a byte exactly if an entry of the file that is to be restored does,
      and none of its entries looks like the end of the list. */
  lemma {:induction false} KeptCovers(l: seq<Info>, base: nat, skip: nat -> bool, a: nat, top: nat)
    requires Loaded(l, base, skip, top) && top <= WORD
    ensures Covers(Compacted(Kept(l, base, skip)), a) <==> SomeRestores(l, base, skip, a)
    ensures Objects(Compacted(Kept(l, base, skip)), top)
    decreases |l|
  {
    CompactedCovers(Kept(l, base, skip), a, top);
    KeptSome(l, base, skip, a);
  }

  lemma {:induction false} KeptSome(l: seq<Info>, base: nat, skip: nat -> bool, a: nat)
    ensures Covers(Kept(l, base, skip), a) <==> SomeRestores(l, base, skip, a)
    decreases |l|
  {
    if l != [] {
      var init, k := l[..|l| - 1], Kept(l, base, skip);
      KeptSome(init, base, skip, a);
      SomeRestoresNext(l, base, skip, a);
      if k != Kept(init, base, skip) {
        CoversNext(k, |k| - 1, a);
        assert k[..|k| - 1] == Kept(init, base, skip) && k[..|k|] == k;
      }
    }
  }

  /** usfstl_read_restore_info on the list read from the file: `n` entries and an end mark.
      The output is written over the input, but never over an entry that is still to be
      read. `fine` is the assertion that addresses ascend. */
  method Compact(info: array<Info>, n: nat, base: nat, skip: nat -> bool) returns (fine: bool, count: nat)
    requires n < info.Length && info[n].ptr == 0 && forall i :: 0 <= i < n ==> info[i].ptr != 0
    modifies info
    ensures fine <==> Ascending(old(info[..n]), base)
    ensures fine ==> count <= n && info[count] == Info(0, 0) && info[..count] == Compacted(Kept(old(info[..n]), base, skip))
  {
    ghost var was := info[..];
    var i, prev := 0, 0;
    count := 0;
    CompactStart(was, n, base, skip);
    while info[i].ptr != 0
      invariant Compacting(info[..], was, n, i, count, prev, base, skip)
      decreases n - i
    {
      fine, count, prev := CompactNext(info, was, n, i, count, prev, base, skip);
      if !fine {
        return false, 0;
      }
      i := i + 1;
    }
    CompactEnd(info[..], was, n, i, count, prev, base, skip);
    info[count] := Info(0, 0);
    fine := true;
  }

  /** The first `i` entries of `was[..n]` have been read; `now` begins with their `count`
      compacted ones, and what is still to be read is as it was. */
  ghost predicate Compacting(
      now: seq<Info>, was: seq<Info>, n: nat, i: nat, count: nat, prev: nat, base: nat, skip: nat -> bool) {
    && |now| == |was| && count <= i <= n < |was| && now[i..n + 1] == was[i..n + 1]
    && now[..count] == Compacted(Kept(was[..n][..i], base, skip))
    && Ascending(was[..n][..i], base) && prev == if i == 0 then 0 else Moved(was[i - 1], base)
  }

  lemma CompactStart(was: seq<Info>, n: nat, base: nat, skip: nat -> bool)
    requires n < |was|
    ensures Compacting(was, was, n, 0, 0, 0, base, skip)
  {
  }

  lemma CompactEnd(now: seq<Info>, was: seq<Info>, n: nat, i: nat, count: nat, prev: nat, base: nat, skip: nat -> bool)
    requires Compacting(now, was, n, i, count, prev, base, skip) && now[i].ptr == 0
    requires forall k :: 0 <= k < n ==> was[k].ptr != 0
    ensures i == n && Ascending(was[..n], base) && now[..count] == Compacted(Kept(was[..n], base, skip))
  {
    assert now[i] == now[i..n + 1][0] == was[i];
    assert was[..n][..n] == was[..n];
  }

  /** One entry is read: it does not ascend, or the compacted list takes it in. */
  method CompactNext(
      info: array<Info>, ghost was: seq<Info>, n: nat, i: nat, count: nat, prev: nat, base: nat, skip: nat -> bool)
    returns (fine: bool, count': nat, prev': nat)
    requires Compacting(info[..], was, n, i, count, prev, base, skip) && info[i].ptr != 0 && was[n].ptr == 0
    modifies info
    ensures !fine ==> !Ascending(was[..n], base)
    ensures fine ==> i < n && Compacting(info[..], was, n, i + 1, count', prev', base, skip)
  {
    ghost var l := was[..n];
    ReadsOld(info[..], was, n, i);
    prev', count' := Moved(info[i], base), count;
    fine := prev' > prev;
    if fine {
      AscendingNext(l, i, base);
      count' := PlaceNext(info, count, i, n, prev', base, skip, l);
      TakenIn(info[..], was, n, i, count', base, skip);
    } else {
      NotAscending(l, i, base);
    }
  }

  lemma ReadsOld(now: seq<Info>, was: seq<Info>, n: nat, i: nat)
    requires i <= n < |was| == |now| && now[i..n + 1] == was[i..n + 1] && now[i].ptr != 0 && was[n].ptr == 0
    ensures i < n && now[i] == was[i] == was[..n][i]
    ensures forall k :: i <= k <= n ==> now[k] == was[k]
  {
    assert now[i] == now[i..n + 1][0];
    forall k | i <= k <= n ensures now[k] == was[k] {
      assert now[k] == now[i..n + 1][k - i];
    }
  }

  lemma TakenIn(now: seq<Info>, was: seq<Info>, n: nat, i: nat, count: nat, base: nat, skip: nat -> bool)
    requires i < n < |was| == |now| && count <= i + 1 && forall k :: i < k <= n ==> now[k] == was[k]
    requires now[..count] == Compacted(Kept(was[..n][..i + 1], base, skip)) && Ascending(was[..n][..i + 1], base)
    ensures Compacting(now, was, n, i + 1, count, Moved(was[i], base), base, skip)
  {
  }

  method PlaceNext(info: array<Info>, count: nat, i: nat, n: nat, ptr: nat, base: nat, skip: nat -> bool, ghost l: seq<Info>)
    returns (next: nat)
    requires count <= i < n < info.Length && i < |l| && info[i] == l[i] && ptr == Moved(l[i], base)
    requires info[..count] == Compacted(Kept(l[..i], base, skip))
    modifies info
    ensures count <= next <= i + 1 && forall k :: i < k <= n ==> info[k] == old(info[k])
    ensures info[..next] == Compacted(Kept(l[..i + 1], base, skip))
  {
    KeptNext(l, i, base, skip);
    next := Place(info, count, i, n, skip(ptr), Info(ptr, info[i].size));
  }

  /** One entry is skipped, joined to the last one written, or written after it. */
  method Place(info: array<Info>, count: nat, i: nat, n: nat, skipped: bool, e: Info) returns (next: nat)
    requires count <= i < n < info.Length
    modifies info
    ensures count <= next <= i + 1 && forall k :: i < k <= n ==> info[k] == old(info[k])
    ensures info[..next] == if skipped then old(info[..count]) else Join(old(info[..count]), e)
  {
    next := count;
    if skipped {
      return;
    }
    if count > 0 && End(info[count - 1]) == e.ptr {
      info[count - 1] := Info(info[count - 1].ptr, (info[count - 1].size + e.size) % WORD);
    } else {
      info[count] := e;
      next := count + 1;
    }
  }

  lemma NotAscending(l: seq<Info>, i: nat, base: nat)
    requires i < |l| && Moved(l[i], base) <= if i == 0 then 0 else Moved(l[i - 1], base)
    ensures !Ascending(l, base)
  {
    if i > 0 { assert !(Moved(l[i - 1], base) < Moved(l[i], base)); }
  }

  lemma AscendingNext(l: seq<Info>, i: nat, base: nat)
    requires i < |l| && Ascending(l[..i], base) && Moved(l[i], base) > if i == 0 then 0 else Moved(l[i - 1], base)
    ensures Ascending(l[..i + 1], base)
  {
    forall k | 0 <= k < i ensures Moved(l[k], base) < Moved(l[i], base) {
      assert l[..i][k] == l[k] && l[..i][i - 1] == l[i - 1];
    }
  }

  // ------------------------------------------------------------ save and restore

  ghost predicate Mapped(l: seq<Info>, mem: seq<int>) { forall e :: e in l ==> e.ptr + e.size <= |mem| }

  /** usfstl_save_restore_data. */
  function Saved(l: seq<Info>, mem: seq<int>): seq<int>
    requires Mapped(l, mem)
    decreases |l|
  {
    if l == [] then []
    else
      var e := l[|l| - 1];
      Saved(l[..|l| - 1], mem) + mem[e.ptr..e.ptr + e.size]
  }

  function Total(l: seq<Info>): nat
    decreases |l|
  {
    if l == [] then 0 else Total(l[..|l| - 1]) + l[|l| - 1].size
  }

  /** memcpy. */
  function Written(mem: seq<int>, at: nat, data: seq<int>): (r: seq<int>)
    requires at + |data| <= |mem|
    ensures |r| == |mem|
    ensures forall a :: 0 <= a < |mem| ==> r[a] == if at <= a < at + |data| then data[a - at] else mem[a]
  {
    mem[..at] + data + mem[at + |data|..]
  }

  /** A byte is back at its saved value if the list covers it, and untouched otherwise. */
  ghost predicate RestoredTo(l: seq<Info>, was: seq<int>, now: seq<int>, r: seq<int>) {
    |was| == |now| == |r| && forall a :: 0 <= a < |r| ==> r[a] == if Covers(l, a) then was[a] else now[a]
  }

  /** The list ends at the first entry that is all zero. */
  ghost predicate EndsAt(info: seq<Info>, n: nat) {
    n < |info| && info[n] == Info(0, 0) && forall k :: 0 <= k < n ==> info[k] != Info(0, 0)
  }

  /** Both loops of usfstl_save_restore_data: the size, and the copy. */
  method Save(info: array<Info>, ghost n: nat, mem: seq<int>) returns (data: seq<int>)
    requires EndsAt(info[..], n) && Mapped(info[..n], mem)
    ensures data == Saved(info[..n], mem) && |data| == Total(info[..n])
  {
    var total := SavedSize(info, n);
    data := [];
    var i := 0;
    while info[i].ptr != 0 || info[i].size != 0
      invariant i <= n && data == Saved(info[..i], mem) && |data| == Total(info[..i])
      decreases n - i
    {
      assert info[..i + 1][..i] == info[..i] && info[..n][i] == info[i];
      data := data + mem[info[i].ptr..info[i].ptr + info[i].size];
      i := i + 1;
    }
    assert |data| == total;
  }

  method SavedSize(info: array<Info>, ghost n: nat) returns (total: nat)
    requires EndsAt(info[..], n)
    ensures total == Total(info[..n])
  {
    total := 0;
    var i := 0;
    while info[i].ptr != 0 || info[i].size != 0
      invariant i <= n && total == Total(info[..i])
      decreases n - i
    {
      assert info[..i + 1][..i] == info[..i];
      total, i := total + info[i].size, i + 1;
    }
  }

  lemma {:induction false} SavedPart(l: seq<Info>, mem: seq<int>, i: nat)
    requires Mapped(l, mem) && i < |l|
    ensures |Saved(l, mem)| == Total(l) && Total(l[..i]) + l[i].size == Total(l[..i + 1]) <= Total(l)
    ensures Saved(l, mem)[Total(l[..i])..Total(l[..i + 1])] == mem[l[i].ptr..l[i].ptr + l[i].size]
    decreases |l|
  {
    var init, e := l[..|l| - 1], l[|l| - 1];
    assert l[i] in l && l[..i + 1][..i] == l[..i];
    SavedLength(init, mem);
    if i == |l| - 1 {
      assert l[..i] == init && l[..i + 1] == l;
    } else {
      SavedPart(init, mem, i);
      assert init[..i] == l[..i] && init[..i + 1] == l[..i + 1] && init[i] == l[i];
    }
  }

  lemma {:induction false} SavedLength(l: seq<Info>, mem: seq<int>)
    requires Mapped(l, mem)
    ensures |Saved(l, mem)| == Total(l)
    decreases |l|
  {
    if l != [] {
      assert l[|l| - 1] in l;
      SavedLength(l[..|l| - 1], mem);
    }
  }

  lemma RestoredNext(l: seq<Info>, i: nat, was: seq<int>, now: seq<int>, r: seq<int>)
    requires i < |l| && l[i].ptr + l[i].size <= |was| && RestoredTo(l[..i], was, now, r)
    ensures RestoredTo(l[..i + 1], was, now, Written(r, l[i].ptr, was[l[i].ptr..l[i].ptr + l[i].size]))
  {
    var e := l[i];
    forall a: nat | 0 <= a < |r| ensures Covers(l[..i + 1], a) <==> Covers(l[..i], a) || Inside(a, e) {
      CoversNext(l, i, a);
    }
  }

  lemma CoversNext(l: seq<Info>, i: nat, a: nat)
    requires i < |l|
    ensures Covers(l[..i + 1], a) <==> Covers(l[..i], a) || Inside(a, l[i])
  {
    if Covers(l[..i], a) {
      var k :| 0 <= k < i && Inside(a, l[..i][k]);
      assert Inside(a, l[..i + 1][k]);
    }
    if Inside(a, l[i]) { assert Inside(a, l[..i + 1][i]); }
    if Covers(l[..i + 1], a) {
      var k :| 0 <= k < i + 1 && Inside(a, l[..i + 1][k]);
      assert k < i ==> Inside(a, l[..i][k]);
    }
  }

  /** usfstl_restore_data with what was saved: whatever happened in between, every covered
      byte gets its saved value back and no other byte changes. */
  method WriteBack(info: array<Info>, ghost n: nat, ghost was: seq<int>, mem: array<int>, data: seq<int>)
    requires EndsAt(info[..], n) && Mapped(info[..n], was) && |was| == mem.Length && data == Saved(info[..n], was)
    modifies mem
    ensures RestoredTo(info[..n], was, old(mem[..]), mem[..])
  {
    ghost var l := info[..n];
    var i, at := 0, 0;
    while info[i].ptr != 0 || info[i].size != 0
      invariant i <= n && info[..n] == l && EndsAt(info[..], n)
      invariant at == Total(l[..i]) && RestoredTo(l[..i], was, old(mem[..]), mem[..])
      decreases n - i
    {
      assert l[i] == info[i];
      WriteOne(l, i, was, old(mem[..]), mem, info[i], data, at);
      at, i := at + info[i].size, i + 1;
    }
    assert l[..i] == l;
  }

  /** One entry is written back; `at` is where its bytes are in the saved data. */
  method WriteOne(
      ghost l: seq<Info>, ghost i: nat, ghost was: seq<int>, ghost before: seq<int>, mem: array<int>, e: Info, data: seq<int>, at: nat)
    requires i < |l| && e == l[i] && Mapped(l, was) && |was| == mem.Length && data == Saved(l, was) && at == Total(l[..i])
    requires RestoredTo(l[..i], was, before, mem[..])
    modifies mem
    ensures RestoredTo(l[..i + 1], was, before, mem[..]) && at + e.size == Total(l[..i + 1])
  {
    assert l[i] in l;
    SavedPart(l, was, i);
    RestoredNext(l, i, was, before, mem[..]);
    CopyIn(mem, e.ptr, data[at..at + e.size]);
  }

  method CopyIn(mem: array<int>, at: nat, data: seq<int>)
    requires at + |data| <= mem.Length
    modifies mem
    ensures mem[..] == Written(old(mem[..]), at, data)
  {
    forall k | 0 <= k < |data| { mem[at + k] := data[k]; }
  }

  // ------------------------------------------------------------ the whole cycle

  /** Every byte that is to be restored is covered by the list, and no other. */
  ghost predicate CoversFile(l: seq<Info>, file: seq<Info>, base: nat, skip: nat -> bool) {
    forall a: nat :: Covers(l, a) <==> SomeRestores(file, base, skip, a)
  }

  /** Compaction, saving and restoring agree on what the list is and where it ends. */
  lemma CompactedList(l: seq<Info>, base: nat, skip: nat -> bool, mem: seq<int>, info: seq<Info>, n: nat)
    requires Loaded(l, base, skip, |mem|) && |mem| <= WORD
    requires n < |info| && info[n] == Info(0, 0) && info[..n] == Compacted(Kept(l, base, skip))
    ensures EndsAt(info, n) && Mapped(info[..n], mem) && CoversFile(info[..n], l, base, skip)
  {
    forall a: nat ensures Covers(info[..n], a) <==> SomeRestores(l, base, skip, a) {
      KeptCovers(l, base, skip, a, |mem|);
    }
    KeptCovers(l, base, skip, 0, |mem|);
    forall k | 0 <= k < n ensures info[k] != Info(0, 0) {
      assert info[k] == info[..n][k] && info[..n][k] in info[..n];
    }
  }

  /** The list is compacted, and what it then is serves saving and restoring. */
  method ReadInfo(info: array<Info>, n: nat, base: nat, skip: nat -> bool, ghost mem: seq<int>) returns (fine: bool, count: nat)
    requires n < info.Length && info[n].ptr == 0 && forall i :: 0 <= i < n ==> info[i].ptr != 0
    requires Loaded(info[..n], base, skip, |mem|) && |mem| <= WORD
    modifies info
    ensures fine <==> Ascending(old(info[..n]), base)
    ensures fine ==> EndsAt(info[..], count) && Mapped(info[..count], mem) && CoversFile(info[..count], old(info[..n]), base, skip)
  {
    ghost var l := info[..n];
    fine, count := Compact(info, n, base, skip);
    if fine {
      assert info[..][..count] == info[..count];
      CompactedList(l, base, skip, mem, info[..], count);
    }
  }

  /** The saved globals of a program. */
  class Globals {
    const info: array<Info>
    var data: seq<int>
    ghost var count: nat
    ghost var file: seq<Info>
    ghost var was: seq<int>

    /** `was` is saved: of every byte that an entry of `file` to be restored covers. */
    ghost predicate Valid(base: nat, skip: nat -> bool)
      reads this, info
    {
      && EndsAt(info[..], count) && Mapped(info[..count], was) && data == Saved(info[..count], was)
      && CoversFile(info[..count], file, base, skip)
    }

    constructor (info: array<Info>)
      ensures this.info == info
    {
      this.info, data, count, file, was := info, [], 0, [], [];
    }

    /** usfstl_save_globals; `fine` is the assertion that the addresses in the file ascend. */
    method SaveGlobals(n: nat, base: nat, skip: nat -> bool, mem: seq<int>) returns (fine: bool)
      requires n < info.Length && info[n].ptr == 0 && forall i :: 0 <= i < n ==> info[i].ptr != 0
      requires Loaded(info[..n], base, skip, |mem|) && |mem| <= WORD
      modifies this, info
      ensures fine <==> Ascending(old(info[..n]), base)
      ensures fine ==> Valid(base, skip) && file == old(info[..n]) && was == mem
    {
      ghost var l := info[..n];
      var c;
      fine, c := ReadInfo(info, n, base, skip, mem);
      if fine {
        data := Save(info, c, mem);
        count, file, was := c, l, mem;
      }
    }

    /** usfstl_restore_globals: a byte has its saved value if an entry of the file to be
        restored covers it, and otherwise the value it had just before. */
    method RestoreGlobals(ghost base: nat, ghost skip: nat -> bool, mem: array<int>)
      requires Valid(base, skip) && mem.Length == |was|
      modifies mem
      ensures forall a :: 0 <= a < mem.Length ==>
                mem[a] == if SomeRestores(file, base, skip, a) then was[a] else old(mem[a])
    {
      WriteBack(info, count, was, mem, data);
    }
  }
}
