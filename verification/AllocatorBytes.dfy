/** Where every mapped byte is: held by a caller, on the free list, or lost; and exactly which
    bytes each call loses. */
module AllocatorBytes {
  import opened Wrappers
  import opened Allocator

  ghost predicate OnList(free: seq<Block>, a: nat) { exists b :: b in free && In(a, b) }

  /** Mapped, but neither held nor on the free list: it will never be used again. */
  ghost predicate Lost(s: State, a: nat) { a in s.mapped && a !in s.owned && !OnList(s.free, a) }

  /** The bytes that are lost when `b` is given up (src/dwarf/mmap.c:76-101, 225-230): all of
      it without the lock or below 16 bytes, and a smallest block when 16 are on the list. */
  ghost predicate Leaks(free: seq<Block>, b: Block, unmap: bool, locked: bool, a: nat) {
    if unmap then false
    else if !locked || b.size < HEADER then In(a, b)
    else if |free| < MAX_BLOCKS then false
    else In(a, Dropped(free, b))
  }

  lemma OnListWithout(free: seq<Block>, k: nat, a: nat)
    requires k < |free|
    ensures OnList(free, a) <==> OnList(Without(free, k), a) || In(a, free[k])
  {
    var r := Without(free, k);
    if b :| b in free && In(a, b) && b != free[k] {
      var i :| 0 <= i < |free| && free[i] == b;
      assert b == r[if i < k then i else i - 1];
    }
    if b :| b in r && In(a, b) {
      assert b in free;
    }
  }

  lemma OnListWith(free: seq<Block>, b: Block, a: nat)
    ensures OnList([b] + free, a) <==> OnList(free, a) || In(a, b)
  {
    if OnList(free, a) { var c :| c in free && In(a, c); assert c in [b] + free; }
    if In(a, b) { assert b in [b] + free; }
  }

  /** Which bytes are on the list afterwards. */
  lemma FreeLockedBytes(free: seq<Block>, owned: set<nat>, mapped: set<nat>, b: Block, a: nat)
    requires ListInv(free, owned, mapped) && forall c :: c in free ==> b.size >= HEADER ==> Apart(b, c)
    ensures OnList(FreeLocked(free, b), a) <==>
              && (OnList(free, a) || (b.size >= HEADER && In(a, b)))
              && (b.size >= HEADER && |free| >= MAX_BLOCKS ==> !In(a, Dropped(free, b)))
  {
    if b.size >= HEADER {
      OnListWith(free, b, a);
      if |free| >= MAX_BLOCKS {
        var k := Smallest(free);
        OnListWithout(free, k, a);
        OnListWith(Without(free, k), b, a);
        WithoutInv(free, owned, mapped, k);
      }
    }
  }

  lemma GiveUpLoses(s: State, b: Block, unmap: bool, locked: bool, a: nat)
    requires Inv(s) && Bytes(b) <= s.owned
    ensures var t := GiveUp(s, b, unmap, locked);
            && t.owned == s.owned - Bytes(b) && t.mapped == (if unmap then s.mapped - Bytes(b) else s.mapped)
            && (Lost(t, a) <==> Lost(s, a) || Leaks(s.free, b, unmap, locked, a))
  {
    assert In(a, b) <==> a in Bytes(b);
    forall c | c in s.free && b.size >= HEADER ensures Apart(b, c) {
      ApartFromOwned(b, c, s.owned);
    }
    if OnList(s.free, a) {
      var c :| c in s.free && In(a, c);
      assert a in s.mapped && a !in s.owned;
    }
    FreeLockedBytes(s.free, s.owned, s.mapped, b, a);
    if |s.free| >= MAX_BLOCKS && In(a, Dropped(s.free, b)) {
      DroppedMapped(s, b, a);
    }
  }

  lemma DroppedMapped(s: State, b: Block, a: nat)
    requires Inv(s) && Bytes(b) <= s.owned && s.free != [] && In(a, Dropped(s.free, b))
    ensures a in s.mapped && (a in s.owned ==> In(a, b))
  {
    assert In(a, b) <==> a in Bytes(b);
    assert s.free[Smallest(s.free)] in s.free;
  }

  // ------------------------------------------------------------ calls

  /** The bytes that a call loses. What is left of a block from the list goes back to a list
      that has room; what is left of fresh pages is freed like anything else. */
  ghost predicate CallLeaks(s: State, op: Op, page: nat, a: nat)
    requires page > 0
  {
    match op
    case Release(_, b, locked, unmapped) => Leaks(s.free, b, LargePages(b, page) && unmapped, locked, a)
    case Allocate(size, locked, at, lockedAgain, unmapped) =>
      var k, need := FirstFit(s.free, size), RoundUp(size, 8);
      if locked && k < |s.free| then
        need < s.free[k].size && s.free[k].size - need < HEADER && In(a, Tail(s.free[k], need))
      else if at.None? then false
      else
        var all := Block(at.value, RoundUp(size, page));
        need < all.size && Leaks(s.free, Tail(all, need), LargePages(Tail(all, need), page) && unmapped, lockedAgain, a)
  }

  /** 16 or more times 4096 bytes that are whole pages. */
  ghost predicate LargePages(b: Block, page: nat)
    requires page > 0
  {
    b.size >= 0x1_0000 && b.addr % page == 0 && b.size % page == 0
  }

  /** Freeing takes exactly these bytes from the caller; large whole pages are unmapped. */
  lemma FreeTakes(s: State, b: Block, page: nat, locked: bool, unmapped: bool)
    requires Inv(s) && page > 0 && Bytes(b) <= s.owned
    ensures var t := Free(s, b, page, locked, unmapped);
            && t.owned == s.owned - Bytes(b)
            && if LargePages(b, page) && unmapped then t.mapped == s.mapped - Bytes(b) && t.free == s.free else t.mapped == s.mapped
  {
  }

  /** A block on the list that is large enough is used, at its start, and nothing is mapped;
      otherwise the pages are mapped and the block is at their start. */
  lemma AllocFrom(s: State, size: nat, page: nat, locked: bool, at: Option<nat>, lockedAgain: bool, unmapped: bool)
    requires Inv(s) && PageSize(page) && size < WORD && MapAnswer(s, RoundUp(size, page), page, at)
    ensures var r, k := Alloc(s, size, page, locked, at, lockedAgain, unmapped), FirstFit(s.free, size);
            if locked && exists b :: b in s.free && b.size >= size then
              && k < |s.free| && r.0.Some? && r.0.value.addr == s.free[k].addr && r.0.value.size < size + 8 && r.1.mapped == s.mapped
            else if at.Some? then
              && r.0.Some? && r.0.value.addr == at.value && r.0.value.size < size + 8
              && s.mapped + Bytes(r.0.value) <= r.1.mapped <= s.mapped + Bytes(Block(at.value, RoundUp(size, page)))
            else r.0.None? && r.1 == s
  {
    FitExists(s.free, size);
    if locked && FirstFit(s.free, size) < |s.free| {
      AllocReuses(s, size, page, at, lockedAgain, unmapped);
    } else if at.Some? {
      AllocMaps(s, size, page, locked, at.value, lockedAgain, unmapped);
    }
  }

  lemma FitExists(free: seq<Block>, size: nat)
    ensures FirstFit(free, size) < |free| <==> exists b :: b in free && b.size >= size
  {
    if b :| b in free && b.size >= size {
      var i :| 0 <= i < |free| && free[i] == b;
    }
  }

  lemma AllocReuses(s: State, size: nat, page: nat, at: Option<nat>, lockedAgain: bool, unmapped: bool)
    requires Inv(s) && PageSize(page) && size < WORD && FirstFit(s.free, size) < |s.free| && MapAnswer(s, RoundUp(size, page), page, at)
    ensures var r, k := Alloc(s, size, page, true, at, lockedAgain, unmapped), FirstFit(s.free, size);
            r.0.Some? && r.0.value.addr == s.free[k].addr && r.0.value.size < size + 8 && r.1.mapped == s.mapped
  {
    SizeBelowWord(s, s.free[FirstFit(s.free, size)]);
    RoundUpExact(size, 8);
  }

  lemma AllocMaps(s: State, size: nat, page: nat, locked: bool, at: nat, lockedAgain: bool, unmapped: bool)
    requires Inv(s) && PageSize(page) && size < WORD && MapAnswer(s, RoundUp(size, page), page, Some(at))
    requires !locked || FirstFit(s.free, size) == |s.free|
    ensures var r := Alloc(s, size, page, locked, Some(at), lockedAgain, unmapped);
            && r.0.Some? && r.0.value.addr == at && r.0.value.size < size + 8
            && s.mapped + Bytes(r.0.value) <= r.1.mapped <= s.mapped + Bytes(Block(at, RoundUp(size, page)))
  {
    NeedWithinAsk(size, page);
    RoundUpExact(size, 8);
    FreshMaps(s, Block(at, RoundUp(size, page)), RoundUp(size, 8), page, lockedAgain, unmapped);
  }

  lemma FreshMaps(s: State, all: Block, need: nat, page: nat, locked: bool, unmapped: bool)
    requires page > 0 && need <= all.size
    ensures var t := Fresh(s, all, need, TailReturned(all, need, page, unmapped), locked);
            s.mapped + Bytes(Block(all.addr, need)) - (if need < all.size then Bytes(Tail(all, need)) else {}) <= t.mapped <= s.mapped + Bytes(all)
  {
    BytesSplit(all, need);
  }

  lemma ReuseLoses(s: State, k: nat, need: nat, a: nat)
    requires Inv(s) && k < |s.free|
    ensures Lost(Reuse(s, k, need), a) <==>
              Lost(s, a) || (need < s.free[k].size && s.free[k].size - need < HEADER && In(a, Tail(s.free[k], need)))
  {
    var b, rest := s.free[k], Without(s.free, k);
    assert b in s.free;
    WithoutInv(s.free, s.owned, s.mapped, k);
    OnListWithout(s.free, k, a);
    assert In(a, Part(b, need)) <==> a in Bytes(Part(b, need));
    assert In(a, b) ==> a in s.mapped && a !in s.owned;
    if need < b.size {
      FreeLockedBytes(rest, s.owned, s.mapped, Tail(b, need), a);
    }
    if OnList(rest, a) {
      RestNotTaken(s, rest, b, a);
    }
  }

  lemma RestNotTaken(s: State, rest: seq<Block>, b: Block, a: nat)
    requires OnList(rest, a) && forall c :: c in rest ==> Apart(c, b)
    ensures !In(a, b)
  {
    var c :| c in rest && In(a, c);
  }

  lemma FreshLoses(s: State, all: Block, need: nat, unmap: bool, locked: bool, a: nat)
    requires Inv(s) && FreshRange(s, all)
    ensures Lost(Fresh(s, all, need, unmap, locked), a) <==>
              Lost(s, a) || (need < all.size && Leaks(s.free, Tail(all, need), unmap, locked, a))
  {
    var t := s.(mapped := s.mapped + Bytes(all), owned := s.owned + Bytes(all));
    MapInv(s, all);
    assert In(a, all) <==> a in Bytes(all);
    if need < all.size {
      BytesSplit(all, need);
      GiveUpLoses(t, Tail(all, need), unmap, locked, a);
    }
  }

  /** Every call loses exactly the bytes of `CallLeaks`. */
  lemma StepLoses(w: World, op: Op, page: nat, a: nat)
    requires WorldInv(w) && PageSize(page) && Allowed(w, op, page)
    ensures Lost(Step(w, op, page).s, a) <==> Lost(w.s, a) || CallLeaks(w.s, op, page, a)
  {
    match op
    case Release(k, b, locked, unmapped) =>
      assert Sound(w.live[k], w.s.owned);
      GiveUpLoses(w.s, b, Returnable(b, page) && unmapped, locked, a);
    case Allocate(size, locked, at, lockedAgain, unmapped) =>
      var k, need := FirstFit(w.s.free, size), RoundUp(size, 8);
      if locked && k < |w.s.free| {
        ReuseLoses(w.s, k, need, a);
      } else if at.Some? {
        var all := Block(at.value, RoundUp(size, page));
        AnswerIsFresh(w.s, all, page);
        FreshLoses(w.s, all, need, TailReturned(all, need, page, unmapped), lockedAgain, a);
      }
  }

  /** Some call of the run loses byte `a`. */
  ghost predicate RunLeaks(w: World, ops: seq<Op>, page: nat, a: nat)
    requires page > 0 && Legal(w, ops, page)
    decreases |ops|
  {
    ops != [] && (CallLeaks(w.s, ops[0], page, a) || RunLeaks(Step(w, ops[0], page), ops[1..], page, a))
  }

  /** After every sequence of allocations and frees, a mapped byte that no caller holds is on
      the free list unless one of the calls has lost it. */
  lemma {:induction false} RunLoses(w: World, ops: seq<Op>, page: nat, a: nat)
    requires WorldInv(w) && PageSize(page) && Legal(w, ops, page)
    ensures Lost(Run(w, ops, page).s, a) <==> Lost(w.s, a) || RunLeaks(w, ops, page, a)
    decreases |ops|
  {
    if ops != [] {
      StepInv(w, ops[0], page);
      StepLoses(w, ops[0], page, a);
      RunLoses(Step(w, ops[0], page), ops[1..], page, a);
    }
  }
}
