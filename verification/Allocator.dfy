/** The free-list allocator of the backtrace library (src/dwarf/mmap.c). Memory is a set of
    addresses; the operating system's answers are inputs. */
module Allocator {
  import opened Division
  import opened Wrappers

  const WORD: int := 0x1_0000_0000_0000_0000
  const MAX_BLOCKS: nat := 16
  const HEADER: nat := 16

  /** A block on the free list: `size` bytes from `addr`. */
  datatype Block = Block(addr: nat, size: nat)

  /** `owned` is what callers hold, `mapped` what the process has mapped. */
  datatype State = State(free: seq<Block>, owned: set<nat>, mapped: set<nat>)

  predicate In(a: nat, b: Block) { b.addr <= a < b.addr + b.size }

  function Bytes(b: Block): set<nat> { set a: nat | b.addr <= a < b.addr + b.size && In(a, b) }

  predicate Apart(b: Block, c: Block) { b.addr + b.size <= c.addr || c.addr + c.size <= b.addr }

  /** Rounding to a multiple of `unit`, a power of two, as `(x + unit - 1) & ~(unit - 1)`
      does on 64-bit words. */
  function RoundUp(x: nat, unit: nat): nat
    requires unit > 0
  {
    var y := (x + unit - 1) % WORD;
    y - y % unit
  }

  // ------------------------------------------------------------ the free list

  /** Position of the first of the smallest blocks. */
  function Smallest(free: seq<Block>): (k: nat)
    requires free != []
    ensures k < |free| && (forall i :: 0 <= i < |free| ==> free[k].size <= free[i].size)
    ensures forall i :: 0 <= i < k ==> free[k].size < free[i].size
    decreases |free|
  {
    if |free| == 1 then 0
    else
      var k := Smallest(free[..|free| - 1]);
      if free[|free| - 1].size < free[k].size then |free| - 1 else k
  }

  function Without(free: seq<Block>, k: nat): seq<Block>
    requires k < |free|
  {
    free[..k] + free[k + 1..]
  }

  /** backtrace_free_locked. */
  function FreeLocked(free: seq<Block>, b: Block): seq<Block> {
    if b.size < HEADER then free
    else if |free| < MAX_BLOCKS then [b] + free
    else if b.size <= free[Smallest(free)].size then free
    else [b] + Without(free, Smallest(free))
  }

  /** First block of at least `size` bytes; their number if there is none. */
  function FirstFit(free: seq<Block>, size: nat): (k: nat)
    ensures k <= |free| && (k < |free| ==> free[k].size >= size)
    ensures forall i :: 0 <= i < k ==> free[i].size < size
  {
    if free == [] || free[0].size >= size then 0 else 1 + FirstFit(free[1..], size)
  }

  // ------------------------------------------------------------ operations

  /** Large page-aligned blocks go back to the system. */
  predicate Returnable(b: Block, page: nat)
    requires page > 0
  {
    b.size >= 16 * 4096 && b.addr % page == 0 && b.size % page == 0
  }

  /** A caller gives `b` up: it is unmapped, goes to the free list, or is leaked. */
  function GiveUp(s: State, b: Block, unmap: bool, locked: bool): State {
    if unmap then s.(owned := s.owned - Bytes(b), mapped := s.mapped - Bytes(b))
    else s.(owned := s.owned - Bytes(b), free := if locked then FreeLocked(s.free, b) else s.free)
  }

  /** backtrace_free; `locked`: the lock is taken, `unmapped`: munmap would succeed. */
  function Free(s: State, b: Block, page: nat, locked: bool, unmapped: bool): State
    requires page > 0
  {
    GiveUp(s, b, Returnable(b, page) && unmapped, locked)
  }

  /** What the system may answer to a request for `size` bytes: a fresh page-aligned range,
      or failure, which is the only answer for no bytes at all. */
  ghost predicate MapAnswer(s: State, size: nat, page: nat, at: Option<nat>)
    requires page > 0
  {
    at.Some? ==>
      && size > 0 && at.value % page == 0 && 0 < at.value && at.value + size <= WORD
      && (forall a :: a in s.mapped ==> !In(a, Block(at.value, size)))
  }

  function Part(b: Block, need: nat): Block { Block(b.addr, if need < b.size then need else b.size) }

  /** Block `k` of the free list is used, and what is left of it freed again. */
  function Reuse(s: State, k: nat, need: nat): State
    requires k < |s.free|
  {
    var b, rest := s.free[k], Without(s.free, k);
    s.(owned := s.owned + Bytes(Part(b, need)),
       free := if need < b.size then FreeLocked(rest, Tail(b, need)) else rest)
  }

  /** `all` has been mapped, and all but its first `need` bytes are freed. */
  function Fresh(s: State, all: Block, need: nat, unmap: bool, locked: bool): State {
    var t := s.(mapped := s.mapped + Bytes(all), owned := s.owned + Bytes(all));
    if need < all.size then GiveUp(t, Tail(all, need), unmap, locked) else t
  }

  function Tail(b: Block, need: nat): Block
    requires need < b.size
  {
    Block(b.addr + need, b.size - need)
  }

  predicate TailReturned(all: Block, need: nat, page: nat, unmapped: bool)
    requires page > 0
  {
    need < all.size && Returnable(Tail(all, need), page) && unmapped
  }

  /** backtrace_alloc: the block found, if any, and the state after it. */
  function Alloc(s: State, size: nat, page: nat, locked: bool, at: Option<nat>, lockedAgain: bool, unmapped: bool)
    : (Option<Block>, State)
    requires page > 0 && size < WORD
  {
    var k := FirstFit(s.free, size);
    var need := RoundUp(size, 8);
    if locked && k < |s.free| then
      (Some(Part(s.free[k], need)), Reuse(s, k, need))
    else
      if at.None? then (None, s)
      else
        var all := Block(at.value, RoundUp(size, page));
        (Some(Block(at.value, need)), Fresh(s, all, need, TailReturned(all, need, page, unmapped), lockedAgain))
  }

  // ------------------------------------------------------------ invariant

  ghost predicate ListInv(free: seq<Block>, owned: set<nat>, mapped: set<nat>) {
    && |free| <= MAX_BLOCKS
    && (forall b :: b in free ==> HEADER <= b.size && InMapped(b, mapped) && NotIn(b, owned))
    && (forall i, j :: 0 <= i < j < |free| ==> Apart(free[i], free[j]))
  }

  ghost predicate InMapped(b: Block, mapped: set<nat>) { forall a :: In(a, b) ==> a in mapped }

  ghost predicate NotIn(b: Block, owned: set<nat>) { forall a :: In(a, b) ==> a !in owned }

  ghost predicate Inv(s: State) {
    && ListInv(s.free, s.owned, s.mapped) && s.owned <= s.mapped
    && (forall a :: a in s.mapped ==> 8 <= a < WORD)
  }

  lemma WithoutInv(free: seq<Block>, owned: set<nat>, mapped: set<nat>, k: nat)
    requires ListInv(free, owned, mapped) && k < |free|
    ensures ListInv(Without(free, k), owned, mapped) && |Without(free, k)| == |free| - 1
    ensures forall b :: b in Without(free, k) ==> b in free && Apart(b, free[k])
  {
    var r := Without(free, k);
    forall i | 0 <= i < |r| ensures r[i] == free[if i < k then i else i + 1] {
    }
  }

  lemma FreeLockedInv(free: seq<Block>, owned: set<nat>, mapped: set<nat>, b: Block)
    requires ListInv(free, owned, mapped) && InMapped(b, mapped) && NotIn(b, owned)
    requires forall c :: c in free ==> Apart(b, c)
    ensures ListInv(FreeLocked(free, b), owned, mapped)
  {
    if free != [] {
      WithoutInv(free, owned, mapped, Smallest(free));
    }
  }

  /** The block that a full list does without. */
  function Dropped(free: seq<Block>, b: Block): Block
    requires free != []
  {
    if b.size <= free[Smallest(free)].size then b else free[Smallest(free)]
  }

  lemma WithoutCounts(free: seq<Block>, k: nat)
    requires k < |free|
    ensures multiset(Without(free, k)) + multiset{free[k]} == multiset(free)
  {
    assert free == free[..k] + [free[k]] + free[k + 1..];
  }

  /** A block that is freed joins the list, in front; from a full list a smallest one goes. */
  lemma FreeLockedHolds(free: seq<Block>, b: Block)
    ensures var r := FreeLocked(free, b);
            if b.size < HEADER then r == free
            else if |free| < MAX_BLOCKS then |r| == |free| + 1 && r[0] == b && r[1..] == free
            else && multiset(r) + multiset{Dropped(free, b)} == multiset(free) + multiset{b}
                 && forall c :: c in free || c == b ==> Dropped(free, b).size <= c.size
  {
    if b.size >= HEADER && |free| >= MAX_BLOCKS {
      WithoutCounts(free, Smallest(free));
    }
  }

  /** With two equal neighbours excluded, blocks that share no byte are apart. */
  lemma ApartFromOwned(b: Block, c: Block, owned: set<nat>)
    requires NotIn(c, owned) && c.size > 0 && b.size > 0 && forall a :: In(a, b) ==> a in owned
    ensures Apart(b, c)
  {
    if !Apart(b, c) {
      var a := if b.addr <= c.addr then c.addr else b.addr;
      assert In(a, b) && In(a, c);
    }
  }

  lemma ListShrinksOwned(free: seq<Block>, owned: set<nat>, less: set<nat>, mapped: set<nat>)
    requires ListInv(free, owned, mapped) && less <= owned
    ensures ListInv(free, less, mapped)
  {
  }

  lemma GiveUpInv(s: State, b: Block, unmap: bool, locked: bool)
    requires Inv(s) && Bytes(b) <= s.owned
    ensures Inv(GiveUp(s, b, unmap, locked))
  {
    var owned := s.owned - Bytes(b);
    assert forall a :: In(a, b) ==> a in Bytes(b);
    ListShrinksOwned(s.free, s.owned, owned, s.mapped);
    if unmap {
      forall c | c in s.free ensures InMapped(c, s.mapped - Bytes(b)) {
        forall a | In(a, c) ensures a in s.mapped && a !in Bytes(b) {
          assert a !in s.owned;
        }
      }
    } else if b.size >= HEADER {
      forall c | c in s.free ensures Apart(b, c) {
        ApartFromOwned(b, c, s.owned);
      }
      FreeLockedInv(s.free, owned, s.mapped, b);
    }
  }

  /** Freeing what a caller holds keeps the invariant. */
  lemma FreeInv(s: State, b: Block, page: nat, locked: bool, unmapped: bool)
    requires Inv(s) && page > 0 && Bytes(b) <= s.owned
    ensures Inv(Free(s, b, page, locked, unmapped))
  {
    GiveUpInv(s, b, Returnable(b, page) && unmapped, locked);
  }

  // ------------------------------------------------------------ rounding

  /** A page size: a multiple of 8 that fits the address space. */
  predicate PageSize(page: nat) { 0 < page <= WORD && page % 8 == 0 }

  lemma RoundUpExact(x: nat, unit: nat)
    requires unit > 0 && x + unit - 1 < WORD
    ensures x <= RoundUp(x, unit) < x + unit && RoundUp(x, unit) % unit == 0
  {
    var y := x + unit - 1;
    assert y - y % unit == y / unit * unit;
    MultipleOf(y / unit, unit);
  }

  lemma MultipleOf(q: int, unit: nat)
    requires unit > 0
    ensures q * unit % unit == 0
  {
    ModUnique(q * unit, unit, q, 0);
  }

  /** A size too large for its page count to be represented asks for no bytes at all. */
  lemma TooLargeAsksNothing(x: nat, page: nat)
    requires 0 < page <= WORD && x < WORD <= x + page - 1
    ensures RoundUp(x, page) == 0
  {
    var y := x + page - 1 - WORD;
    assert 0 <= y < page && (y + WORD) % WORD == y;
    Remainder(y, page);
  }

  lemma Remainder(y: nat, unit: nat)
    requires y < unit
    ensures y % unit == y
  {
  }

  /** A multiple of a page is a multiple of 8. */
  lemma PageMultiple(x: nat, page: nat)
    requires PageSize(page) && x % page == 0
    ensures x % 8 == 0
  {
    var a, b := x / page, page / 8;
    assert x == a * page == a * (b * 8) == a * b * 8;
    MultipleOf(a * b, 8);
  }

  /** Rounding to 8 stays within the pages asked for. */
  lemma NeedWithinAsk(size: nat, page: nat)
    requires PageSize(page) && size < WORD && RoundUp(size, page) > 0
    ensures size <= RoundUp(size, 8) <= RoundUp(size, page)
  {
    if size + page - 1 >= WORD {
      TooLargeAsksNothing(size, page);
    } else {
      assert page >= 8;
      RoundUpExact(size, page);
      RoundUpExact(size, 8);
      PageMultiple(RoundUp(size, page), page);
      NoMoreThan(RoundUp(size, 8), RoundUp(size, page));
    }
  }

  lemma NoMoreThan(a: nat, b: nat)
    requires a % 8 == 0 && b % 8 == 0 && a < b + 8
    ensures a <= b
  {
  }

  // ------------------------------------------------------------ allocation

  /** `got` was not held by anyone and now is, in addition to what was. */
  ghost predicate Given(s: State, t: State, got: Block, size: nat) {
    && size <= got.size && t.owned == s.owned + Bytes(got) && NotIn(got, s.owned) && InMapped(got, t.mapped)
  }

  lemma BytesSplit(b: Block, n: nat)
    requires n <= b.size
    ensures Bytes(b) == Bytes(Block(b.addr, n)) + Bytes(Block(b.addr + n, b.size - n))
  {
  }

  /** A block from the free list. */
  lemma ReuseInv(s: State, k: nat, need: nat, size: nat)
    requires Inv(s) && k < |s.free| && size <= s.free[k].size && size <= need
    ensures Inv(Reuse(s, k, need)) && Given(s, Reuse(s, k, need), Part(s.free[k], need), size)
  {
    var b, rest := s.free[k], Without(s.free, k);
    assert b in s.free;
    WithoutInv(s.free, s.owned, s.mapped, k);
    TakeInv(s, rest, b, Part(b, need));
    if need < b.size {
      TailInv(s, rest, b, need);
    }
  }

  lemma TailInv(s: State, rest: seq<Block>, b: Block, need: nat)
    requires Inv(s) && b in s.free && need < b.size && forall c :: c in rest ==> Apart(c, b)
    requires ListInv(rest, s.owned + Bytes(Block(b.addr, need)), s.mapped)
    ensures ListInv(FreeLocked(rest, Block(b.addr + need, b.size - need)), s.owned + Bytes(Block(b.addr, need)), s.mapped)
  {
    var tail, owned := Block(b.addr + need, b.size - need), s.owned + Bytes(Block(b.addr, need));
    forall a | In(a, tail) ensures a in s.mapped && a !in owned {
      assert In(a, b);
    }
    FreeLockedInv(rest, owned, s.mapped, tail);
  }

  /** A block inside the mapped part of the address space, which does not include 0. */
  lemma SizeBelowWord(s: State, b: Block)
    requires Inv(s) && b in s.free
    ensures 8 <= b.addr && b.addr + b.size <= WORD
  {
    assert In(b.addr, b) && In(b.addr + b.size - 1, b);
  }

  lemma TakeInv(s: State, rest: seq<Block>, b: Block, got: Block)
    requires Inv(s) && b in s.free && ListInv(rest, s.owned, s.mapped) && forall c :: c in rest ==> Apart(c, b)
    requires got.addr == b.addr && got.size <= b.size
    ensures ListInv(rest, s.owned + Bytes(got), s.mapped) && s.owned + Bytes(got) <= s.mapped
    ensures NotIn(got, s.owned) && InMapped(got, s.mapped)
  {
    forall a | In(a, got) ensures In(a, b) {
    }
    forall c | c in rest ensures NotIn(c, s.owned + Bytes(got)) {
      forall a | In(a, c) ensures a !in s.owned + Bytes(got) {
      }
    }
  }

  /** A range that has just been mapped. */
  ghost predicate FreshRange(s: State, all: Block) {
    8 <= all.addr && all.addr + all.size <= WORD && forall a :: a in s.mapped ==> !In(a, all)
  }

  lemma AnswerIsFresh(s: State, all: Block, page: nat)
    requires PageSize(page) && MapAnswer(s, all.size, page, Some(all.addr))
    ensures FreshRange(s, all)
  {
    if all.addr < page {
      Remainder(all.addr, page);
    }
  }

  lemma MapInv(s: State, all: Block)
    requires Inv(s) && FreshRange(s, all)
    ensures Inv(s.(mapped := s.mapped + Bytes(all), owned := s.owned + Bytes(all))) && NotIn(all, s.owned)
  {
    var owned, mapped := s.owned + Bytes(all), s.mapped + Bytes(all);
    forall b | b in s.free ensures NotIn(b, owned) && InMapped(b, mapped) {
      forall a | In(a, b) ensures a !in owned && a in mapped {
        assert a in s.mapped;
      }
    }
  }

  lemma FreshInv(s: State, all: Block, need: nat, unmap: bool, locked: bool)
    requires Inv(s) && FreshRange(s, all) && need <= all.size
    ensures Inv(Fresh(s, all, need, unmap, locked)) && NotIn(all, s.owned)
  {
    MapInv(s, all);
    if need < all.size {
      BytesSplit(all, need);
      GiveUpInv(s.(mapped := s.mapped + Bytes(all), owned := s.owned + Bytes(all)), Tail(all, need), unmap, locked);
    }
  }

  lemma FreshGiven(s: State, all: Block, need: nat, size: nat, unmap: bool, locked: bool)
    requires size <= need <= all.size && NotIn(all, s.owned)
    ensures Given(s, Fresh(s, all, need, unmap, locked), Block(all.addr, need), size)
  {
    var got, tail := Block(all.addr, need), Block(all.addr + need, all.size - need);
    BytesSplit(all, need);
    SplitOwned(s.owned, all, got, tail);
    forall a | In(a, got) ensures In(a, all) && a in Bytes(all) && a !in Bytes(tail) {
    }
  }

  lemma SplitOwned(owned: set<nat>, all: Block, got: Block, tail: Block)
    requires NotIn(all, owned) && Bytes(all) == Bytes(got) + Bytes(tail) && got.addr + got.size == tail.addr
    requires all == Block(got.addr, got.size + tail.size)
    ensures owned + Bytes(all) - Bytes(tail) == owned + Bytes(got) && (tail.size == 0 ==> Bytes(all) == Bytes(got))
  {
    forall a | a in owned ensures a !in Bytes(tail) {
      assert In(a, tail) ==> In(a, all);
    }
    assert tail.size == 0 ==> Bytes(tail) == {};
  }

  /** Every allocation keeps the invariant; the block it returns holds at least the requested
      size, belonged to nobody, and is all that its caller gets. It fails only if the
      system does. */
  lemma AllocInv(s: State, size: nat, page: nat, locked: bool, at: Option<nat>, lockedAgain: bool, unmapped: bool)
    requires Inv(s) && PageSize(page) && size < WORD && MapAnswer(s, RoundUp(size, page), page, at)
    ensures var r := Alloc(s, size, page, locked, at, lockedAgain, unmapped);
            Inv(r.1) && (if r.0.Some? then Given(s, r.1, r.0.value, size) else r.1 == s && at.None?)
  {
    var k := FirstFit(s.free, size);
    if locked && k < |s.free| {
      SizeBelowWord(s, s.free[k]);
      RoundUpExact(size, 8);
      ReuseInv(s, k, RoundUp(size, 8), size);
    } else if at.Some? {
      var all := Block(at.value, RoundUp(size, page));
      NeedWithinAsk(size, page);
      AnswerIsFresh(s, all, page);
      var unmap := TailReturned(all, RoundUp(size, 8), page, unmapped);
      FreshInv(s, all, RoundUp(size, 8), unmap, lockedAgain);
      FreshGiven(s, all, RoundUp(size, 8), size, unmap, lockedAgain);
    }
  }

  /** What is dropped from a full list is never larger than what is kept. */
  lemma KeepsLargest(free: seq<Block>, b: Block, lost: Block, kept: Block)
    requires b.size >= HEADER && |free| >= MAX_BLOCKS
    requires lost in [b] + free && lost !in FreeLocked(free, b) && kept in FreeLocked(free, b)
    ensures lost.size <= kept.size
  {
    var k := Smallest(free);
    var r := Without(free, k);
    forall c | c in free && c != free[k] ensures c in r {
      var i :| 0 <= i < |free| && free[i] == c;
      assert c == r[if i < k then i else i - 1];
    }
    forall c | c in r ensures c in free {
    }
  }

  // ------------------------------------------------------------ alignment

  ghost predicate Aligned(free: seq<Block>) { forall b :: b in free ==> b.addr % 8 == 0 }

  lemma FreeLockedAligned(free: seq<Block>, b: Block)
    requires Aligned(free) && b.addr % 8 == 0
    ensures Aligned(FreeLocked(free, b))
  {
  }

  lemma ReuseAligned(s: State, k: nat, need: nat)
    requires Aligned(s.free) && k < |s.free| && need % 8 == 0
    ensures Aligned(Reuse(s, k, need).free) && Part(s.free[k], need).addr % 8 == 0
  {
    var b, rest := s.free[k], Without(s.free, k);
    assert b in s.free;
    if need < b.size {
      FreeLockedAligned(rest, Block(b.addr + need, b.size - need));
    }
  }

  lemma FreshAligned(s: State, all: Block, need: nat, unmap: bool, locked: bool)
    requires Aligned(s.free) && all.addr % 8 == 0 && need % 8 == 0
    ensures Aligned(Fresh(s, all, need, unmap, locked).free)
  {
    if need < all.size {
      FreeLockedAligned(s.free, Tail(all, need));
    }
  }

  /** If callers free only at multiples of 8, every allocation is at a multiple of 8. */
  lemma AllocAligned(s: State, size: nat, page: nat, locked: bool, at: Option<nat>, lockedAgain: bool, unmapped: bool)
    requires Inv(s) && PageSize(page) && size < WORD && MapAnswer(s, RoundUp(size, page), page, at) && Aligned(s.free)
    ensures var r := Alloc(s, size, page, locked, at, lockedAgain, unmapped);
            Aligned(r.1.free) && (r.0.Some? ==> r.0.value.addr % 8 == 0)
  {
    var k := FirstFit(s.free, size);
    if locked && k < |s.free| {
      SizeBelowWord(s, s.free[k]);
      RoundUpExact(size, 8);
      ReuseAligned(s, k, RoundUp(size, 8));
    } else if at.Some? {
      PageMultiple(at.value, page);
      NeedAligned(size, page);
      var all := Block(at.value, RoundUp(size, page));
      FreshAligned(s, all, RoundUp(size, 8), TailReturned(all, RoundUp(size, 8), page, unmapped), lockedAgain);
    }
  }

  lemma NeedAligned(size: nat, page: nat)
    requires PageSize(page) && size < WORD && RoundUp(size, page) > 0
    ensures RoundUp(size, 8) % 8 == 0
  {
    if size + page - 1 >= WORD {
      TooLargeAsksNothing(size, page);
    }
    RoundUpExact(size, 8);
  }

  // ------------------------------------------------------------ runs

  /** One allocation: the block returned, the size asked for, and the bytes of it that have
      not been freed yet. */
  datatype Allocation = Allocation(block: Block, asked: nat, held: set<nat>)

  /** The allocator and all allocations so far. */
  datatype World = World(s: State, live: seq<Allocation>)

  /** A call together with the answers of the lock and of the system; a free is for bytes of
      one allocation. */
  datatype Op =
    | Allocate(size: nat, locked: bool, at: Option<nat>, lockedAgain: bool, unmapped: bool)
    | Release(from: nat, block: Block, locked: bool, unmapped: bool)

  /** Callers free only what they hold. */
  ghost predicate Allowed(w: World, op: Op, page: nat)
    requires page > 0
  {
    match op
    case Allocate(size, _, at, _, _) => size < WORD && MapAnswer(w.s, RoundUp(size, page), page, at)
    case Release(k, b, _, _) => k < |w.live| && Bytes(b) <= w.live[k].held
  }

  ghost function Step(w: World, op: Op, page: nat): World
    requires page > 0 && Allowed(w, op, page)
  {
    match op
    case Allocate(size, locked, at, lockedAgain, unmapped) =>
      var r := Alloc(w.s, size, page, locked, at, lockedAgain, unmapped);
      World(r.1, if r.0.Some? then w.live + [Allocation(r.0.value, size, Bytes(r.0.value))] else w.live)
    case Release(k, b, locked, unmapped) =>
      World(Free(w.s, b, page, locked, unmapped), w.live[k := w.live[k].(held := w.live[k].held - Bytes(b))])
  }

  ghost predicate Legal(w: World, ops: seq<Op>, page: nat)
    requires page > 0
    decreases |ops|
  {
    ops == [] || (Allowed(w, ops[0], page) && Legal(Step(w, ops[0], page), ops[1..], page))
  }

  ghost function Run(w: World, ops: seq<Op>, page: nat): World
    requires page > 0 && Legal(w, ops, page)
    decreases |ops|
  {
    if ops == [] then w else Run(Step(w, ops[0], page), ops[1..], page)
  }

  /** An allocation is at least as large as was asked for, and what is held of it is owned. */
  ghost predicate Sound(x: Allocation, owned: set<nat>) {
    x.asked <= x.block.size && x.held <= Bytes(x.block) && x.held <= owned
  }

  ghost predicate Disjoint(live: seq<Allocation>) {
    forall j, k :: 0 <= j < k < |live| ==> live[j].held !! live[k].held
  }

  /** Every owned byte is held through some allocation. */
  ghost predicate Accounted(live: seq<Allocation>, owned: set<nat>) {
    forall a :: a in owned ==> exists k :: 0 <= k < |live| && a in live[k].held
  }

  ghost predicate WorldInv(w: World) {
    && Inv(w.s) && Disjoint(w.live) && Accounted(w.live, w.s.owned)
    && forall k :: 0 <= k < |w.live| ==> Sound(w.live[k], w.s.owned)
  }

  lemma AllocateWorld(w: World, t: State, got: Block, size: nat)
    requires WorldInv(w) && Inv(t) && Given(w.s, t, got, size)
    ensures WorldInv(World(t, w.live + [Allocation(got, size, Bytes(got))]))
  {
    var live := w.live + [Allocation(got, size, Bytes(got))];
    forall k | 0 <= k < |w.live| ensures live[k].held !! Bytes(got) && Sound(live[k], t.owned) {
      assert Sound(w.live[k], w.s.owned);
      forall a | a in live[k].held ensures a !in Bytes(got) { assert a in w.s.owned; }
    }
    forall a | a in t.owned ensures exists k :: 0 <= k < |live| && a in live[k].held {
      if a in w.s.owned {
        var k :| 0 <= k < |w.live| && a in w.live[k].held;
        assert a in live[k].held;
      } else {
        assert a in live[|w.live|].held;
      }
    }
  }

  lemma ReleaseWorld(w: World, t: State, k: nat, b: Block)
    requires WorldInv(w) && Inv(t) && k < |w.live| && Bytes(b) <= w.live[k].held && t.owned == w.s.owned - Bytes(b)
    ensures WorldInv(World(t, w.live[k := w.live[k].(held := w.live[k].held - Bytes(b))]))
  {
    var live := w.live[k := w.live[k].(held := w.live[k].held - Bytes(b))];
    forall i | 0 <= i < |live| ensures Sound(live[i], t.owned) {
      assert Sound(w.live[i], w.s.owned);
      assert i != k ==> w.live[i].held !! w.live[k].held;
    }
    forall i, j | 0 <= i < j < |live| ensures live[i].held !! live[j].held {
      assert w.live[i].held !! w.live[j].held;
    }
    forall a | a in t.owned ensures exists i :: 0 <= i < |live| && a in live[i].held {
      var i :| 0 <= i < |w.live| && a in w.live[i].held;
      assert a in live[i].held;
    }
  }

  lemma StepInv(w: World, op: Op, page: nat)
    requires WorldInv(w) && PageSize(page) && Allowed(w, op, page)
    ensures WorldInv(Step(w, op, page))
  {
    match op
    case Allocate(size, locked, at, lockedAgain, unmapped) =>
      AllocInv(w.s, size, page, locked, at, lockedAgain, unmapped);
      var r := Alloc(w.s, size, page, locked, at, lockedAgain, unmapped);
      if r.0.Some? {
        AllocateWorld(w, r.1, r.0.value, size);
      }
    case Release(k, b, locked, unmapped) =>
      assert Sound(w.live[k], w.s.owned);
      FreeInv(w.s, b, page, locked, unmapped);
      ReleaseWorld(w, Free(w.s, b, page, locked, unmapped), k, b);
  }

  /** Callers free only at multiples of 8. */
  ghost predicate AlignedCalls(ops: seq<Op>) { forall op :: op in ops && op.Release? ==> op.block.addr % 8 == 0 }

  ghost predicate AlignedWorld(w: World) {
    Aligned(w.s.free) && forall k :: 0 <= k < |w.live| ==> w.live[k].block.addr % 8 == 0
  }

  lemma StepAligned(w: World, op: Op, page: nat)
    requires WorldInv(w) && PageSize(page) && Allowed(w, op, page) && AlignedWorld(w)
    requires op.Release? ==> op.block.addr % 8 == 0
    ensures AlignedWorld(Step(w, op, page))
  {
    match op
    case Allocate(size, locked, at, lockedAgain, unmapped) => AllocAligned(w.s, size, page, locked, at, lockedAgain, unmapped);
    case Release(k, b, locked, unmapped) =>
      FreeLockedAligned(w.s.free, b);
      assert forall i :: 0 <= i < |w.live| ==> Step(w, op, page).live[i].block == w.live[i].block;
  }

  /** What callers may rely on: allocations that are held do not overlap each other or the
      free list, and are mapped; free blocks are at most 16, apart from each other, and mapped. */
  ghost predicate Separate(w: World) {
    && Disjoint(w.live) && |w.s.free| <= MAX_BLOCKS
    && (forall k :: 0 <= k < |w.live| ==> w.live[k].asked <= w.live[k].block.size && w.live[k].held <= w.s.mapped)
    && (forall b, k :: b in w.s.free && 0 <= k < |w.live| ==> NotIn(b, w.live[k].held))
    && (forall b :: b in w.s.free ==> InMapped(b, w.s.mapped))
    && (forall i, j :: 0 <= i < j < |w.s.free| ==> Apart(w.s.free[i], w.s.free[j]))
  }

  lemma InvSeparate(w: World)
    requires WorldInv(w)
    ensures Separate(w)
  {
    forall k | 0 <= k < |w.live| ensures w.live[k].asked <= w.live[k].block.size && w.live[k].held <= w.s.owned {
      assert Sound(w.live[k], w.s.owned);
    }
  }

  /** After every sequence of allocations and frees: no two allocations overlap, none overlaps
      the free list, all lie in mapped memory, each was as large as asked for, and if callers
      free only at multiples of 8, each was at a multiple of 8. */
  lemma {:induction false} RunInv(w: World, ops: seq<Op>, page: nat)
    requires WorldInv(w) && PageSize(page) && Legal(w, ops, page)
    ensures WorldInv(Run(w, ops, page)) && Separate(Run(w, ops, page))
    ensures AlignedCalls(ops) && AlignedWorld(w) ==> AlignedWorld(Run(w, ops, page))
    decreases |ops|
  {
    if ops == [] {
      InvSeparate(w);
    } else {
      StepInv(w, ops[0], page);
      if AlignedWorld(w) && AlignedCalls(ops) {
        StepAligned(w, ops[0], page);
      }
      RunInv(Step(w, ops[0], page), ops[1..], page);
    }
  }

  // ------------------------------------------------------------ the code

  /** The allocator with its free list updated in place. */
  class Allocator {
    var free: seq<Block>
    ghost var owned: set<nat>
    ghost var mapped: set<nat>

    ghost function View(): State
      reads this
    {
      State(free, owned, mapped)
    }

    constructor ()
      ensures View() == State([], {}, {}) && Inv(View())
    {
      free, owned, mapped := [], {}, {};
    }

    /** The number of blocks on the list and the first of the smallest of them. */
    method CountFree() returns (c: nat, small: nat)
      ensures c == |free| && (c > 0 ==> small == Smallest(free))
    {
      c, small := 0, 0;
      while c < |free|
        invariant c <= |free| && (c > 0 ==> small == Smallest(free[..c]))
      {
        assert free[..c + 1][..c] == free[..c];
        if c == 0 || free[c].size < free[small].size {
          small := c;
        }
        c := c + 1;
      }
      assert free[..c] == free;
    }

    method PutFree(b: Block)
      requires |free| <= MAX_BLOCKS
      modifies `free
      ensures free == FreeLocked(old(free), b)
      ensures b.size >= HEADER && |old(free)| < MAX_BLOCKS ==> |free| == |old(free)| + 1 && free[0] == b && free[1..] == old(free)
      ensures b.size >= HEADER && |old(free)| == MAX_BLOCKS ==>
                multiset(free) + multiset{Dropped(old(free), b)} == multiset(old(free)) + multiset{b}
    {
      FreeLockedHolds(free, b);
      if b.size < HEADER {
        return;
      }
      var c, small := CountFree();
      if c >= MAX_BLOCKS {
        if b.size <= free[small].size {
          return;
        }
        free := Without(free, small);
      }
      free := [b] + free;
    }

    method Release(b: Block, page: nat, locked: bool, unmapped: bool)
      requires |free| <= MAX_BLOCKS && page > 0 && Bytes(b) <= owned
      modifies this
      ensures View() == Free(old(View()), b, page, locked, unmapped)
    {
      owned := owned - Bytes(b);
      if b.size >= 16 * 4096 && b.addr % page == 0 && b.size % page == 0 && unmapped {
        mapped := mapped - Bytes(b);
        return;
      }
      if locked {
        PutFree(b);
      }
    }

    method FindFit(size: nat) returns (k: nat)
      ensures k == FirstFit(free, size)
    {
      k := 0;
      while k < |free| && free[k].size < size
        invariant k <= |free| && forall i :: 0 <= i < k ==> free[i].size < size
      {
        k := k + 1;
      }
      ghost var q := FirstFit(free, size);
      assert q < |free| ==> free[q].size >= size;
    }

    method Take(k: nat, need: nat) returns (got: Block)
      requires k < |free| <= MAX_BLOCKS
      modifies this
      ensures got == Part(old(free)[k], need) && View() == Reuse(old(View()), k, need)
    {
      var b := free[k];
      got := Part(b, need);
      free := free[..k] + free[k + 1..];
      owned := owned + Bytes(got);
      if need < b.size {
        PutFree(Tail(b, need));
      }
    }

    /** `all` is what the system mapped. */
    method TakeFresh(all: Block, need: nat, page: nat, locked: bool, unmapped: bool)
      requires |free| <= MAX_BLOCKS && page > 0
      modifies this
      ensures View() == Fresh(old(View()), all, need, TailReturned(all, need, page, unmapped), locked)
    {
      mapped, owned := mapped + Bytes(all), owned + Bytes(all);
      if need < all.size {
        BytesSplit(all, need);
        Release(Tail(all, need), page, locked, unmapped);
      }
    }

    method Allocate(size: nat, page: nat, locked: bool, at: Option<nat>, lockedAgain: bool, unmapped: bool)
      returns (got: Option<Block>)
      requires |free| <= MAX_BLOCKS && PageSize(page) && size < WORD && MapAnswer(View(), RoundUp(size, page), page, at)
      modifies this
      ensures (got, View()) == Alloc(old(View()), size, page, locked, at, lockedAgain, unmapped)
    {
      var need := RoundUp(size, 8);
      if locked {
        var k := FindFit(size);
        if k < |free| {
          var b := Take(k, need);
          return Some(b);
        }
      }
      if at.None? {
        return None;
      }
      TakeFresh(Block(at.value, RoundUp(size, page)), need, page, lockedAgain, unmapped);
      return Some(Block(at.value, need));
    }
  }
}
