/** Finding the address range of a program counter (src/dwarf/dwarf.c): binary search in a
    sorted table, then a walk forward and a walk backward. */
module PcLookup {
  import opened Wrappers

  /** The address -1, which ends the table. */
  const SENTINEL: nat := 0xFFFF_FFFF_FFFF_FFFF

  /** Addresses from `low` up to, not including, `high`. */
  datatype Range = Range(low: nat, high: nat)

  ghost predicate Addresses(t: seq<Range>) { forall i :: 0 <= i < |t| ==> t[i].low <= SENTINEL && t[i].high <= SENTINEL }

  /** unit_addrs_compare: ascending by start and, for equal starts, the smallest range last. */
  ghost predicate Sorted(t: seq<Range>) {
    forall i, j :: 0 <= i < j < |t| ==> t[i].low < t[j].low || (t[i].low == t[j].low && t[i].high >= t[j].high)
  }

  predicate Contains(r: Range, pc: nat) { r.low <= pc < r.high }

  /** Start of the entry after `i`. */
  function NextLow(t: seq<Range>, i: nat): nat
    requires i < |t|
  {
    if i + 1 < |t| then t[i + 1].low else SENTINEL
  }

  /** unit_addrs_search returns 0. */
  predicate Matches(t: seq<Range>, i: nat, pc: nat)
    requires i < |t|
  {
    t[i].low <= pc <= NextLow(t, i)
  }

  /** `i` starts last among the ranges that start at or before `pc`. */
  ghost predicate Latest(t: seq<Range>, i: int, pc: nat) {
    0 <= i < |t| && t[i].low <= pc && forall k :: 0 <= k < |t| && t[k].low <= pc ==> t[k].low <= t[i].low
  }

  /** bsearch with that comparison finds some matching entry, if there is one. */
  method BinarySearch(t: seq<Range>, pc: nat) returns (r: Option<nat>)
    requires Sorted(t) && Addresses(t)
    ensures r.Some? ==> r.value < |t| && Matches(t, r.value, pc)
    ensures r.None? ==> forall i :: 0 <= i < |t| ==> !Matches(t, i, pc)
  {
    var lo, hi := 0, |t|;
    while lo < hi
      invariant lo <= hi <= |t|
      invariant forall i :: 0 <= i < lo ==> pc > NextLow(t, i)
      invariant forall i :: hi <= i < |t| ==> pc < t[i].low
    {
      var mid := (lo + hi) / 2;
      if pc < t[mid].low {
        hi := mid;
      } else if pc > NextLow(t, mid) {
        forall i | 0 <= i <= mid ensures pc > NextLow(t, i) {
          assert i < mid ==> NextLow(t, i) <= t[mid].low;
        }
        lo := mid + 1;
      } else {
        return Some(mid);
      }
    }
    return None;
  }

  /** The walk forward, then backward, over the table. Whatever matching entry the search
      found, the result is the entry with the smallest end above `pc` among those that start
      last at or before `pc`; among equal ones the last. */
  method Lookup(t: seq<Range>, pc: nat) returns (r: Option<nat>)
    requires Sorted(t) && Addresses(t) && pc <= SENTINEL
    ensures pc == SENTINEL ==> r.None?
    ensures r.Some? ==>
              && Latest(t, r.value, pc) && Contains(t[r.value], pc)
              && (forall k :: Latest(t, k, pc) && Contains(t[k], pc) ==>
                    t[r.value].high < t[k].high || (t[r.value].high == t[k].high && k <= r.value))
    ensures r.None? && pc < SENTINEL ==> forall k :: Latest(t, k, pc) ==> !Contains(t[k], pc)
  {
    if |t| == 0 || pc == SENTINEL {
      return None;
    }
    var found := BinarySearch(t, pc);
    if found.None? {
      NothingStarts(t, pc);
      return None;
    }
    var entry := found.value;
    while pc == NextLow(t, entry)
      invariant entry < |t| && Matches(t, entry, pc)
      decreases |t| - entry
    {
      entry := entry + 1;
    }
    ghost var last := entry;
    assert Latest(t, last, pc);
    while true
      invariant 0 <= entry <= last < |t| && t[entry].low == t[last].low
      invariant forall k :: entry < k <= last ==> !Contains(t[k], pc)
      decreases entry
    {
      if pc < t[entry].high {
        forall k | Latest(t, k, pc) && Contains(t[k], pc)
          ensures t[entry].high < t[k].high || (t[entry].high == t[k].high && k <= entry)
        {
          SameGroup(t, last, k, pc);
        }
        return Some(entry);
      }
      if entry == 0 || t[entry - 1].low < t[entry].low {
        break;
      }
      entry := entry - 1;
    }
    forall k | Latest(t, k, pc) ensures !Contains(t[k], pc) {
      SameGroup(t, last, k, pc);
    }
    return None;
  }

  lemma SameGroup(t: seq<Range>, last: int, k: int, pc: nat)
    requires Sorted(t) && Latest(t, last, pc) && pc < NextLow(t, last) && Latest(t, k, pc)
    ensures k <= last && t[k].low == t[last].low
  {
    forall j | last < j < |t| ensures t[j].low > pc {
    }
  }

  /** Some entry matches unless every range starts after `pc`. */
  lemma NothingStarts(t: seq<Range>, pc: nat)
    requires Sorted(t) && Addresses(t) && pc < SENTINEL && forall i :: 0 <= i < |t| ==> !Matches(t, i, pc)
    ensures forall i :: 0 <= i < |t| ==> pc < t[i].low
  {
    var i := |t|;
    while i > 0
      invariant 0 <= i <= |t| && forall k :: i <= k < |t| ==> pc < t[k].low
    {
      i := i - 1;
      assert !Matches(t, i, pc);
    }
  }

  // ------------------------------------------------------------ what is found

  ghost predicate Found(t: seq<Range>, pc: nat) { exists i :: Latest(t, i, pc) && Contains(t[i], pc) }

  ghost predicate Covered(t: seq<Range>, pc: nat) { exists i :: 0 <= i < |t| && Contains(t[i], pc) }

  /** A later range never starts inside an earlier one. */
  ghost predicate NoOverlap(t: seq<Range>) {
    forall i, j :: 0 <= i < |t| && 0 <= j < |t| && t[i].low < t[j].low ==> t[i].high <= t[j].low
  }

  /** On ranges that do not overlap the lookup is a linear scan. */
  lemma DisjointIsScan(t: seq<Range>, pc: nat)
    requires Sorted(t) && NoOverlap(t)
    ensures Found(t, pc) <==> Covered(t, pc)
    ensures forall i :: 0 <= i < |t| && Contains(t[i], pc) ==> Latest(t, i, pc)
  {
    forall i | 0 <= i < |t| && Contains(t[i], pc) ensures Latest(t, i, pc) {
      forall k | 0 <= k < |t| && t[k].low <= pc ensures t[k].low <= t[i].low {
      }
    }
  }

  /** A range that starts inside `r` reaches as far as `r`, or to the next start. */
  ghost predicate Reaches(t: seq<Range>, r: Range, k: nat)
    requires k < |t|
  {
    exists m :: 0 <= m < |t| && t[m].low == t[k].low &&
      (t[m].high >= r.high || (exists n :: 0 <= n < |t| && t[k].low < t[n].low <= t[m].high))
  }

  ghost predicate Tight(t: seq<Range>) {
    forall i, k :: 0 <= i < |t| && 0 <= k < |t| && t[i].low < t[k].low < t[i].high ==> Reaches(t, t[i], k)
  }

  /** The lookup finds a range for every covered address exactly if, wherever a range starts
      inside another, some range from there reaches to the end of the other or to the next
      start. */
  lemma EveryAddressFoundIff(t: seq<Range>)
    requires Sorted(t) && Addresses(t)
    ensures (forall pc: nat :: Covered(t, pc) ==> Found(t, pc)) <==> Tight(t)
  {
    if Tight(t) {
      forall pc: nat | Covered(t, pc) ensures Found(t, pc) {
        TightFinds(t, pc);
      }
    } else {
      var i, k :| 0 <= i < |t| && 0 <= k < |t| && t[i].low < t[k].low < t[i].high && !Reaches(t, t[i], k);
      var pc := Missed(t, i, k);
    }
  }

  lemma LatestStart(t: seq<Range>, pc: nat) returns (k: nat)
    requires Sorted(t) && exists i :: 0 <= i < |t| && t[i].low <= pc
    ensures Latest(t, k, pc)
  {
    k := |t| - 1;
    while t[k].low > pc
      invariant 0 <= k < |t| && forall j :: k < j < |t| ==> t[j].low > pc
      decreases k
    {
      k := k - 1;
    }
    forall j | 0 <= j < |t| && t[j].low <= pc ensures t[j].low <= t[k].low {
    }
  }

  lemma TightFinds(t: seq<Range>, pc: nat)
    requires Sorted(t) && Tight(t) && Covered(t, pc)
    ensures Found(t, pc)
  {
    var i :| 0 <= i < |t| && Contains(t[i], pc);
    var k := LatestStart(t, pc);
    if t[k].low == t[i].low {
      assert Latest(t, i, pc);
    } else {
      assert t[i].low < t[k].low < t[i].high;
      var m :| 0 <= m < |t| && t[m].low == t[k].low &&
        (t[m].high >= t[i].high || (exists n :: 0 <= n < |t| && t[k].low < t[n].low <= t[m].high));
      assert Latest(t, m, pc) && Contains(t[m], pc);
    }
  }

  /** An address that a range covers and the lookup misses. */
  lemma Missed(t: seq<Range>, i: nat, k: nat) returns (pc: nat)
    requires Sorted(t) && i < |t| && k < |t| && t[i].low < t[k].low < t[i].high && !Reaches(t, t[i], k)
    ensures Covered(t, pc) && !Found(t, pc)
  {
    var first := k;
    while first > 0 && t[first - 1].low == t[k].low
      invariant 0 <= first <= k && t[first].low == t[k].low
    {
      first := first - 1;
    }
    var low, high := t[k].low, t[first].high;
    assert !(high >= t[i].high) && forall n :: 0 <= n < |t| && low < t[n].low ==> t[n].low > high;
    pc := if high > low then high else low;
    assert Contains(t[i], pc);
    forall m | Latest(t, m, pc) ensures !Contains(t[m], pc) {
      assert t[k].low <= t[m].low;
      assert t[m].low == low;
      assert m >= first;
    }
  }

  /** An address of the outer range after the end of an inner one is missed. */
  lemma OuterRangeMissed()
    ensures var t := [Range(0, 100), Range(10, 20)]; Sorted(t) && Addresses(t) && Covered(t, 50) && !Found(t, 50)
  {
    var t := [Range(0, 100), Range(10, 20)];
    assert Contains(t[0], 50);
    forall m | Latest(t, m, 50) ensures !Contains(t[m], 50) {
      assert t[1].low <= t[m].low;
    }
  }
}
