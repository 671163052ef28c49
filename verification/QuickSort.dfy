/** The in-place quicksort of the backtrace library (src/dwarf/sort.c): it recurses into the
    smaller part and loops on the larger one. */
module QuickSort {

  /** `gt(x, y)` is `compar(x, y) > 0`. */
  ghost predicate TotalPreorder<T(!new)>(gt: (T, T) -> bool) {
    && (forall x, y :: !gt(x, y) || !gt(y, x))
    && (forall x, y, z :: !gt(x, y) && !gt(y, z) ==> !gt(x, z))
  }

  ghost predicate SortedRange<T>(s: seq<T>, lo: nat, hi: nat, gt: (T, T) -> bool)
    requires lo <= hi <= |s|
  {
    forall i, j :: lo <= i < j < hi ==> !gt(s[i], s[j])
  }

  /** `t` is `s` with the elements from `lo` to `hi` rearranged. */
  ghost predicate Permuted<T>(s: seq<T>, t: seq<T>, lo: nat, hi: nat) {
    && |s| == |t| && lo <= hi <= |s|
    && s[..lo] == t[..lo] && s[hi..] == t[hi..]
    && multiset(s) == multiset(t)
  }

  lemma PermutedTransitive<T>(s: seq<T>, t: seq<T>, u: seq<T>, lo: nat, hi: nat)
    requires Permuted(s, t, lo, hi) && Permuted(t, u, lo, hi)
    ensures Permuted(s, u, lo, hi)
  {
  }

  lemma PermutedWider<T>(s: seq<T>, t: seq<T>, lo: nat, hi: nat, left: nat, right: nat)
    requires Permuted(s, t, lo, hi) && left <= lo && hi <= right <= |s|
    ensures Permuted(s, t, left, right)
  {
    assert s[..left] == s[..lo][..left] == t[..lo][..left] == t[..left];
    assert s[right..] == s[hi..][right - hi..] == t[hi..][right - hi..] == t[right..];
  }

  lemma PermutedOutside<T>(s: seq<T>, t: seq<T>, lo: nat, hi: nat, i: nat)
    requires Permuted(s, t, lo, hi) && i < |s| && (i < lo || hi <= i)
    ensures s[i] == t[i]
  {
    if i < lo {
      assert s[..lo][i] == t[..lo][i];
    } else {
      assert s[hi..][i - hi] == t[hi..][i - hi];
    }
  }

  lemma SameInside<T>(s: seq<T>, t: seq<T>, lo: nat, hi: nat)
    requires Permuted(s, t, lo, hi)
    ensures multiset(s[lo..hi]) == multiset(t[lo..hi])
  {
    assert s == s[..lo] + s[lo..hi] + s[hi..] && t == t[..lo] + t[lo..hi] + t[hi..];
    assert multiset(s) == multiset(s[..lo]) + multiset(s[lo..hi]) + multiset(s[hi..]);
    assert multiset(t) == multiset(t[..lo]) + multiset(t[lo..hi]) + multiset(t[hi..]);
    var x, y, c := multiset(s[lo..hi]), multiset(t[lo..hi]), multiset(s[..lo]) + multiset(s[hi..]);
    assert multiset(s) == x + c && multiset(t) == y + c;
    Cancel(x, y, c);
  }

  lemma Cancel<T>(a: multiset<T>, b: multiset<T>, c: multiset<T>)
    requires a + c == b + c
    ensures a == b
  {
    assert a == (a + c) - c == (b + c) - c == b;
  }

  /** An element of the rearranged part was there before. */
  lemma PermutedInside<T>(s: seq<T>, t: seq<T>, lo: nat, hi: nat, i: nat) returns (k: nat)
    requires Permuted(s, t, lo, hi) && lo <= i < hi
    ensures lo <= k < hi && s[k] == t[i]
  {
    SameInside(s, t, lo, hi);
    assert t[lo..hi][i - lo] in multiset(t[lo..hi]);
    assert t[i] in s[lo..hi];
    var j :| 0 <= j < hi - lo && s[lo..hi][j] == t[i];
    k := lo + j;
  }

  lemma SwapPermutes<T>(s: seq<T>, i: nat, j: nat, lo: nat, hi: nat)
    requires lo <= i <= j < hi <= |s|
    ensures Permuted(s, s[i := s[j]][j := s[i]], lo, hi)
  {
    var t := s[i := s[j]][j := s[i]];
    assert s[..lo] == t[..lo] && s[hi..] == t[hi..];
    assert multiset(s) == multiset(t);
  }

  // ------------------------------------------------------------ partition

  /** Everything before `mid` is smaller than the element there, nothing after it is. */
  ghost predicate Partitioned<T>(s: seq<T>, lo: nat, mid: nat, hi: nat, gt: (T, T) -> bool)
    requires lo <= mid < hi <= |s|
  {
    && (forall k :: lo <= k < mid ==> gt(s[mid], s[k]))
    && (forall k :: mid < k < hi ==> !gt(s[mid], s[k]))
  }

  method Swap<T>(a: array<T>, i: nat, j: nat)
    requires i < a.Length && j < a.Length
    modifies a
    ensures a[..] == old(a[..])[i := old(a[j])][j := old(a[i])]
  {
    a[i], a[j] := a[j], a[i];
  }

  method SwapUnlessSame<T>(a: array<T>, i: nat, j: nat)
    requires i < a.Length && j < a.Length
    modifies a
    ensures a[..] == old(a[..])[i := old(a[j])][j := old(a[i])]
  {
    if i != j {
      Swap(a, i, j);
    }
  }

  /** The pivot is at `lo`; up to `i` the smaller elements are those up to `mid`. */
  ghost predicate Split<T>(s: seq<T>, lo: nat, mid: nat, i: nat, gt: (T, T) -> bool)
    requires lo <= mid < i <= |s|
  {
    && (forall k :: lo < k <= mid ==> gt(s[lo], s[k]))
    && (forall k :: mid < k < i ==> !gt(s[lo], s[k]))
  }

  lemma SplitSwap<T>(s: seq<T>, lo: nat, mid: nat, i: nat, gt: (T, T) -> bool)
    requires lo <= mid < i < |s| && Split(s, lo, mid, i, gt) && gt(s[lo], s[i])
    ensures Split(s[mid + 1 := s[i]][i := s[mid + 1]], lo, mid + 1, i + 1, gt)
  {
  }

  lemma SplitDone<T>(s: seq<T>, lo: nat, mid: nat, hi: nat, gt: (T, T) -> bool)
    requires lo <= mid < hi <= |s| && Split(s, lo, mid, hi, gt)
    ensures Partitioned(s[lo := s[mid]][mid := s[lo]], lo, mid, hi, gt)
  {
  }

  lemma JoinsSmaller<T>(was: seq<T>, s: seq<T>, lo: nat, mid: nat, i: nat, hi: nat, gt: (T, T) -> bool)
    requires lo <= mid < i < hi <= |s| && Split(s, lo, mid, i, gt) && Permuted(was, s, lo, hi) && gt(s[lo], s[i])
    ensures var t := s[mid + 1 := s[i]][i := s[mid + 1]]; Split(t, lo, mid + 1, i + 1, gt) && Permuted(was, t, lo, hi)
  {
    SplitSwap(s, lo, mid, i, gt);
    SwapPermutes(s, mid + 1, i, lo, hi);
    PermutedTransitive(was, s, s[mid + 1 := s[i]][i := s[mid + 1]], lo, hi);
  }

  /** Element `i` joins the smaller ones if it is smaller than the pivot. */
  method Classify<T>(a: array<T>, lo: nat, mid: nat, i: nat, hi: nat, gt: (T, T) -> bool, ghost was: seq<T>) returns (next: nat)
    requires lo <= mid < i < hi <= a.Length && Split(a[..], lo, mid, i, gt) && Permuted(was, a[..], lo, hi)
    modifies a
    ensures mid <= next <= i && Split(a[..], lo, next, i + 1, gt) && Permuted(was, a[..], lo, hi)
  {
    next := mid;
    if gt(a[lo], a[i]) {
      JoinsSmaller(was, a[..], lo, mid, i, hi, gt);
      next := mid + 1;
      SwapUnlessSame(a, next, i);
    }
  }

  /** The pivot moves between the smaller elements and the others. */
  method PlacePivot<T>(a: array<T>, lo: nat, mid: nat, hi: nat, gt: (T, T) -> bool, ghost was: seq<T>)
    requires lo <= mid < hi <= a.Length && Split(a[..], lo, mid, hi, gt) && Permuted(was, a[..], lo, hi)
    modifies a
    ensures Partitioned(a[..], lo, mid, hi, gt) && Permuted(was, a[..], lo, hi)
  {
    SplitDone(a[..], lo, mid, hi, gt);
    SwapPermutes(a[..], lo, mid, lo, hi);
    PermutedTransitive(was, a[..], a[..][lo := a[mid]][mid := a[lo]], lo, hi);
    SwapUnlessSame(a, lo, mid);
  }

  method Partition<T>(a: array<T>, lo: nat, hi: nat, gt: (T, T) -> bool) returns (mid: nat)
    requires lo + 2 <= hi <= a.Length
    modifies a
    ensures lo <= mid < hi && Partitioned(a[..], lo, mid, hi, gt) && Permuted(old(a[..]), a[..], lo, hi)
  {
    ghost var was := a[..];
    SwapPermutes(was, lo, lo + (hi - lo) / 2, lo, hi);
    Swap(a, lo, lo + (hi - lo) / 2);
    mid := lo;
    var i := lo + 1;
    while i < hi
      invariant lo <= mid < i <= hi && Permuted(was, a[..], lo, hi) && Split(a[..], lo, mid, i, gt)
    {
      mid := Classify(a, lo, mid, i, hi, gt, was);
      i := i + 1;
    }
    PlacePivot(a, lo, mid, hi, gt, was);
  }

  // ------------------------------------------------------------ the loop

  /** From `left` to `right`, every pair that is not inside `lo` to `hi` is in order. */
  ghost predicate Settled<T>(s: seq<T>, left: nat, lo: nat, hi: nat, right: nat, gt: (T, T) -> bool)
    requires left <= lo <= hi <= right <= |s|
  {
    forall i, j :: left <= i < j < right && (i < lo || hi <= j) ==> !gt(s[i], s[j])
  }

  lemma SettledPermuted<T(!new)>(s: seq<T>, t: seq<T>, left: nat, lo: nat, hi: nat, right: nat, gt: (T, T) -> bool)
    requires left <= lo <= hi <= right <= |s| && Settled(s, left, lo, hi, right, gt) && Permuted(s, t, lo, hi)
    ensures Settled(t, left, lo, hi, right, gt)
  {
    forall i, j | left <= i < j < right && (i < lo || hi <= j) ensures !gt(t[i], t[j]) {
      var p := Origin(s, t, lo, hi, i);
      var q := Origin(s, t, lo, hi, j);
      assert p < q;
    }
  }

  lemma Origin<T>(s: seq<T>, t: seq<T>, lo: nat, hi: nat, i: nat) returns (k: nat)
    requires Permuted(s, t, lo, hi) && i < |t|
    ensures k < |s| && s[k] == t[i] && (if lo <= i < hi then lo <= k < hi else k == i)
  {
    if lo <= i < hi {
      k := PermutedInside(s, t, lo, hi, i);
    } else {
      PermutedOutside(s, t, lo, hi, i);
      k := i;
    }
  }

  lemma PartitionedPermuted<T>(s: seq<T>, t: seq<T>, lo: nat, mid: nat, hi: nat, left: nat, right: nat, gt: (T, T) -> bool)
    requires lo <= mid < hi <= |s| && Partitioned(s, lo, mid, hi, gt) && Permuted(s, t, left, right)
    requires (left == lo && right == mid) || (left == mid + 1 && right == hi)
    ensures Partitioned(t, lo, mid, hi, gt)
  {
    PermutedOutside(s, t, left, right, mid);
    forall k | lo <= k < hi && k != mid ensures if k < mid then gt(t[mid], t[k]) else !gt(t[mid], t[k]) {
      var p := Origin(s, t, left, right, k);
    }
  }

  /** The smaller part left of the pivot is done. */
  lemma SettleLeft<T(!new)>(s: seq<T>, left: nat, lo: nat, mid: nat, hi: nat, right: nat, gt: (T, T) -> bool)
    requires TotalPreorder(gt) && left <= lo <= mid < hi <= right <= |s|
    requires Settled(s, left, lo, hi, right, gt) && Partitioned(s, lo, mid, hi, gt) && SortedRange(s, lo, mid, gt)
    ensures Settled(s, left, mid + 1, hi, right, gt)
  {
    forall i, j | left <= i < j < right && (i < mid + 1 || hi <= j) ensures !gt(s[i], s[j]) {
      if lo <= i && j < hi {
        assert !gt(s[i], s[mid]) || i == mid;
        assert !gt(s[mid], s[j]) || j <= mid;
      }
    }
  }

  lemma SettleRight<T(!new)>(s: seq<T>, left: nat, lo: nat, mid: nat, hi: nat, right: nat, gt: (T, T) -> bool)
    requires TotalPreorder(gt) && left <= lo <= mid < hi <= right <= |s|
    requires Settled(s, left, lo, hi, right, gt) && Partitioned(s, lo, mid, hi, gt) && SortedRange(s, mid + 1, hi, gt)
    ensures Settled(s, left, lo, mid, right, gt)
  {
    forall i, j | left <= i < j < right && (i < lo || mid <= j) ensures !gt(s[i], s[j]) {
      if lo <= i && j < hi {
        assert !gt(s[i], s[mid]) || i >= mid;
        assert !gt(s[mid], s[j]) || j == mid;
      }
    }
  }

  function Pow2(n: nat): nat { if n == 0 then 1 else 2 * Pow2(n - 1) }

  function Max(a: int, b: int): int { if a < b then b else a }

  lemma DepthStep(depth: nat, d: nat, size: int)
    requires 2 * Pow2(d) <= size && Pow2(depth) <= Max(1, size)
    ensures Pow2(Max(depth, 1 + d)) <= Max(1, size)
  {
    assert Pow2(1 + d) == 2 * Pow2(d);
  }

  /** Sorts `a` from `left` to `right`. `depth` is how deep the recursion went below this call:
      at most the binary logarithm of the number of elements. */
  method Sort<T(!new)>(a: array<T>, left: int, right: int, gt: (T, T) -> bool) returns (ghost depth: nat)
    requires 0 <= left <= right <= a.Length && TotalPreorder(gt)
    modifies a
    ensures SortedRange(a[..], left, right, gt) && Permuted(old(a[..]), a[..], left, right)
    ensures Pow2(depth) <= Max(1, right - left)
    decreases right - left, 1
  {
    var lo, hi := left, right;
    depth := 0;
    while hi - lo >= 2
      invariant left <= lo <= hi <= right <= a.Length && Permuted(old(a[..]), a[..], left, right)
      invariant Settled(a[..], left, lo, hi, right, gt) && Pow2(depth) <= Max(1, right - left)
      decreases hi - lo
    {
      var mid := PartitionSettled(a, left, lo, hi, right, gt, old(a[..]));
      ghost var d;
      lo, hi, d := SortSmaller(a, left, lo, mid, hi, right, gt, old(a[..]));
      DepthStep(depth, d, right - left);
      depth := Max(depth, 1 + d);
    }
  }

  /** Recursion into the smaller part; the loop goes on with the other one. */
  method SortSmaller<T(!new)>(
      a: array<T>, left: int, lo: int, mid: int, hi: int, right: int, gt: (T, T) -> bool, ghost was: seq<T>)
    returns (lo': int, hi': int, ghost d: nat)
    requires 0 <= left <= lo <= mid < hi <= right <= a.Length && 2 <= hi - lo && TotalPreorder(gt)
    requires Settled(a[..], left, lo, hi, right, gt) && Partitioned(a[..], lo, mid, hi, gt) && Permuted(was, a[..], left, right)
    modifies a
    ensures left <= lo' <= hi' <= right && hi' - lo' < hi - lo && 2 * Pow2(d) <= right - left
    ensures Settled(a[..], left, lo', hi', right, gt) && Permuted(was, a[..], left, right)
    decreases hi - lo, 0
  {
    ghost var s := a[..];
    if 2 * (mid - lo) < hi - lo {
      d := Sort(a, lo, mid, gt);
      LeftDone(was, s, a[..], left, lo, mid, hi, right, gt);
      lo', hi' := mid + 1, hi;
    } else {
      d := Sort(a, mid + 1, hi, gt);
      RightDone(was, s, a[..], left, lo, mid, hi, right, gt);
      lo', hi' := lo, mid;
    }
  }

  method PartitionSettled<T(!new)>(a: array<T>, left: nat, lo: nat, hi: nat, right: nat, gt: (T, T) -> bool, ghost was: seq<T>)
    returns (mid: nat)
    requires left <= lo && lo + 2 <= hi <= right <= a.Length
    requires Settled(a[..], left, lo, hi, right, gt) && Permuted(was, a[..], left, right)
    modifies a
    ensures lo <= mid < hi && Partitioned(a[..], lo, mid, hi, gt)
    ensures Settled(a[..], left, lo, hi, right, gt) && Permuted(was, a[..], left, right)
  {
    ghost var s := a[..];
    mid := Partition(a, lo, hi, gt);
    SettledPermuted(s, a[..], left, lo, hi, right, gt);
    PermutedWider(s, a[..], lo, hi, left, right);
    PermutedTransitive(was, s, a[..], left, right);
  }

  lemma LeftDone<T(!new)>(
      was: seq<T>, s: seq<T>, t: seq<T>, left: nat, lo: nat, mid: nat, hi: nat, right: nat, gt: (T, T) -> bool)
    requires TotalPreorder(gt) && left <= lo <= mid < hi <= right <= |s| && Permuted(was, s, left, right)
    requires Settled(s, left, lo, hi, right, gt) && Partitioned(s, lo, mid, hi, gt)
    requires Permuted(s, t, lo, mid) && SortedRange(t, lo, mid, gt)
    ensures Settled(t, left, mid + 1, hi, right, gt) && Permuted(was, t, left, right)
  {
    PartitionedPermuted(s, t, lo, mid, hi, lo, mid, gt);
    PermutedWider(s, t, lo, mid, lo, hi);
    SettledPermuted(s, t, left, lo, hi, right, gt);
    SettleLeft(t, left, lo, mid, hi, right, gt);
    PermutedWider(s, t, lo, mid, left, right);
    PermutedTransitive(was, s, t, left, right);
  }

  lemma RightDone<T(!new)>(
      was: seq<T>, s: seq<T>, t: seq<T>, left: nat, lo: nat, mid: nat, hi: nat, right: nat, gt: (T, T) -> bool)
    requires TotalPreorder(gt) && left <= lo <= mid < hi <= right <= |s| && Permuted(was, s, left, right)
    requires Settled(s, left, lo, hi, right, gt) && Partitioned(s, lo, mid, hi, gt)
    requires Permuted(s, t, mid + 1, hi) && SortedRange(t, mid + 1, hi, gt)
    ensures Settled(t, left, lo, mid, right, gt) && Permuted(was, t, left, right)
  {
    PartitionedPermuted(s, t, lo, mid, hi, mid + 1, hi, gt);
    PermutedWider(s, t, mid + 1, hi, lo, hi);
    SettledPermuted(s, t, left, lo, hi, right, gt);
    SettleRight(t, left, lo, mid, hi, right, gt);
    PermutedWider(s, t, mid + 1, hi, left, right);
    PermutedTransitive(was, s, t, left, right);
  }
}
