/** Clocks that run at an integer fraction of another clock: linked schedulers
    (src/sched.c) and clients that count in ticks (src/schedctrl.c). */
module LinkedClocks {
  import opened Wrappers
  import opened CyclicTime
  import opened Division

  // ------------------------------------------------------------ without overflow

  /** Division rounding up. */
  function CeilDiv(x: int, r: int): int
    requires r > 0
  {
    (x + r - 1) / r
  }

  /** A link to a parent clock: `ratio` parent ticks per tick. */
  datatype Link = Link(ratio: nat, offset: int)

  predicate Proper(l: Link) { l.ratio > 0 }

  function Child(l: Link, p: int): int
    requires Proper(l)
  {
    CeilDiv(p - l.offset, l.ratio)
  }

  function Parent(l: Link, t: int): int { l.ratio * t + l.offset }

  /** Rounding up is the lower half of a Galois connection. */
  lemma CeilGalois(x: int, r: int, t: int)
    requires r > 0
    ensures CeilDiv(x, r) <= t <==> x <= r * t
  {
    var q, m := (x + r - 1) / r, (x + r - 1) % r;
    assert x + r - 1 == r * q + m;
    assert (q - t) * r == r * q - r * t;
    Multiple(q - t, r);
  }

  lemma Galois(l: Link, p: int, t: int)
    requires Proper(l)
    ensures Child(l, p) <= t <==> p <= Parent(l, t)
  {
    CeilGalois(p - l.offset, l.ratio, t);
  }

  /** A child clock shows exactly the time for which its parent was asked, and never less
      than what the parent has reached; it does not run backwards. */
  lemma RoundTrips(l: Link, p: int, q: int, t: int)
    requires Proper(l)
    ensures Child(l, Parent(l, t)) == t
    ensures p <= Parent(l, Child(l, p)) < p + l.ratio
    ensures p <= q ==> Child(l, p) <= Child(l, q)
  {
    Galois(l, Parent(l, t), t);
    Galois(l, Parent(l, t), t - 1);
    assert Parent(l, t - 1) == Parent(l, t) - l.ratio;
    Galois(l, p, Child(l, p));
    Galois(l, p, Child(l, p) - 1);
    assert Parent(l, Child(l, p) - 1) == Parent(l, Child(l, p)) - l.ratio;
    Galois(l, q, Child(l, q));
    Galois(l, p, Child(l, q));
  }

  /** Two links in a row are one. */
  function Composed(outer: Link, inner: Link): Link { Link(outer.ratio * inner.ratio, outer.ratio * inner.offset + outer.offset) }

  lemma ComposedParent(outer: Link, inner: Link, t: int)
    ensures Parent(outer, Parent(inner, t)) == Parent(Composed(outer, inner), t)
  {
    assert outer.ratio * (inner.ratio * t + inner.offset) == outer.ratio * inner.ratio * t + outer.ratio * inner.offset;
  }

  lemma ComposedChild(outer: Link, inner: Link, p: int)
    requires Proper(outer) && Proper(inner)
    ensures Proper(Composed(outer, inner)) && Child(inner, Child(outer, p)) == Child(Composed(outer, inner), p)
  {
    var c := Composed(outer, inner);
    assert outer.ratio * inner.ratio > 0;
    SameBelow(outer, inner, p, Child(inner, Child(outer, p)));
    SameBelow(outer, inner, p, Child(c, p));
  }

  lemma SameBelow(outer: Link, inner: Link, p: int, t: int)
    requires Proper(outer) && Proper(inner) && Proper(Composed(outer, inner))
    ensures Child(inner, Child(outer, p)) <= t <==> Child(Composed(outer, inner), p) <= t
  {
    Galois(inner, Child(outer, p), t);
    Galois(outer, p, Parent(inner, t));
    ComposedParent(outer, inner, t);
    Galois(Composed(outer, inner), p, t);
  }

  /** A chain of links, the one next to the root first. */
  ghost predicate Chain(ls: seq<Link>) { forall i :: 0 <= i < |ls| ==> Proper(ls[i]) }

  function Down(ls: seq<Link>, p: int): int
    requires Chain(ls)
    decreases |ls|
  {
    if ls == [] then p else Down(ls[1..], Child(ls[0], p))
  }

  function Up(ls: seq<Link>, t: int): int
    decreases |ls|
  {
    if ls == [] then t else Parent(ls[0], Up(ls[1..], t))
  }

  function Whole(ls: seq<Link>): Link
    decreases |ls|
  {
    if ls == [] then Link(1, 0) else Composed(ls[0], Whole(ls[1..]))
  }

  /** Along every chain the connection holds, and the whole chain is a single link. */
  lemma {:induction false} ChainIsOneLink(ls: seq<Link>, p: int, t: int)
    requires Chain(ls)
    ensures Proper(Whole(ls)) && Down(ls, p) == Child(Whole(ls), p) && Up(ls, t) == Parent(Whole(ls), t)
    ensures Down(ls, p) <= t <==> p <= Up(ls, t)
    ensures Down(ls, Up(ls, t)) == t
    decreases |ls|
  {
    ChainCollapses(ls, p, t);
    ChainCollapses(ls, Up(ls, t), t);
    Galois(Whole(ls), p, t);
    RoundTrips(Whole(ls), p, p, t);
  }

  lemma {:induction false} ChainCollapses(ls: seq<Link>, p: int, t: int)
    requires Chain(ls)
    ensures Proper(Whole(ls)) && Down(ls, p) == Child(Whole(ls), p) && Up(ls, t) == Parent(Whole(ls), t)
    decreases |ls|
  {
    if ls != [] {
      var l, rest := ls[0], ls[1..];
      ChainCollapses(rest, Child(l, p), t);
      ComposedChild(l, Whole(rest), p);
      ComposedParent(l, Whole(rest), t);
    }
  }

  // ------------------------------------------------------------ with 64-bit words

  const MAX_RATIO: int := 0x1_0000_0000

  /** DIV_ROUND_UP on 64-bit words. */
  function DivRoundUp(x: Time, r: int): Time
    requires 0 < r < MAX_RATIO
  {
    Wrap(x + r - 1) / r
  }

  /** usfstl_sched_link_external_get_time, and the RUN message of a client. */
  function ChildTime(offset: Time, r: int, p: Time): Time
    requires 0 < r < MAX_RATIO
  {
    DivRoundUp(Wrap(p - offset), r)
  }

  /** usfstl_sched_link_external_request and ..._set_time. */
  function ParentTime(offset: Time, r: int, t: Time): Time { Wrap(r * t + offset) }

  /** The offset computed when linking. */
  function LinkOffset(p: Time, r: int, t: Time): Time { Wrap(p - t * r) }

  lemma WrapExact(x: int, k: int)
    requires 0 <= x - k * TWO64 < TWO64
    ensures Wrap(x) == x - k * TWO64
  {
  }

  lemma Multiply(r: int, a: int, b: int)
    requires r > 0 && a <= b
    ensures r * a <= r * b
  {
  }

  lemma QuotientBelow(x: int, r: int, k: int)
    requires r > 0
    ensures x / r < k <==> x < k * r
  {
    var q := x / r;
    assert x == r * q + x % r;
    if q < k {
      Multiply(r, q, k - 1);
    } else {
      Multiply(r, k, q);
    }
  }

  lemma QuotientBound(x: int, r: int, k: int)
    requires r > 0
    ensures x / r < k <==> x < k * r
    ensures x / r <= k <==> x < k * r + r
  {
    QuotientBelow(x, r, k);
    QuotientBelow(x, r, k + 1);
    assert (k + 1) * r == k * r + r;
  }

  /** The macro rounds up exactly as long as the sum does not overflow. */
  lemma DivRoundUpIff(x: Time, r: int)
    requires 0 < r < MAX_RATIO
    ensures DivRoundUp(x, r) == CeilDiv(x, r) <==> x + r - 1 < TWO64
  {
    if x + r - 1 >= TWO64 {
      WrapExact(x + r - 1, 1);
      QuotientBound(x + r - 1 - TWO64, r, 1);
      QuotientBound(x + r - 1, r, 1);
    }
  }

  /** Two ticks below the end of time the clock shows 0 instead of 2^63. */
  lemma DivRoundUpOverflows()
    ensures DivRoundUp(TWO64 - 1, 2) == 0 && CeilDiv(TWO64 - 1, 2) == TWO63
  {
  }

  /** The dividend of the macro for a distance of `x` modulo 2^64: in range, or too small. */
  lemma Dividend(x: nat, r: int)
    requires 0 < r < MAX_RATIO
    ensures var e := Wrap(Wrap(x) + r - 1); if x + r - 1 < TWO64 then e == x + r - 1 else e < x
  {
    var d := Wrap(x);
    if x >= TWO64 {
      assert d == x - x / TWO64 * TWO64 <= x - TWO64;
      assert Wrap(d + r - 1) <= d + r - 1;
    }
  }

  /** For a distance of `r * t` modulo 2^64, the clock shows `t` exactly if nothing overflows. */
  lemma ExactIff(t: Time, r: int)
    requires 0 < r < MAX_RATIO
    ensures DivRoundUp(Wrap(r * t), r) == t <==> r * t + r - 1 < TWO64
  {
    var x := r * t;
    assert x >= 0 && t * r == x;
    Dividend(x, r);
    QuotientBound(Wrap(Wrap(x) + r - 1), r, t);
  }

  /** Linking does not change the time a scheduler shows, exactly if nothing overflows. */
  lemma LinkKeepsTimeIff(p: Time, r: int, t: Time)
    requires 0 < r < MAX_RATIO
    ensures ChildTime(LinkOffset(p, r, t), r, p) == t <==> r * t + r - 1 < TWO64
  {
    Cancel(p, t * r);
    ExactIff(t, r);
    assert t * r == r * t;
  }

  /** A scheduler that asked its parent for the time of its job gets to run at exactly that
      time, exactly if nothing overflows; this is what set_time asserts. */
  lemma LinkedJobIff(offset: Time, r: int, t: Time)
    requires 0 < r < MAX_RATIO
    ensures ChildTime(offset, r, ParentTime(offset, r, t)) == t <==> r * t + r - 1 < TWO64
  {
    CancelSum(r * t, offset);
    ExactIff(t, r);
  }

  lemma Cancel(p: Time, x: int)
    ensures Wrap(p - Wrap(p - x)) == Wrap(x)
  {
  }

  lemma CancelSum(x: int, offset: Time)
    ensures Wrap(Wrap(x + offset) - offset) == Wrap(x)
  {
  }

  /** How far `p` lies after `q` on the 64-bit clock. */
  function Since(p: Time, q: Time): Time { Wrap(p - q) }

  /** Wherever the offset lies, the 64-bit clocks are the ideal clocks of the distance from it. */
  lemma IdealClocks(offset: Time, r: int, p: Time, t: Time)
    requires 0 < r < MAX_RATIO
    ensures Since(p, offset) + r - 1 < TWO64 ==> ChildTime(offset, r, p) == Child(Link(r, 0), Since(p, offset))
    ensures r * t < TWO64 ==> Since(ParentTime(offset, r, t), offset) == Parent(Link(r, 0), t)
  {
    var x := r * t;
    assert x >= 0 && Parent(Link(r, 0), t) == x;
    CancelSum(x, offset);
    SumFits(Since(p, offset), r);
  }

  lemma SumFits(d: Time, r: int)
    requires 0 < r < MAX_RATIO
    ensures d + r - 1 < TWO64 ==> DivRoundUp(d, r) == CeilDiv(d, r)
  {
  }

  // ------------------------------------------------------------ bounds of a client

  /** FREE_UNTIL: the bound in ticks, rounded down. */
  function FreeTicks(offset: Time, r: int, bound: Time): Time
    requires 0 < r < MAX_RATIO
  {
    Since(bound, offset) / r
  }

  /** A client that stays below its bound in ticks also stays below it in nanoseconds: the
      ticks it may run freely are exactly those that end by the bound. */
  lemma FreeStaysBelow(offset: Time, r: int, bound: Time, t: Time)
    requires 0 < r < MAX_RATIO
    ensures t < FreeTicks(offset, r, bound) <==> r * t + r <= Since(bound, offset)
    ensures t < FreeTicks(offset, r, bound) ==>
              Since(bound, ParentTime(offset, r, t)) == Since(bound, offset) - r * t >= r
  {
    TicksWithin(Since(bound, offset), r, t);
    if t < FreeTicks(offset, r, bound) {
      Remaining(offset, bound, r * t);
    }
  }

  lemma TicksWithin(d: int, r: int, t: nat)
    requires r > 0
    ensures t < d / r <==> r * t + r <= d
    ensures r * t >= 0
  {
    QuotientBound(d, r, t);
    assert t * r == r * t;
  }

  lemma Remaining(offset: Time, bound: Time, x: int)
    requires 0 <= x <= Since(bound, offset)
    ensures Since(bound, Wrap(x + offset)) == Since(bound, offset) - x
  {
  }

  /** RUN rounds up, so the client is never behind the controller, and less than a tick
      ahead; also where the division overflows, because the clock then wraps to 0. */
  lemma RunNotBehind(offset: Time, r: int, p: Time)
    requires 0 < r < MAX_RATIO
    ensures Since(ParentTime(offset, r, ChildTime(offset, r, p)), p) < r
  {
    var d := Since(p, offset);
    if d + r - 1 < TWO64 {
      var t := CeilDiv(d, r);
      SumFits(d, r);
      RoundTrips(Link(r, 0), d, d, t);
      NotBehind(offset, p, r * t, r);
    } else {
      OverflowIsZero(offset, r, p);
      NotBehind(offset, p, TWO64, r);
    }
  }

  lemma OverflowIsZero(offset: Time, r: int, p: Time)
    requires 0 < r < MAX_RATIO && Since(p, offset) + r - 1 >= TWO64
    ensures ChildTime(offset, r, p) == 0 && ParentTime(offset, r, 0) == Wrap(TWO64 + offset)
  {
    assert Wrap(Since(p, offset) + r - 1) == Since(p, offset) + r - 1 - TWO64 < r;
    QuotientBound(Since(p, offset) + r - 1 - TWO64, r, 0);
  }

  lemma NotBehind(offset: Time, p: Time, x: int, r: int)
    requires Since(p, offset) <= x < Since(p, offset) + r && 0 < r < MAX_RATIO
    ensures Since(Wrap(x + offset), p) < r
  {
  }

  // ------------------------------------------------------------ schedulers

  /** A scheduler that may be linked to a parent; the root's clock counts. */
  class Scheduler {
    var currentTime: Time
    /** Start of the first pending job. */
    var first: Option<Time>
    var parent: Scheduler?
    var ratio: int
    var offset: Time
    /** All schedulers above this one. */
    ghost var above: seq<Scheduler>

    ghost predicate Valid()
      reads this, above
      decreases |above|
    {
      && this !in above
      && (parent == null ==> above == [])
      && (parent != null ==>
            && above != [] && above[0] == parent && parent.above == above[1..]
            && 0 < ratio < MAX_RATIO && parent.Valid())
    }

    constructor (now: Time, first: Option<Time>)
      ensures Valid() && parent == null && currentTime == now && this.first == first && above == []
    {
      currentTime, this.first, parent, ratio, offset, above := now, first, null, 0, 0, [];
    }

    /** usfstl_sched_current_time. */
    ghost function Now(): Time
      requires Valid()
      reads this, above
      decreases |above|
    {
      if parent == null then currentTime else ChildTime(offset, ratio, parent.Now())
    }

    /** Nothing overflows when `t` is passed up to the root. */
    ghost predicate Fits(t: Time)
      requires Valid()
      reads this, above
      decreases |above|
    {
      parent != null ==> ratio * t + ratio - 1 < TWO64 && parent.Fits(ParentTime(offset, ratio, t))
    }

    method GetTime() returns (t: Time)
      requires Valid()
      ensures t == Now()
      decreases |above|
    {
      if parent == null {
        t := currentTime;
      } else {
        var p := parent.GetTime();
        t := ChildTime(offset, ratio, p);
      }
    }

    /** On the way up `t` passes no scheduler's first job, and at the root it is not in the past. */
    ghost predicate Passes(t: Time)
      requires Valid()
      reads this, above
      decreases |above|
    {
      if parent == null then Ge(t, currentTime)
      else
        var p := ParentTime(offset, ratio, t);
        (parent.first.Some? ==> Le(p, parent.first.value)) && parent.Passes(p)
    }

    /** _usfstl_sched_set_time; `fine` is false when one of the assertions on the way up fails,
        among them that the scheduler then shows the time it was set to. Only the root's clock
        changes. */
    method SetTime(t: Time) returns (fine: bool)
      requires Valid()
      modifies `currentTime, above`currentTime
      ensures fine <==> old(Passes(t) && Fits(t))
      ensures Valid() && (fine ==> Now() == t)
      ensures parent != null ==> currentTime == old(currentTime)
      ensures forall s :: s in above && s.parent != null ==> s.currentTime == old(s.currentTime)
      decreases |above|
    {
      if parent == null {
        fine := Ge(t, currentTime);
        currentTime := t;
      } else {
        assert parent == above[0] && (forall s :: s in parent.above ==> s in above) && above == [parent] + parent.above;
        LinkedJobIff(offset, ratio, t);
        var p := ParentTime(offset, ratio, t);
        if parent.first.Some? && !Le(p, parent.first.value) {
          return false;
        }
        fine := parent.SetTime(p);
        if fine {
          var shown := GetTime();
          fine := t == shown;
        }
      }
    }

    /** usfstl_sched_link: the scheduler shows the same time as before, exactly if its clock
        in parent ticks does not overflow. `request` is when the parent is asked to run the
        first job; at that time the scheduler shows the job's start, again unless it overflows. */
    method LinkTo(p: Scheduler, r: int) returns (request: Option<Time>)
      requires Valid() && parent == null && p.Valid() && p != this && this !in p.above && 0 < r < MAX_RATIO
      modifies this
      ensures Valid() && parent == p && ratio == r && above == [p] + p.above && currentTime == old(currentTime)
      ensures first == old(first) && (request.Some? <==> first.Some?)
      ensures Now() == old(Now()) <==> r * old(currentTime) + r - 1 < TWO64
      ensures first.Some? ==>
                && request == Some(ParentTime(offset, r, first.value))
                && (ChildTime(offset, r, request.value) == first.value <==> r * first.value + r - 1 < TWO64)
    {
      var now := p.GetTime();
      parent, ratio, offset, above := p, r, LinkOffset(now, r, currentTime), [p] + p.above;
      assert p.Valid();
      LinkKeepsTimeIff(now, r, currentTime);
      request := None;
      if first.Some? {
        LinkedJobIff(offset, r, first.value);
        request := Some(ParentTime(offset, r, first.value));
      }
    }

    /** usfstl_sched_unlink. */
    method Unlink()
      requires Valid() && parent != null
      modifies this
      ensures Valid() && parent == null && Now() == old(Now()) && first == old(first)
    {
      currentTime := GetTime();
      parent, ratio, offset, above := null, 0, 0, [];
    }
  }
}
