/** 64-bit time with the wrap-around comparison of include/usfstl/sched.h. */
module CyclicTime {

  const TWO62: int := 0x4000_0000_0000_0000
  const TWO63: int := 0x8000_0000_0000_0000
  const TWO64: int := 0x1_0000_0000_0000_0000

  /** A `uint64_t` time stamp. */
  type Time = t: int | 0 <= t < 0x1_0000_0000_0000_0000

  /** The value a `uint64_t` holds after unbounded arithmetic. */
  function Wrap(x: int): (t: Time)
    ensures 0 <= x < TWO64 ==> t == x
  {
    x % TWO64
  }

  /** The cast `(int64_t)x` of a 64-bit value. */
  function Signed(x: int): (r: int)
    ensures -TWO63 <= r < TWO63
  {
    var w := x % TWO64;
    if w < TWO63 then w else w - TWO64
  }

  // usfstl_time_cmp(a, op, b) is (0 op (int64_t)(b - a)).
  predicate Lt(a: Time, b: Time) { 0 < Signed(b - a) }
  predicate Le(a: Time, b: Time) { 0 <= Signed(b - a) }
  predicate Gt(a: Time, b: Time) { 0 > Signed(b - a) }
  predicate Ge(a: Time, b: Time) { 0 >= Signed(b - a) }

  /** How far `t` lies ahead of `now` (negative when behind). */
  function Dist(now: Time, t: Time): int { Signed(t - now) }

  /** `later` when it is ahead of `t`, otherwise `t`. */
  function Later(t: Time, now: Time): Time { if Lt(t, now) then now else t }

  /** Seen from a base at or before both times, cyclic order is the order of distances. */
  lemma WindowOrder(now: Time, a: Time, b: Time)
    requires Le(now, a) && Le(now, b)
    ensures Lt(a, b) <==> Dist(now, a) < Dist(now, b)
    ensures Le(a, b) <==> Dist(now, a) <= Dist(now, b)
    ensures Gt(a, b) <==> Dist(now, a) > Dist(now, b)
    ensures Ge(a, b) <==> Dist(now, a) >= Dist(now, b)
    ensures a == b <==> Dist(now, a) == Dist(now, b)
    ensures Signed(b - a) == Dist(now, b) - Dist(now, a)
  {
  }

  /** Moving the base forward, not past `t`, shortens the distance by the step. */
  lemma Advance(now: Time, next: Time, t: Time)
    requires Le(now, next) && Le(now, t) && Le(next, t)
    ensures Dist(next, t) == Dist(now, t) - Dist(now, next)
    ensures 0 <= Dist(next, t) <= Dist(now, t)
  {
  }

  /** The order is a strict total order on any window narrower than 2^63. */
  lemma StrictTotalOrderOnWindow(base: Time, a: Time, b: Time, c: Time)
    requires Le(base, a) && Le(base, b) && Le(base, c)
    ensures !Lt(a, a)
    ensures Lt(a, b) && Lt(b, c) ==> Lt(a, c)
    ensures Le(a, b) && Le(b, c) ==> Le(a, c)
    ensures Lt(a, b) || a == b || Lt(b, a)
    ensures !(Lt(a, b) && Lt(b, a))
    ensures Lt(a, b) <==> Gt(b, a)
    ensures Le(a, b) <==> !Lt(b, a)
  {
    WindowOrder(base, a, b);
    WindowOrder(base, b, c);
    WindowOrder(base, a, c);
    WindowOrder(base, b, a);
  }

  /** Without a window, two times are comparable exactly when they are not 2^63 apart. */
  lemma ComparableUnlessAntipodal(a: Time, b: Time)
    ensures (Lt(a, b) || a == b || Lt(b, a)) <==> Signed(b - a) != -TWO63
    ensures Signed(b - a) == -TWO63 <==> Gt(a, b) && Gt(b, a)
  {
  }

  /** Below 2^63 the cyclic order is the plain one. */
  lemma PlainBelowHalf(a: Time, b: Time)
    requires a < TWO63 && b < TWO63
    ensures Lt(a, b) <==> a < b
    ensures Le(a, b) <==> a <= b
    ensures Gt(a, b) <==> a > b
    ensures Ge(a, b) <==> a >= b
  {
  }

  /** `a >= b` puts `a` ahead of `b`, except when the two are exactly 2^63 apart. */
  lemma AheadUnlessAntipodal(a: Time, b: Time)
    requires Ge(a, b)
    ensures Le(b, a) <==> a != Wrap(b + TWO63)
  {
  }
}
