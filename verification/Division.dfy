/** Division with remainder by a positive number. */
module Division {

  /** A multiple other than 0 is at least one unit away from 0. */
  lemma Multiple(d: int, unit: nat)
    ensures (d >= 1 ==> d * unit >= unit) && (d <= -1 ==> d * unit <= 0 - unit)
  {
  }

  lemma ModUnique(k: int, unit: nat, q: int, r: int)
    requires unit > 0 && k == q * unit + r && 0 <= r < unit
    ensures k % unit == r
  {
    assert (q - k / unit) * unit == k % unit - r;
    Multiple(q - k / unit, unit);
  }
}
