/** The random number generator of src/rand.c: Schrage's method for the Park-Miller
    generator. */
module Rand {

  const M: int := 0x7fff_ffff
  const A: int := 16807
  const Q: int := 127773
  const R: int := 2836

  type Seed = s: int | 1 <= s <= 0x7fff_fffe witness 2

  predicate Int32(x: int) { -0x8000_0000 <= x <= 0x7fff_ffff }

  /** The difference that the code computes before it corrects the sign. */
  function Difference(seed: Seed): int { A * (seed % Q) - R * (seed / Q) }

  /** It differs from the product by a multiple of the modulus, and nothing overflows. */
  lemma Schrage(seed: Seed)
    ensures A * seed == M * (seed / Q) + Difference(seed)
    ensures Int32(A * (seed % Q)) && Int32(R * (seed / Q)) && Int32(Difference(seed)) && -M < Difference(seed) < M
    ensures 0 <= seed / Q <= A
  {
    var hi, lo := seed / Q, seed % Q;
    assert seed == Q * hi + lo && M == A * Q + R;
  }

  const BEZOUT_R: int := 5790
  const BEZOUT_A: int := 977

  /** 16807 and 2836 have no common factor. */
  lemma NoCommonFactor(hi: int, lo: int)
    requires 0 <= hi <= A
    ensures A * lo == R * hi ==> (hi == 0 && lo == 0) || (hi == A && lo == R)
  {
    var k := BEZOUT_R * lo - BEZOUT_A * hi;
    assert A * lo == R * hi ==> hi == R * BEZOUT_R * hi - A * BEZOUT_A * hi == A * k;
  }

  lemma DifferenceNotZero(seed: Seed)
    ensures Difference(seed) != 0
  {
    Schrage(seed);
    NoCommonFactor(seed / Q, seed % Q);
  }

  lemma ModUnique(x: int, q: int, r: int)
    requires x == M * q + r && 0 <= r < M
    ensures x % M == r
  {
  }

  /** One step is multiplication by 16807 modulo 2^31 - 1, and stays in the range of seeds. */
  function Next(seed: Seed): (r: Seed)
    ensures r == A * seed % M
  {
    Schrage(seed);
    DifferenceNotZero(seed);
    var x := Difference(seed);
    var y := if x < 0 then x + M else x;
    ModUnique(A * seed, if x < 0 then seed / Q - 1 else seed / Q, y);
    y
  }

  function Iterate(seed: Seed, n: nat): Seed
    decreases n
  {
    if n == 0 then seed else Iterate(Next(seed), n - 1)
  }

  function Power(n: nat): nat { if n == 0 then 1 else A * Power(n - 1) }

  lemma ModTimes(a: int, x: int)
    ensures a * (x % M) % M == a * x % M
  {
    var q, r := x / M, x % M;
    var p, s := a * r / M, a * r % M;
    assert a * x == a * (M * q + r) == M * (a * q) + a * r == M * (a * q + p) + s;
    ModUnique(a * x, a * q + p, s);
  }

  lemma PowerStep(p: int, seed: Seed)
    ensures p * Next(seed) % M == A * p * seed % M
  {
    ModTimes(p, A * seed);
    assert p * (A * seed) == A * p * seed;
  }

  /** After any number of steps the seed is the initial one times that power of 16807,
      modulo 2^31 - 1, and never 0. */
  lemma {:induction false} RunIsPower(seed: Seed, n: nat)
    ensures Iterate(seed, n) == Power(n) * seed % M
    decreases n
  {
    if n == 0 {
      ModUnique(seed, 0, seed);
    } else {
      RunIsPower(Next(seed), n - 1);
      PowerStep(Power(n - 1), seed);
    }
  }

  class Generator {
    var seed: Seed

    constructor ()
      ensures seed == 2
    {
      seed := 2;
    }

    /** usfstl_rand. */
    method Draw() returns (x: int)
      modifies this
      ensures seed == A * old(seed) % M && x == seed - 1 && 0 <= x <= 0x7fff_fffd
    {
      Schrage(seed);
      ghost var n := Next(seed);
      var hi, lo := seed / Q, seed % Q;
      x := A * lo - R * hi;
      if x < 0 {
        x := x + M;
      }
      assert x == n;
      seed := x;
      x := x - 1;
    }
  }
}
