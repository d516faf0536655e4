// Products of reals behind a name, with the few laws the byte arithmetic needs.
module RealLaws {
  function Times(x: real, y: real): real {
    x * y
  }

  lemma Commutes(x: real, y: real)
    ensures Times(x, y) == Times(y, x)
  {
  }

  lemma Associates(x: real, y: real, z: real)
    ensures Times(Times(x, y), z) == Times(x, Times(y, z))
  {
  }

  lemma Distributes(x: real, y: real, z: real)
    ensures Times(x + y, z) == Times(x, z) + Times(y, z)
    ensures Times(x - y, z) == Times(x, z) - Times(y, z)
  {
  }

  lemma Monotone(x: real, y: real, z: real)
    requires x <= y && 0.0 <= z
    ensures Times(x, z) <= Times(y, z)
  {
    assert (y - x) * z >= 0.0;
  }

  lemma Positive(x: real, y: real)
    requires x > 0.0 && y > 0.0
    ensures Times(x, y) > 0.0
  {
  }

  lemma Fraction(d: real, e: real)
    requires 0.0 <= d < 1.0 && e > 0.0
    ensures 0.0 <= Times(d, e) < e
  {
    assert (1.0 - d) * e > 0.0;
  }

  lemma Naturals(m: nat, n: nat)
    ensures (m * n) as real == Times(m as real, n as real)
  {
  }

  lemma Units(x: real)
    ensures Times(x, 1.0) == x && Times(1.0, x) == x && Times(x, 0.0) == 0.0 && Times(0.0, x) == 0.0
  {
  }

  // The integer part of y, and of y * b, taken at the same multiple of b.
  lemma Bracket(t: nat, y: real, k: nat, b: nat, kb: int)
    requires b > 0 && k as real <= y < k as real + 1.0 && kb == k * b
    requires t as real <= Times(y, b as real) < t as real + 1.0
    ensures kb <= t < kb + b
  {
    hide Times;
    Naturals(k, b);
    Distributes(y, k as real, b as real);
    Fraction(y - k as real, b as real);
    Between(t, Times(y, b as real), kb, b);
  }

  lemma Between(t: int, x: real, low: int, b: int)
    requires t as real <= x < t as real + 1.0 && low as real <= x < low as real + b as real
    ensures low <= t < low + b
  {
    assert low as real + b as real == (low + b) as real;
  }
}
