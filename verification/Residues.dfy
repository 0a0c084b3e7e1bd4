/** Division with remainder by an unknown positive number, where the solver needs help. */
module Residues {

  lemma Multiples(base: int, k: int)
    requires base > 0
    ensures k >= 1 ==> base * k >= base
    ensures k <= -1 ==> base * k <= -base
  {
  }

  /** A quotient and a remainder in range are the quotient and the remainder. */
  lemma Division(base: int, x: int, q: int, r: int)
    requires base > 0 && 0 <= r < base && x == base * q + r
    ensures x / base == q && x % base == r
  {
    var p, m := x / base, x % base;
    assert x == base * p + m;
    assert base * (p - q) == r - m;
    Multiples(base, p - q);
  }

  /** Numbers less than `base` apart with the same residue are equal. */
  lemma SameResidue(base: int, x: int, y: int)
    requires base > 0 && x % base == y % base && x - y < base && y - x < base
    ensures x == y
  {
    var p, q := x / base, y / base;
    assert x == base * p + x % base && y == base * q + y % base;
    assert x - y == base * (p - q);
    Multiples(base, p - q);
  }

  lemma ResidueOfSum(base: int, x: int, y: int)
    requires base > 0
    ensures (x + y) % base == (x % base + y) % base
  {
    var q, r, s := x / base, x % base, x % base + y;
    assert x == base * q + r;
    assert s == base * (s / base) + s % base;
    assert x + y == base * (q + s / base) + s % base by {
      assert base * (q + s / base) == base * q + base * (s / base);
    }
    Division(base, x + y, q + s / base, s % base);
  }
}
