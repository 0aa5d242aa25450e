/** Ring positions. Every agent of the queue steps a position by the same increment-and-reset;
    the host starts at 0 and the SPU at the last entry. */
module Indices {

  function Increment(value: nat, boundary: nat): (r: nat)
    requires value < boundary
    ensures r < boundary
  {
    if value + 1 >= boundary then 0 else value + 1
  }

  /** The position after `x` increments of an index that starts at the last entry. */
  function At(x: nat, n: nat): (r: nat)
    requires n >= 1
    ensures r < n
  {
    if x == 0 then n - 1 else Increment(At(x - 1, n), n)
  }

  lemma DivMod(x: nat, n: nat)
    requires n >= 1
    ensures x == (x / n) * n + x % n && 0 <= x % n < n
  {
  }

  lemma QuotientUnique(q: int, r: int, p: int, t: int, n: nat)
    requires 0 <= r < n && 0 <= t < n && q * n + r == p * n + t
    ensures q == p && r == t
  {
    assert (q - p) * n == t - r;
    if q > p { Product(q - p, n); }
    if p > q { Product(p - q, n); }
  }

  lemma Product(k: int, n: nat)
    requires k >= 1
    ensures k * n >= n
  {
  }

  /** The increments compute a residue. */
  lemma {:induction false} AtIsResidue(x: nat, n: nat)
    requires n >= 1
    ensures At(x, n) == (x + n - 1) % n
  {
    if x == 0 {
      DivMod(n - 1, n);
      QuotientUnique((n - 1) / n, (n - 1) % n, 0, n - 1, n);
    } else {
      AtIsResidue(x - 1, n);
      var y := x + n - 2;
      DivMod(y, n);
      DivMod(y + 1, n);
      if y % n + 1 < n {
        QuotientUnique((y + 1) / n, (y + 1) % n, y / n, y % n + 1, n);
      } else {
        assert (y / n + 1) * n == (y / n) * n + n;
        QuotientUnique((y + 1) / n, (y + 1) % n, y / n + 1, 0, n);
      }
    }
  }

  /** Two counters less than a lap apart share a position only when they are equal. */
  lemma AtInjective(x: nat, y: nat, n: nat)
    requires n >= 1 && x <= y < x + n && At(x, n) == At(y, n)
    ensures x == y
  {
    AtIsResidue(x, n);
    AtIsResidue(y, n);
    var a, b := x + n - 1, y + n - 1;
    DivMod(a, n);
    DivMod(b, n);
    assert (b / n) * n - (a / n) * n == y - x;
    QuotientUnique(b / n, 0, a / n, y - x, n);
  }

  /** A whole lap leads back to the same position. */
  lemma {:induction false} AtPeriodic(x: nat, n: nat)
    requires n >= 1
    ensures At(x + n, n) == At(x, n)
  {
    if x == 0 {
      AtFirstLap(n, n);
    } else {
      AtPeriodic(x - 1, n);
    }
  }

  lemma {:induction false} AtFirstLap(x: nat, n: nat)
    requires n >= 1 && 1 <= x <= n
    ensures At(x, n) == x - 1
  {
    if x > 1 {
      AtFirstLap(x - 1, n);
    } else {
      assert At(0, n) == n - 1;
    }
  }

  /** Every position is taken exactly once in a lap. */
  lemma {:induction false} AtSurjective(base: nat, i: nat, n: nat) returns (x: nat)
    requires i < n
    ensures base <= x < base + n && At(x, n) == i
  {
    if base == 0 {
      if i == n - 1 {
        x := 0;
      } else {
        x := i + 1;
        AtFirstLap(x, n);
      }
    } else {
      x := AtSurjective(base - 1, i, n);
      if x == base - 1 {
        AtPeriodic(x, n);
        x := x + n;
      }
    }
  }
}
