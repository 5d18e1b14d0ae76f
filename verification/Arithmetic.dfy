/** The few facts about products and remainders the other modules need. */
module Arithmetic {

  lemma Distributes(n: nat, a: nat, b: nat)
    ensures n * (a + b) == n * a + n * b
  {
  }

  lemma {:induction false} MultiplesApart(n: nat, low: nat, high: nat)
    requires low < high
    ensures n * low + n <= n * high
    decreases high - low
  {
    assert n * high == n * (high - 1) + n;
    if low < high - 1 {
      MultiplesApart(n, low, high - 1);
    }
  }

  lemma ProductGrows(n: nat, low: nat, high: nat)
    requires low <= high
    ensures n * low <= n * high
  {
    if low < high {
      MultiplesApart(n, low, high);
    }
  }

  /** Quotient and remainder are unique. */
  lemma BlockIsUnique(n: nat, q: nat, r: nat)
    requires r < n
    ensures (n * q + r) / n == q && (n * q + r) % n == r
  {
    var x := n * q + r;
    var d := x / n;
    assert n * d <= x < n * d + n;
    if d < q {
      MultiplesApart(n, d, q);
      assert false;
    } else if q < d {
      MultiplesApart(n, q, d);
      assert false;
    }
  }

  lemma QuotientBelow(x: nat, d: nat, bound: nat)
    requires 0 < d && x < d * bound
    ensures x / d < bound
  {
    var q := x / d;
    assert d * q <= x;
    if q >= bound {
      ProductGrows(d, bound, q);
      assert false;
    }
  }

  lemma ProductBound(a: nat, b: nat, c: nat, d: nat)
    requires a <= c && b <= d
    ensures a * b <= c * d
  {
    ProductGrows(b, a, c);
    ProductGrows(c, b, d);
  }
}
