/** What the solver is not left to find out about products. */
module Multiples {
  lemma OneMoreMultiple(b: nat, d: nat)
    requires b > 0
    ensures b * d == (b - 1) * d + d
  {
  }

  /** Distinct multiples of `d` are at least `d` apart. */
  lemma {:induction false} MultiplesApart(a: nat, b: nat, d: nat)
    requires a < b
    ensures a * d + d <= b * d
  {
    if a + 1 < b {
      MultiplesApart(a, b - 1, d);
    }
    OneMoreMultiple(b, d);
  }

  /** Division with remainder has one solution. */
  lemma DivisionIsUnique(v: nat, d: nat, q: nat, r: nat)
    requires v == q * d + r && r < d
    ensures v / d == q && v % d == r
  {
    var q', r' := v / d, v % d;
    assert v == q' * d + r';
    if q' < q {
      MultiplesApart(q', q, d);
    } else if q < q' {
      MultiplesApart(q, q', d);
    }
  }

  lemma FactorBelowQuotient(n: nat, d: nat, length: nat)
    requires 0 < d && n * d <= length
    ensures n <= length / d
  {
    var q := length / d;
    assert q * d + length % d == length;
    if q < n {
      MultiplesApart(q, n, d);
      assert false;
    }
  }
}
