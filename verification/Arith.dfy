/** Facts about integers and finite sets that the solver does not find by itself. */
module Arith {

  lemma MulStep(d: nat, a: int, b: int)
    requires a < b
    ensures d * a + d <= d * b
  {
    assert d * b - d * a == d * (b - a);
    assert d * (b - a) == d * (b - a - 1) + d;
  }

  // A quotient and a remainder in range are the only ones.
  lemma QuotientUnique(n: nat, d: nat, q: int, r: int)
    requires d > 0 && 0 <= r < d && n == d * q + r
    ensures n / d == q && n % d == r
  {
    var q' := n / d;
    var r' := n % d;
    assert n == d * q' + r';
    if q < q' {
      MulStep(d, q, q');
    } else if q' < q {
      MulStep(d, q', q);
    }
  }

  lemma DivMonotone(a: nat, b: nat, d: nat)
    requires d > 0 && a <= b
    ensures a / d <= b / d
  {
    var qa, qb := a / d, b / d;
    assert a == d * qa + a % d && b == d * qb + b % d;
    if qb < qa {
      MulStep(d, qb, qa);
    }
  }

  lemma {:induction false} SubsetSize<T>(a: set<T>, b: set<T>)
    requires a <= b
    ensures |a| <= |b|
  {
    if a != {} {
      var x :| x in a;
      SubsetSize(a - {x}, b - {x});
    }
  }
}
