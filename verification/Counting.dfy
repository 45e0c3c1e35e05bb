/** A minimum, and division by repeated subtraction for counting pages. */
module Counting {

  function Min(a: int, b: int): int {
    if a <= b then a else b
  }

  function Multiple(q: nat, d: nat): nat {
    if q == 0 then 0 else Multiple(q - 1, d) + d
  }

  lemma Distribute(q: int, d: int)
    ensures (q + 1) * d == q * d + d
  {
  }

  lemma {:induction false} MultipleIsProduct(q: nat, d: nat)
    ensures Multiple(q, d) == q * d
  {
    if q > 0 {
      MultipleIsProduct(q - 1, d);
      Distribute(q - 1, d);
    }
  }

  lemma {:induction false} MultipleMonotone(p: nat, q: nat, d: nat)
    requires p <= q
    ensures Multiple(p, d) <= Multiple(q, d)
    decreases q
  {
    if p < q {
      MultipleMonotone(p, q - 1, d);
    }
  }

  lemma Division(n: nat, d: nat)
    requires d >= 1
    ensures Multiple(n / d, d) <= n < Multiple(n / d, d) + d
  {
    MultipleIsProduct(n / d, d);
  }

  /** n holds q whole multiples of d exactly when q is at most n / d. */
  lemma WholeMultiples(q: nat, d: nat, n: nat)
    requires d >= 1
    ensures Multiple(q, d) <= n <==> q <= n / d
  {
    Division(n, d);
    var m := n / d;
    if q <= m {
      MultipleMonotone(q, m, d);
    } else {
      MultipleMonotone(m + 1, q, d);
    }
  }
}
