/** Quotient and remainder of natural numbers, without asking the solver for products of variables. */
module Division {

  /** `n` is a multiple of `b`, by repeated subtraction. */
  ghost predicate Multiple(n: int, b: nat)
    decreases n
  {
    n == 0 || (n >= b >= 1 && Multiple(n - b, b))
  }

  lemma {:induction false} ProductAtLeast(b: nat, d: nat)
    requires d >= 1
    ensures b * d >= b
  {
    if d > 1 {
      ProductAtLeast(b, d - 1);
      assert b * d == b * (d - 1) + b;
    }
  }

  lemma DivideUnique(b: nat, q: nat, r: nat, n: nat)
    requires n == b * q + r && r < b
    ensures q == n / b && r == n % b
  {
    var p := n / b;
    assert n == b * p + n % b;
    assert b * p == b * q + b * (p - q);
    assert b * q == b * p + b * (q - p);
    if p > q {
      ProductAtLeast(b, p - q);
    } else if q > p {
      ProductAtLeast(b, q - p);
    }
  }

  lemma NextRemainder(n: nat, b: nat)
    requires b >= 1
    ensures (n + 1) % b == if n % b + 1 == b then 0 else n % b + 1
  {
    var q, r := n / b, n % b;
    if r + 1 == b {
      assert n + 1 == b * (q + 1);
      DivideUnique(b, q + 1, 0, n + 1);
    } else {
      DivideUnique(b, q, r + 1, n + 1);
    }
  }
}
