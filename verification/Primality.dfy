/** Trial division, and how far its signed 64-bit arithmetic reaches. */
module Primality {
  import Division

  const INT64_MAX: int := 9223372036854775807

  /** The largest number whose square is a signed 64-bit value. */
  const ROOT: int := 3037000499

  predicate Divides(d: int, n: int)
    requires d != 0
  {
    n % d == 0
  }

  predicate Prime(n: int) {
    n > 1 && forall d :: 2 <= d < n ==> !Divides(d, n)
  }

  /** The loop test `i*i <= number` is evaluated at `i`. */
  ghost predicate Evaluated(number: int, i: int) {
    && number > 1 && i >= 2
    && (i > 2 ==> Square(i - 1) <= number)
    && forall d :: 2 <= d < i ==> !Divides(d, number)
  }

  function Square(i: int): int { i * i }

  lemma ProductMonotone(a: int, b: int, c: int)
    requires 0 <= a && b <= c
    ensures a * b <= a * c && b * a <= c * a
  {
    assert a * c - a * b == a * (c - b);
  }

  lemma SquareMonotone(a: int, b: int)
    requires 0 <= a <= b
    ensures Square(a) <= Square(b)
  {
    ProductMonotone(a, a, b);
    ProductMonotone(b, a, b);
  }

  lemma Grows(i: int)
    requires i >= 2
    ensures i < Square(i)
  {
    ProductMonotone(i, 2, i);
  }

  /** A divisor that is at least `i` comes with one below `i`, once `i` is past the square root. */
  lemma CoDivisor(n: int, d: int, i: int)
    requires 2 <= i <= d < n && Divides(d, n) && Square(i) > n
    ensures 2 <= n / d < i && Divides(n / d, n)
  {
    var q := n / d;
    assert n == d * q;
    if q < 2 {
      ProductMonotone(d, q, 1);
    }
    if q >= i {
      ProductMonotone(d, i, q);
      ProductMonotone(i, i, d);
    }
    Division.DivideUnique(q, d, 0, n);
  }

  lemma NoSmallDivisor(n: int, i: int)
    requires Evaluated(n, i) && Square(i) > n
    ensures Prime(n)
  {
    forall d | 2 <= d < n ensures !Divides(d, n) {
      if d >= i && Divides(d, n) {
        CoDivisor(n, d, i);
      }
    }
  }

  /** Past its square root the loop test is not evaluated again. */
  lemma LastEvaluated(n: int, i: int)
    requires Evaluated(n, i) && (Square(i) > n || Divides(i, n))
    ensures forall j :: Evaluated(n, j) ==> j <= i
  {
    forall j | Evaluated(n, j) ensures j <= i {
      if j > i && Square(i) > n {
        SquareMonotone(i, j - 1);
      }
    }
  }

  /** `last` is the largest `i` at which the loop test was evaluated. */
  method IsPrime(number: int) returns (prime: bool, ghost last: int)
    ensures prime <==> Prime(number)
    ensures number > 1 ==> Evaluated(number, last) && forall i :: Evaluated(number, i) ==> i <= last
  {
    last := 0;
    if number <= 1 {
      return false, 0;
    }
    var i := 2;
    while i * i <= number
      invariant Evaluated(number, i)
      decreases number - i
    {
      assert Square(i) <= number;
      Grows(i);
      if number % i == 0 {
        assert Divides(i, number);
        LastEvaluated(number, i);
        return false, i;
      }
      assert !Divides(i, number);
      i := i + 1;
    }
    assert Square(i) > number;
    NoSmallDivisor(number, i);
    LastEvaluated(number, i);
    return true, i;
  }

  /**
   Trial division of a signed 64-bit number stays within signed 64-bit values exactly when the number is
   below the square of ROOT or has a divisor that is at most ROOT.
   */
  lemma OverflowFree(n: int)
    requires 1 < n <= INT64_MAX
    ensures (forall i :: Evaluated(n, i) ==> Square(i) <= INT64_MAX) <==>
            (n < Square(ROOT) || exists d :: 2 <= d <= ROOT && Divides(d, n))
  {
    if n < Square(ROOT) {
      forall i | Evaluated(n, i) ensures Square(i) <= INT64_MAX {
        if i > ROOT {
          SquareMonotone(ROOT, i - 1);
        }
        SquareMonotone(i, ROOT);
      }
    } else if d :| 2 <= d <= ROOT && Divides(d, n) {
      forall i | Evaluated(n, i) ensures Square(i) <= INT64_MAX {
        assert i <= d;
        SquareMonotone(i, ROOT);
      }
    } else {
      assert Evaluated(n, ROOT + 1);
      assert Square(ROOT + 1) > INT64_MAX;
    }
  }
}
