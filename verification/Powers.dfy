/**
 Powers under an associative multiplication of the numbers below `d`.  An element whose power 3^t is the first
 power of three to give 1 has 3^t different powers, all below `d`; so `d` is at least 3^t.
 */
module Powers {
  import opened Division

  ghost predicate Laws(mul: (nat, nat) -> nat, d: nat) {
    && d >= 2
    && (forall x: nat, y: nat :: mul(x, y) < d)
    && (forall x: nat :: x < d ==> mul(1, x) == x)
    && (forall x: nat, y: nat, z: nat {:trigger mul(mul(x, y), z)} :: mul(mul(x, y), z) == mul(x, mul(y, z)))
  }

  function Pow(mul: (nat, nat) -> nat, b: nat, i: nat): nat {
    if i == 0 then 1 else mul(Pow(mul, b, i - 1), b)
  }

  lemma PowBelow(mul: (nat, nat) -> nat, d: nat, b: nat, i: nat)
    requires Laws(mul, d)
    ensures Pow(mul, b, i) < d
  {
  }

  lemma {:induction false} PowAdd(mul: (nat, nat) -> nat, d: nat, b: nat, i: nat, j: nat)
    requires Laws(mul, d) && j >= 1 && b < d
    ensures Pow(mul, b, i + j) == mul(Pow(mul, b, i), Pow(mul, b, j))
  {
    if j == 1 {
      assert Pow(mul, b, 1) == mul(1, b) == b by {
        assert Pow(mul, b, 0) == 1;
      }
    } else {
      PowAdd(mul, d, b, i, j - 1);
    }
  }

  lemma PowOnce(mul: (nat, nat) -> nat, d: nat, b: nat, o: nat, i: nat)
    requires Laws(mul, d) && b < d && Pow(mul, b, o) == 1
    ensures Pow(mul, b, o + i) == Pow(mul, b, i)
  {
    if i > 0 {
      PowAdd(mul, d, b, o, i);
      PowBelow(mul, d, b, i);
    }
  }

  lemma {:induction false} PowMultiple(mul: (nat, nat) -> nat, d: nat, b: nat, o: nat, n: nat)
    requires Laws(mul, d) && b < d && Pow(mul, b, o) == 1 && Multiple(n, o)
    ensures Pow(mul, b, n) == 1
    decreases n
  {
    if n > 0 {
      PowMultiple(mul, d, b, o, n - o);
      PowOnce(mul, d, b, o, n - o);
    }
  }

  /** The order of `b`, if some power of it is one. */
  ghost predicate Order(mul: (nat, nat) -> nat, b: nat, o: nat) {
    o > 0 && Pow(mul, b, o) == 1 && forall i :: 0 < i < o ==> Pow(mul, b, i) != 1
  }

  lemma {:induction false} Least(mul: (nat, nat) -> nat, b: nat, g: nat) returns (o: nat)
    requires g > 0 && Pow(mul, b, g) == 1
    ensures o <= g && Order(mul, b, o)
  {
    if i :| 0 < i < g && Pow(mul, b, i) == 1 {
      o := Least(mul, b, i);
    } else {
      o := g;
    }
  }

  lemma {:induction false} OrderDivides(mul: (nat, nat) -> nat, d: nat, b: nat, o: nat, n: nat)
    requires Laws(mul, d) && b < d && Order(mul, b, o) && Pow(mul, b, n) == 1
    ensures Multiple(n, o)
    decreases n
  {
    if n >= o {
      PowOnce(mul, d, b, o, n - o);
      OrderDivides(mul, d, b, o, n - o);
    }
  }

  // ---------- powers of three ----------

  function Power3(t: nat): (n: nat)
    ensures n >= 1
  {
    if t == 0 then 1 else 3 * Power3(t - 1)
  }

  lemma {:induction false} Quotient(o: nat, n: nat) returns (q: nat)
    requires Multiple(n, o)
    ensures n == o * q
    decreases n
  {
    if n == 0 {
      q := 0;
    } else {
      q := Quotient(o, n - o);
      assert o * (q + 1) == o * q + o;
      q := q + 1;
    }
  }

  lemma {:induction false} ProductIsMultiple(o: nat, q: nat)
    requires o >= 1
    ensures Multiple(o * q, o)
  {
    if q > 0 {
      ProductIsMultiple(o, q - 1);
      assert o * q - o == o * (q - 1);
    }
  }

  /** Three is prime. */
  lemma ThreeIsPrime(o: nat, q: nat, n: nat)
    requires o * q == 3 * n && q % 3 != 0
    ensures o % 3 == 0 && (o / 3) * q == n
  {
    var a, r, b, s := o / 3, o % 3, q / 3, q % 3;
    assert o == 3 * a + r && q == 3 * b + s;
    assert o * q == 3 * (a * q + r * b) + r * s;
    assert r * s == 3 * (n - a * q - r * b);
    assert r == 0;
  }

  lemma OneFactor(o: nat, q: nat)
    requires q > 1
    ensures o * q != 1
  {
    if o > 0 {
      ProductAtLeast(q, o);
    }
  }

  lemma {:induction false} ThreeDivides(o: nat, q: nat, t: nat)
    requires o * q == Power3(t) && q > 1
    ensures q % 3 == 0
  {
    if t == 0 {
      OneFactor(o, q);
    } else if q % 3 != 0 {
      ThreeIsPrime(o, q, Power3(t - 1));
      ThreeDivides(o / 3, q, t - 1);
    }
  }

  lemma Third(o: nat, q: nat, n: nat)
    requires o * q == 3 * n && q % 3 == 0
    ensures o * (q / 3) == n
  {
    var r := q / 3;
    assert o * (3 * r) == 3 * (o * r);
  }

  /** A proper divisor of 3^t divides 3^(t-1). */
  lemma DividesPrevious(o: nat, t: nat)
    requires o < Power3(t) && Multiple(Power3(t), o)
    ensures t >= 1 && Multiple(Power3(t - 1), o)
  {
    var q := Quotient(o, Power3(t));
    assert q > 1 by {
      assert o * 0 == 0 && o * 1 == o;
    }
    ThreeDivides(o, q, t);
    if t == 0 {
      OneFactor(o, q);
    }
    Third(o, q, Power3(t - 1));
    ProductIsMultiple(o, q / 3);
  }

  // ---------- an element whose order is 3^t ----------

  ghost predicate HasOrder3(mul: (nat, nat) -> nat, d: nat, b: nat, t: nat) {
    Laws(mul, d) && b < d && t >= 1 && Pow(mul, b, Power3(t)) == 1 && Pow(mul, b, Power3(t - 1)) != 1
  }

  lemma LongOrder(mul: (nat, nat) -> nat, d: nat, b: nat, t: nat, g: nat)
    requires HasOrder3(mul, d, b, t) && 0 < g < Power3(t)
    ensures Pow(mul, b, g) != 1
  {
    if Pow(mul, b, g) == 1 {
      var o := Least(mul, b, g);
      OrderDivides(mul, d, b, o, Power3(t));
      DividesPrevious(o, t);
      PowMultiple(mul, d, b, o, Power3(t - 1));
    }
  }

  lemma Shift(mul: (nat, nat) -> nat, d: nat, b: nat, i: nat, g: nat, r: nat)
    requires Laws(mul, d) && b < d && r >= 1 && Pow(mul, b, i) == Pow(mul, b, i + g)
    ensures Pow(mul, b, i + r) == Pow(mul, b, i + r + g)
  {
    PowAdd(mul, d, b, i, r);
    PowAdd(mul, d, b, i + g, r);
    assert i + g + r == i + r + g;
  }

  lemma ReturnsToOne(mul: (nat, nat) -> nat, d: nat, b: nat, i: nat, g: nat, r: nat)
    requires Laws(mul, d) && b < d && r >= 1 && Pow(mul, b, i) == Pow(mul, b, i + g) && Pow(mul, b, i + r) == 1
    ensures Pow(mul, b, g) == 1
  {
    Shift(mul, d, b, i, g, r);
    PowOnce(mul, d, b, i + r, g);
  }

  lemma Different(mul: (nat, nat) -> nat, d: nat, b: nat, t: nat, i: nat, j: nat)
    requires HasOrder3(mul, d, b, t) && i < j < Power3(t)
    ensures Pow(mul, b, i) != Pow(mul, b, j)
  {
    var g, r := j - i, Power3(t) - i;
    LongOrder(mul, d, b, t, g);
    assert i + r == Power3(t) && i + g == j;
    if Pow(mul, b, i) == Pow(mul, b, j) {
      ReturnsToOne(mul, d, b, i, g, r);
    }
  }

  // ---------- counting ----------

  ghost function Values(mul: (nat, nat) -> nat, b: nat, n: nat): set<nat> {
    set i | 0 <= i < n :: Pow(mul, b, i)
  }

  lemma ValuesNext(mul: (nat, nat) -> nat, b: nat, n: nat)
    requires n > 0
    ensures Values(mul, b, n) == Values(mul, b, n - 1) + {Pow(mul, b, n - 1)}
  {
  }

  lemma {:induction false} ValuesSize(mul: (nat, nat) -> nat, d: nat, b: nat, t: nat, n: nat)
    requires HasOrder3(mul, d, b, t) && n <= Power3(t)
    ensures |Values(mul, b, n)| == n
  {
    if n > 0 {
      var last := Pow(mul, b, n - 1);
      ValuesSize(mul, d, b, t, n - 1);
      ValuesNext(mul, b, n);
      forall i | 0 <= i < n - 1 ensures Pow(mul, b, i) != last {
        Different(mul, d, b, t, i, n - 1);
      }
    }
  }

  /** As many different numbers below `d` as there are powers. */
  lemma {:induction false} NoRoom(s: set<nat>, d: nat)
    requires forall x <- s :: x < d
    ensures |s| <= d
  {
    if d > 0 {
      NoRoom(s - {d - 1}, d - 1);
    } else {
      assert s == {};
    }
  }

  lemma OrderBoundsModulus(mul: (nat, nat) -> nat, d: nat, b: nat, t: nat)
    requires HasOrder3(mul, d, b, t)
    ensures Power3(t) <= d
  {
    ValuesSize(mul, d, b, t, Power3(t));
    forall x | x in Values(mul, b, Power3(t)) ensures x < d {
      var i :| 0 <= i < Power3(t) && Pow(mul, b, i) == x;
      PowBelow(mul, d, b, i);
    }
    NoRoom(Values(mul, b, Power3(t)), d);
  }
}
