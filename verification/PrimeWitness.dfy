/**
 A prime on which trial division does overflow.  That it is prime is proved with a number whose powers repeat
 only after 3^20 steps, modulo any divisor: so no divisor is as small as ROOT.  The powers are followed
 through twenty cubings modulo the prime; the last one before one is a cube root of one, and stays different
 from one modulo any divisor, because 3 is none.
 */
module PrimeWitness {
  import opened Division
  import opened Primality
  import opened Powers

  /** 2645237266 * 3^20 + 1. */
  const WITNESS: nat := 9223372036032687667

  const BASE: nat := 1382678607744949836

  // ---------- multiplication modulo m ----------

  function Modulo(m: nat): (nat, nat) -> nat
    requires m >= 1
  {
    (x, y) => (x * y) % m
  }

  lemma AddMultiple(m: nat, k: nat, z: nat)
    requires m >= 1
    ensures (m * k + z) % m == z % m
  {
    assert m * (k + z / m) == m * k + m * (z / m);
    DivideUnique(m, k + z / m, z % m, m * k + z);
  }

  lemma Associate(x: nat, y: nat, z: nat)
    ensures (x * y) * z == x * (y * z)
  {
  }

  lemma MulLeft(x: nat, y: nat, m: nat)
    requires m >= 1
    ensures ((x % m) * y) % m == (x * y) % m
  {
    var q, r := x / m, x % m;
    assert x * y == (m * q) * y + r * y;
    Associate(m, q, y);
    AddMultiple(m, q * y, r * y);
  }

  lemma MulRight(x: nat, y: nat, m: nat)
    requires m >= 1
    ensures (x * (y % m)) % m == (x * y) % m
  {
    MulLeft(y, x, m);
    assert y * x == x * y && (y % m) * x == x * (y % m);
  }

  lemma ModuloAssociates(m: nat, x: nat, y: nat, z: nat)
    requires m >= 1
    ensures var mul := Modulo(m); mul(mul(x, y), z) == mul(x, mul(y, z))
  {
    MulLeft(x * y, z, m);
    MulRight(x, y * z, m);
    Associate(x, y, z);
  }

  lemma ModuloOne(m: nat, x: nat)
    requires x < m
    ensures Modulo(m)(1, x) == x
  {
    assert 1 * x == x;
  }

  lemma ModuloBelow(m: nat, x: nat, y: nat)
    requires m >= 1
    ensures Modulo(m)(x, y) < m
  {
  }

  lemma LawsFrom(mul: (nat, nat) -> nat, m: nat)
    requires m >= 2
    requires forall x: nat, y: nat :: mul(x, y) < m
    requires forall x: nat :: x < m ==> mul(1, x) == x
    requires forall x: nat, y: nat, z: nat {:trigger mul(mul(x, y), z)} :: mul(mul(x, y), z) == mul(x, mul(y, z))
    ensures Laws(mul, m)
  {
  }

  lemma ModuloLaws(m: nat)
    requires m >= 2
    ensures Laws(Modulo(m), m)
  {
    forall x: nat, y: nat ensures Modulo(m)(x, y) < m {
      ModuloBelow(m, x, y);
    }
    forall x: nat | x < m ensures Modulo(m)(1, x) == x {
      ModuloOne(m, x);
    }
    forall x: nat, y: nat, z: nat ensures Modulo(m)(Modulo(m)(x, y), z) == Modulo(m)(x, Modulo(m)(y, z)) {
      ModuloAssociates(m, x, y, z);
    }
    LawsFrom(Modulo(m), m);
  }

  /** Remainders modulo a divisor can be taken from remainders modulo the multiple. */
  lemma ThroughMultiple(x: nat, d: nat, m: nat)
    requires d >= 1 && m >= 1 && m % d == 0
    ensures (x % m) % d == x % d
  {
    var e, q := m / d, x / m;
    assert m == d * e && x == m * q + x % m;
    Associate(d, e, q);
    AddMultiple(d, e * q, x % m);
  }

  lemma MulThrough(x: nat, y: nat, d: nat, m: nat)
    requires d >= 1 && m >= 1 && m % d == 0
    ensures Modulo(d)(x % d, y % d) == Modulo(m)(x, y) % d
  {
    MulLeft(x, y % d, d);
    MulRight(x, y, d);
    ThroughMultiple(x * y, d, m);
  }

  lemma {:induction false} PowThrough(b: nat, i: nat, d: nat, m: nat)
    requires d >= 2 && m >= 2 && m % d == 0
    ensures Pow(Modulo(d), b % d, i) == Pow(Modulo(m), b, i) % d
  {
    if i > 0 {
      var x := Pow(Modulo(m), b, i - 1);
      PowThrough(b, i - 1, d, m);
      MulThrough(x, b, d, m);
    }
  }

  // ---------- the powers of BASE ----------

  /** BASE to the power 3^t, modulo WITNESS, and its square. */
  function Cube(t: nat): nat {
    if t == 0 then 1382678607744949836
    else if t == 1 then 5656981063776872750
    else if t == 2 then 2272545126160334527
    else if t == 3 then 8983716215463637887
    else if t == 4 then 6776658207678373448
    else if t == 5 then 1389673064401977476
    else if t == 6 then 7667693968860110092
    else if t == 7 then 1281199958674320024
    else if t == 8 then 2834681212980337294
    else if t == 9 then 4181803494173449722
    else if t == 10 then 8033680299818711722
    else if t == 11 then 2256132871865022362
    else if t == 12 then 5256300265655349932
    else if t == 13 then 1390188902201811207
    else if t == 14 then 4598965108164382743
    else if t == 15 then 82968632124346427
    else if t == 16 then 4202464326505948165
    else if t == 17 then 2915231516573321432
    else if t == 18 then 5359619026872618631
    else if t == 19 then 3750378546195255728
    else 1
  }

  function CubeSquared(t: nat): nat {
    if t == 0 then 5806117227992386477
    else if t == 1 then 3966620600624227709
    else if t == 2 then 3688444302727722052
    else if t == 3 then 4255639072013964522
    else if t == 4 then 20480906095765507
    else if t == 5 then 4852807891696719481
    else if t == 6 then 6837904620335321257
    else if t == 7 then 1464009685759520073
    else if t == 8 then 4978007737599071655
    else if t == 9 then 5164223456456579167
    else if t == 10 then 1804246770358087729
    else if t == 11 then 940753808527771546
    else if t == 12 then 3124090925168616838
    else if t == 13 then 8893185362477633417
    else if t == 14 then 3755155615408283487
    else if t == 15 then 8683911160082116352
    else if t == 16 then 5826833073899596988
    else if t == 17 then 6069657609833767560
    else if t == 18 then 4424059894349879816
    else 5472993489837431938
  }

  predicate Cubes(x: nat, square: nat, cube: nat) {
    (x * x) % WITNESS == square && (square * x) % WITNESS == cube
  }

  lemma CheckedA(t: nat)
    requires 0 <= t < 5
    ensures Cubes(Cube(t), CubeSquared(t), Cube(t + 1))
  {
    if t == 0 {
      assert Cubes(1382678607744949836, 5806117227992386477, 5656981063776872750);
    } else if t == 1 {
      assert Cubes(5656981063776872750, 3966620600624227709, 2272545126160334527);
    } else if t == 2 {
      assert Cubes(2272545126160334527, 3688444302727722052, 8983716215463637887);
    } else if t == 3 {
      assert Cubes(8983716215463637887, 4255639072013964522, 6776658207678373448);
    } else if t == 4 {
      assert Cubes(6776658207678373448, 20480906095765507, 1389673064401977476);
    }
  }

  lemma CheckedB(t: nat)
    requires 5 <= t < 10
    ensures Cubes(Cube(t), CubeSquared(t), Cube(t + 1))
  {
    if t == 5 {
      assert Cubes(1389673064401977476, 4852807891696719481, 7667693968860110092);
    } else if t == 6 {
      assert Cubes(7667693968860110092, 6837904620335321257, 1281199958674320024);
    } else if t == 7 {
      assert Cubes(1281199958674320024, 1464009685759520073, 2834681212980337294);
    } else if t == 8 {
      assert Cubes(2834681212980337294, 4978007737599071655, 4181803494173449722);
    } else if t == 9 {
      assert Cubes(4181803494173449722, 5164223456456579167, 8033680299818711722);
    }
  }

  lemma CheckedC(t: nat)
    requires 10 <= t < 15
    ensures Cubes(Cube(t), CubeSquared(t), Cube(t + 1))
  {
    if t == 10 {
      assert Cubes(8033680299818711722, 1804246770358087729, 2256132871865022362);
    } else if t == 11 {
      assert Cubes(2256132871865022362, 940753808527771546, 5256300265655349932);
    } else if t == 12 {
      assert Cubes(5256300265655349932, 3124090925168616838, 1390188902201811207);
    } else if t == 13 {
      assert Cubes(1390188902201811207, 8893185362477633417, 4598965108164382743);
    } else if t == 14 {
      assert Cubes(4598965108164382743, 3755155615408283487, 82968632124346427);
    }
  }

  lemma CheckedD(t: nat)
    requires 15 <= t < 20
    ensures Cubes(Cube(t), CubeSquared(t), Cube(t + 1))
  {
    if t == 15 {
      assert Cubes(82968632124346427, 8683911160082116352, 4202464326505948165);
    } else if t == 16 {
      assert Cubes(4202464326505948165, 5826833073899596988, 2915231516573321432);
    } else if t == 17 {
      assert Cubes(2915231516573321432, 6069657609833767560, 5359619026872618631);
    } else if t == 18 {
      assert Cubes(5359619026872618631, 4424059894349879816, 3750378546195255728);
    } else if t == 19 {
      assert Cubes(3750378546195255728, 5472993489837431938, 1);
    }
  }

  lemma CubesChecked(t: nat)
    requires t < 20
    ensures Cubes(Cube(t), CubeSquared(t), Cube(t + 1))
  {
    if t < 5 {
      CheckedA(t);
    } else if t < 10 {
      CheckedB(t);
    } else if t < 15 {
      CheckedC(t);
    } else {
      CheckedD(t);
    }
  }

  lemma Cubing(mul: (nat, nat) -> nat, m: nat, b: nat, t: nat, x: nat)
    requires Laws(mul, m) && b < m && Pow(mul, b, Power3(t)) == x
    ensures Pow(mul, b, Power3(t + 1)) == mul(mul(x, x), x)
  {
    var n := Power3(t);
    PowAdd(mul, m, b, n, n);
    PowAdd(mul, m, b, n + n, n);
    assert Power3(t + 1) == n + n + n;
  }

  lemma {:induction false} PowersOfBase(t: nat)
    requires t <= 20
    ensures Pow(Modulo(WITNESS), BASE, Power3(t)) == Cube(t)
  {
    ModuloLaws(WITNESS);
    if t == 0 {
      assert Pow(Modulo(WITNESS), BASE, 0) == 1;
      ModuloOne(WITNESS, BASE);
    } else {
      PowersOfBase(t - 1);
      Cubing(Modulo(WITNESS), WITNESS, BASE, t - 1, Cube(t - 1));
      CubesChecked(t - 1);
    }
  }

  lemma ProductVanishes(m: nat, k: nat, d: nat)
    requires d >= 1 && m % d == 0
    ensures (m * k) % d == 0
  {
    MulLeft(m, k, d);
    assert 0 * k == 0;
  }

  lemma ThreeLeft(w: nat, d: nat)
    requires d >= 2 && w % d == 1
    ensures (w * w + w + 1) % d == 3 % d
  {
    MulLeft(w, w, d);
    assert 1 * w == w;
    var a, b := (w * w) / d, w / d;
    assert w * w == d * a + 1 && w == d * b + 1;
    assert d * a + d * b == d * (a + b);
    AddMultiple(d, a + b, 3);
  }

  lemma CubeRootOfOne(w: nat)
    requires w == 3750378546195255728
    ensures w * w + w + 1 == WITNESS * 1524967136185440139 && WITNESS % 3 == 1
  {
  }

  /** A cube root of one other than one stays different from one modulo any divisor. */
  lemma LastCubeNotOne(d: nat)
    requires d >= 2 && WITNESS % d == 0
    ensures Cube(19) % d != 1
  {
    var w: nat := 3750378546195255728;
    CubeRootOfOne(w);
    ProductVanishes(WITNESS, 1524967136185440139, d);
    if w % d == 1 {
      ThreeLeft(w, d);
    }
  }

  lemma StaysOne(b: nat, i: nat, d: nat, m: nat)
    requires d >= 2 && m >= 2 && m % d == 0 && Pow(Modulo(m), b, i) == 1
    ensures Pow(Modulo(d), b % d, i) == 1
  {
    PowThrough(b, i, d, m);
    DivideUnique(d, 0, 1, 1);
  }

  lemma CubeEnds(t: nat)
    requires t == 20
    ensures Cube(t) == 1 && Power3(t) == 3486784401
  {
    assert Power3(5) == 243;
    assert Power3(10) == 59049;
    assert Power3(15) == 14348907;
    assert Power3(20) == 3486784401;
  }

  /** BASE has order 3^t modulo WITNESS, and still so modulo the divisor `d`. */
  lemma OrderThrough(t: nat, d: nat)
    requires t == 20 && d >= 2 && WITNESS % d == 0 && Cube(t) == 1 && Cube(t - 1) % d != 1
    ensures Power3(t) <= d
  {
    assert Pow(Modulo(d), BASE % d, Power3(t)) == 1 by {
      PowersOfBase(t);
      StaysOne(BASE, Power3(t), d, WITNESS);
    }
    assert Pow(Modulo(d), BASE % d, Power3(t - 1)) != 1 by {
      PowersOfBase(t - 1);
      PowThrough(BASE, Power3(t - 1), d, WITNESS);
    }
    ModuloLaws(d);
    OrderBoundsModulus(Modulo(d), d, BASE % d, t);
  }

  /** Every divisor but 1 is above ROOT. */
  lemma DivisorsAreLarge(t: nat, d: nat)
    requires t == 20 && d >= 2 && Divides(d, WITNESS)
    ensures d > ROOT
  {
    CubeEnds(t);
    LastCubeNotOne(d);
    OrderThrough(t, d);
  }

  /** A signed 64-bit prime on which the loop test overflows: the condition of OverflowFree can fail. */
  lemma OverflowHappens()
    ensures WITNESS <= INT64_MAX && Prime(WITNESS)
    ensures !(WITNESS < Square(ROOT) || exists d :: 2 <= d <= ROOT && Divides(d, WITNESS))
    ensures exists i :: Evaluated(WITNESS, i) && Square(i) > INT64_MAX
  {
    forall d | 2 <= d <= ROOT ensures !Divides(d, WITNESS) {
      if Divides(d, WITNESS) {
        DivisorsAreLarge(20, d);
      }
    }
    assert Evaluated(WITNESS, ROOT + 1);
    NoSmallDivisor(WITNESS, ROOT + 1);
  }
}
