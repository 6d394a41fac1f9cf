/** How many element comparisons merge sort makes: an exact worst case for every size. */
module MergeSortCost {
  import opened MergeSort

  function Pow2(n: nat): (p: nat)
    ensures p >= 1
  {
    if n == 0 then 1 else 2 * Pow2(n - 1)
  }

  /** The base-2 logarithm, rounded up. */
  function CeilLog(n: nat): nat
    requires n >= 1
  {
    if n == 1 then 0 else 1 + CeilLog(LeftHalf(n))
  }

  /** Each level of halving costs one comparison less than it has elements. */
  function WorstCost(n: nat): nat {
    if n < 2 then 0 else WorstCost(LeftHalf(n)) + WorstCost(n - LeftHalf(n)) + n - 1
  }

  lemma {:induction false} CeilLogExact(n: nat, m: nat)
    requires n >= 1
    ensures CeilLog(n) <= m <==> n <= Pow2(m)
  {
    if n > 1 && m > 0 {
      CeilLogExact(LeftHalf(n), m - 1);
    }
  }

  lemma {:induction false} CeilLogMonotone(a: nat, b: nat)
    requires 1 <= a <= b
    ensures CeilLog(a) <= CeilLog(b)
  {
    CeilLogExact(b, CeilLog(b));
    CeilLogExact(a, CeilLog(b));
  }

  /** `n * k - 2^k + 1`, with `k` a little too large for the smaller half, is still right for it. */
  lemma SmallerHalf(n: nat)
    requires n >= 2
    ensures var b, k := n - LeftHalf(n), CeilLog(n) - 1;
            CeilLog(b) == k || (CeilLog(b) + 1 == k && b == Pow2(CeilLog(b)))
  {
    var a, b := LeftHalf(n), n - LeftHalf(n);
    var k := CeilLog(a);
    CeilLogMonotone(b, a);
    if CeilLog(b) < k {
      CeilLogExact(b, CeilLog(b));
      CeilLogExact(a, k - 1);
      CeilLogExact(b, k - 1);
      assert a == b + 1 && b == Pow2(k - 1);
      if k >= 2 {
        CeilLogExact(b, k - 2);
      }
    }
  }

  lemma Distribute(a: nat, b: nat, k: nat)
    ensures (a + b) * (k + 1) == a * k + b * k + a + b
  {
  }

  /** In closed form, `WorstCost(n)` is `n * ceil(log n) - 2^ceil(log n) + 1`. */
  lemma {:induction false} WorstCostClosed(n: nat)
    requires n >= 1
    ensures WorstCost(n) + Pow2(CeilLog(n)) == n * CeilLog(n) + 1
  {
    if n > 1 {
      var a, b := LeftHalf(n), n - LeftHalf(n);
      var k := CeilLog(n) - 1;
      WorstCostClosed(a);
      WorstCostClosed(b);
      RoundedUp(n);
      Distribute(a, b, k);
      assert WorstCost(a) + Pow2(k) == a * k + 1;
      assert Pow2(k + 1) == 2 * Pow2(k);
    }
  }

  lemma OneMore(cost: int, b: nat, j: nat)
    requires cost + Pow2(j) == b * j + 1 && b == Pow2(j)
    ensures cost + Pow2(j + 1) == b * (j + 1) + 1
  {
    Distribute(b, 0, j);
  }

  lemma RoundedUp(n: nat)
    requires n >= 2
    requires var b := n - LeftHalf(n); WorstCost(b) + Pow2(CeilLog(b)) == b * CeilLog(b) + 1
    ensures var b, k := n - LeftHalf(n), CeilLog(n) - 1; WorstCost(b) + Pow2(k) == b * k + 1
  {
    var b, k := n - LeftHalf(n), CeilLog(n) - 1;
    SmallerHalf(n);
    if CeilLog(b) != k {
      OneMore(WorstCost(b), b, CeilLog(b));
    }
  }

  lemma {:induction false} MergeCostBound(x: seq<Elem>, y: seq<Elem>)
    requires x != [] && y != []
    ensures MergeCost(x, y) <= |x| + |y| - 1
    ensures MergeCost(x, y) >= if |x| <= |y| then |x| else |y|
    decreases |x| + |y|
  {
    if x[0].key <= y[0].key {
      if |x| > 1 {
        MergeCostBound(x[1..], y);
      }
    } else if |y| > 1 {
      MergeCostBound(x, y[1..]);
    }
  }

  lemma {:induction false} SortCostBound(s: seq<Elem>)
    ensures SortCost(s) <= WorstCost(|s|)
    decreases |s|
  {
    if |s| >= 2 {
      var h := LeftHalf(|s|);
      SortCostBound(s[..h]);
      SortCostBound(s[h..]);
      MergeCostBound(Sort(s[..h]), Sort(s[h..]));
    }
  }

  /** The comparisons of `SortArray` on `n >= 1` elements are at most `n * ceil(log n) - 2^ceil(log n) + 1`. */
  lemma AtMostNLogN(s: seq<Elem>)
    requires s != []
    ensures SortCost(s) + Pow2(CeilLog(|s|)) <= |s| * CeilLog(|s|) + 1
    ensures SortCost(s) <= |s| * CeilLog(|s|)
  {
    SortCostBound(s);
    WorstCostClosed(|s|);
  }

  // ---------- the bound is reached, for every size ----------

  /** `v` dealt out so that merging has to look at everything: the left half gets the largest. */
  function DealLeft(v: seq<Elem>): (l: seq<Elem>)
    requires |v| >= 2
    ensures |l| == LeftHalf(|v|)
  {
    v[..LeftHalf(|v|) - 1] + [v[|v| - 1]]
  }

  function DealRight(v: seq<Elem>): (r: seq<Elem>)
    requires |v| >= 2
    ensures |r| == |v| - LeftHalf(|v|)
  {
    v[LeftHalf(|v|) - 1..|v| - 1]
  }

  function Worst(v: seq<Elem>): (w: seq<Elem>)
    ensures |w| == |v|
    decreases |v|
  {
    if |v| < 2 then v else Worst(DealLeft(v)) + Worst(DealRight(v))
  }

  ghost predicate Increasing(v: seq<Elem>) {
    forall i, j :: 0 <= i < j < |v| ==> v[i].key < v[j].key
  }

  lemma {:induction false} LargestLast(y: seq<Elem>, e: Elem)
    requires y != [] && forall f <- y :: f.key < e.key
    ensures MergeSeq([e], y) == y + [e] && MergeCost([e], y) == |y|
  {
    if |y| > 1 {
      LargestLast(y[1..], e);
      assert y + [e] == [y[0]] + (y[1..] + [e]);
    } else {
      assert y[1..] == [];
    }
  }

  /** All of `p` goes first, then all of `y`, then `e`. */
  lemma {:induction false} DealtMerge(p: seq<Elem>, y: seq<Elem>, e: Elem)
    requires y != [] && (forall f <- y :: f.key < e.key) && forall f <- p :: f.key <= y[0].key
    ensures MergeSeq(p + [e], y) == p + y + [e] && MergeCost(p + [e], y) == |p| + |y|
  {
    if p == [] {
      LargestLast(y, e);
      assert p + [e] == [e] && p + y == y;
    } else {
      assert p[0] in p;
      DealtMerge(p[1..], y, e);
      assert (p + [e])[1..] == p[1..] + [e];
      assert p + y + [e] == [p[0]] + (p[1..] + y + [e]);
    }
  }

  lemma DealtIncreasing(v: seq<Elem>)
    requires |v| >= 2 && Increasing(v)
    ensures Increasing(DealLeft(v)) && Increasing(DealRight(v))
  {
    var h := LeftHalf(|v|);
    assert forall i :: 0 <= i < |DealLeft(v)| ==> DealLeft(v)[i] == v[if i < h - 1 then i else |v| - 1];
    assert forall i :: 0 <= i < |DealRight(v)| ==> DealRight(v)[i] == v[h - 1 + i];
  }

  lemma DealtBounds(v: seq<Elem>)
    requires |v| >= 2 && Increasing(v)
    ensures forall f <- DealRight(v) :: f.key < v[|v| - 1].key
    ensures forall f <- v[..LeftHalf(|v|) - 1] :: f.key <= DealRight(v)[0].key
    ensures v == v[..LeftHalf(|v|) - 1] + DealRight(v) + [v[|v| - 1]]
  {
    assert DealRight(v)[0] == v[LeftHalf(|v|) - 1];
  }

  lemma DealtBack(v: seq<Elem>)
    requires |v| >= 2 && Increasing(v)
    ensures MergeSeq(DealLeft(v), DealRight(v)) == v
    ensures MergeCost(DealLeft(v), DealRight(v)) == |v| - 1
  {
    DealtBounds(v);
    DealtMerge(v[..LeftHalf(|v|) - 1], DealRight(v), v[|v| - 1]);
  }

  lemma {:induction false} WorstIsWorst(v: seq<Elem>)
    requires Increasing(v)
    ensures Sort(Worst(v)) == v && SortCost(Worst(v)) == WorstCost(|v|)
    decreases |v|
  {
    if |v| >= 2 {
      var l, r := DealLeft(v), DealRight(v);
      DealtIncreasing(v);
      DealtBack(v);
      WorstIsWorst(l);
      WorstIsWorst(r);
      assert Worst(v)[..LeftHalf(|v|)] == Worst(l) && Worst(v)[LeftHalf(|v|)..] == Worst(r);
    }
  }

  /** For every size some input needs that many comparisons. */
  lemma BoundIsReached(n: nat) returns (s: seq<Elem>)
    ensures |s| == n && SortCost(s) == WorstCost(n)
  {
    var v := seq(n, i => Elem(i, 0));
    WorstIsWorst(v);
    s := Worst(v);
  }
}
