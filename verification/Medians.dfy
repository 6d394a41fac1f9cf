/** What the median of a sorted array means for the unsorted one. */
module Medians {
  import opened MergeSort
  import opened MergeSortTheorems

  function Keys(s: seq<Elem>): (k: seq<int>)
    ensures |k| == |s| && forall i :: 0 <= i < |s| ==> k[i] == s[i].key
  {
    seq(|s|, i requires 0 <= i < |s| => s[i].key)
  }

  function CountAtMost(s: seq<Elem>, m: real): nat {
    if s == [] then 0 else (if s[0].key as real <= m then 1 else 0) + CountAtMost(s[1..], m)
  }

  function CountAtLeast(s: seq<Elem>, m: real): nat {
    if s == [] then 0 else (if s[0].key as real >= m then 1 else 0) + CountAtLeast(s[1..], m)
  }

  lemma {:induction false} CountsConcat(x: seq<Elem>, y: seq<Elem>, m: real)
    ensures CountAtMost(x + y, m) == CountAtMost(x, m) + CountAtMost(y, m)
    ensures CountAtLeast(x + y, m) == CountAtLeast(x, m) + CountAtLeast(y, m)
  {
    if x == [] {
      assert x + y == y;
    } else {
      assert (x + y)[1..] == x[1..] + y;
      CountsConcat(x[1..], y, m);
    }
  }

  lemma {:induction false} CountsMerge(x: seq<Elem>, y: seq<Elem>, m: real)
    ensures CountAtMost(MergeSeq(x, y), m) == CountAtMost(x, m) + CountAtMost(y, m)
    ensures CountAtLeast(MergeSeq(x, y), m) == CountAtLeast(x, m) + CountAtLeast(y, m)
    decreases |x| + |y|
  {
    if x != [] && y != [] {
      var s := MergeSeq(x, y);
      if x[0].key <= y[0].key {
        CountsMerge(x[1..], y, m);
        assert s[1..] == MergeSeq(x[1..], y);
      } else {
        CountsMerge(x, y[1..], m);
        assert s[1..] == MergeSeq(x, y[1..]);
      }
    }
  }

  lemma CountsSplit(s: seq<Elem>, h: nat, m: real)
    requires h <= |s|
    ensures CountAtMost(s, m) == CountAtMost(s[..h], m) + CountAtMost(s[h..], m)
    ensures CountAtLeast(s, m) == CountAtLeast(s[..h], m) + CountAtLeast(s[h..], m)
  {
    CountsConcat(s[..h], s[h..], m);
    assert s == s[..h] + s[h..];
  }

  lemma {:induction false} CountsSort(s: seq<Elem>, m: real)
    ensures CountAtMost(Sort(s), m) == CountAtMost(s, m)
    ensures CountAtLeast(Sort(s), m) == CountAtLeast(s, m)
    decreases |s|
  {
    if |s| >= 2 {
      var h := LeftHalf(|s|);
      CountsSort(s[..h], m);
      CountsSort(s[h..], m);
      CountsMerge(Sort(s[..h]), Sort(s[h..]), m);
      CountsSplit(s, h, m);
    }
  }

  lemma {:induction false} AllCount(s: seq<Elem>, m: real)
    ensures (forall e <- s :: e.key as real <= m) ==> CountAtMost(s, m) == |s|
    ensures (forall e <- s :: e.key as real >= m) ==> CountAtLeast(s, m) == |s|
  {
    if s != [] {
      assert s[0] in s;
      AllCount(s[1..], m);
    }
  }

  lemma ManyAtMost(t: seq<Elem>, h: nat, m: real)
    requires Sorted(t) && h < |t| && t[h].key as real <= m
    ensures CountAtMost(t, m) >= h + 1
  {
    Below(t, h, m);
    AllCount(t[..h + 1], m);
    CountsSplit(t, h + 1, m);
  }

  lemma Below(t: seq<Elem>, h: nat, m: real)
    requires Sorted(t) && h < |t| && t[h].key as real <= m
    ensures forall e <- t[..h + 1] :: e.key as real <= m
  {
    forall e | e in t[..h + 1] ensures e.key as real <= m {
      assert e.key <= t[h].key;
    }
  }

  lemma ManyAtLeast(t: seq<Elem>, h: nat, m: real)
    requires Sorted(t) && h < |t| && t[h].key as real >= m
    ensures CountAtLeast(t, m) >= |t| - h
  {
    Above(t, h, m);
    AllCount(t[h..], m);
    CountsSplit(t, h, m);
  }

  lemma Above(t: seq<Elem>, h: nat, m: real)
    requires Sorted(t) && h < |t| && t[h].key as real >= m
    ensures forall e <- t[h..] :: e.key as real >= m
  {
    forall e | e in t[h..] ensures e.key as real >= m {
      assert e.key >= t[h].key;
    }
  }

  lemma MedianBetween(t: seq<Elem>)
    requires Sorted(t) && t != []
    ensures var h := |t| / 2;
            t[|t| - 1 - h].key as real <= Median(t) <= t[h].key as real
  {
  }

  /** The median of the sorted array has at least half of the unsorted elements on each side of it. */
  lemma MedianHalves(s: seq<Elem>)
    requires s != []
    ensures var m := Median(Sort(s));
            2 * CountAtMost(s, m) >= |s| && 2 * CountAtLeast(s, m) >= |s|
  {
    var t, h := Sort(s), |s| / 2;
    SortSorts(s);
    MedianBetween(t);
    ManyAtMost(t, |s| - 1 - h, Median(t));
    ManyAtLeast(t, h, Median(t));
    CountsSort(s, Median(t));
  }

  // ---------- the order of the input does not matter ----------

  lemma {:induction false} KeyCount(s: seq<Elem>, k: int)
    ensures multiset(Keys(s))[k] == |WithKey(s, k)|
  {
    if s != [] {
      KeyCount(s[1..], k);
      assert Keys(s) == [s[0].key] + Keys(s[1..]);
    }
  }

  /** Each key equally often. */
  ghost predicate SameCounts(s: seq<Elem>, t: seq<Elem>) {
    forall k :: |WithKey(s, k)| == |WithKey(t, k)|
  }

  lemma SmallestFirst(s: seq<Elem>, t: seq<Elem>)
    requires Sorted(s) && t != [] && |WithKey(s, t[0].key)| == |WithKey(t, t[0].key)|
    ensures s != [] && s[0].key <= t[0].key
  {
    FoundWithKey(t, 0);
    WithKeyOnly(s, t[0].key);
  }

  lemma {:induction false} SortedKeysUnique(s: seq<Elem>, t: seq<Elem>)
    requires Sorted(s) && Sorted(t) && SameCounts(s, t)
    ensures Keys(s) == Keys(t)
    decreases |t|
  {
    if t != [] {
      SmallestFirst(s, t);
      SmallestFirst(t, s);
      SortedHead(s);
      SortedHead(t);
      forall k ensures |WithKey(s[1..], k)| == |WithKey(t[1..], k)| {
        assert |WithKey(s, k)| == |WithKey(t, k)|;
      }
      SortedKeysUnique(s[1..], t[1..]);
      assert Keys(s) == [s[0].key] + Keys(s[1..]) && Keys(t) == [t[0].key] + Keys(t[1..]);
    } else if s != [] {
      SmallestFirst(t, s);
    }
  }

  lemma MedianOfKeys(s: seq<Elem>, t: seq<Elem>)
    requires s != [] && Keys(s) == Keys(t)
    ensures Median(s) == Median(t)
  {
    var h := |s| / 2;
    assert Keys(s)[h] == Keys(t)[h];
    assert |s| % 2 == 0 ==> Keys(s)[h - 1] == Keys(t)[h - 1];
  }

  /** Two inputs with the same numbers in any order have the same median. */
  lemma MedianOfPermuted(s: seq<Elem>, t: seq<Elem>)
    requires s != [] && multiset(Keys(s)) == multiset(Keys(t))
    ensures t != [] && Median(Sort(s)) == Median(Sort(t))
  {
    assert |multiset(Keys(s))| == |s| && |multiset(Keys(t))| == |t|;
    SortSorts(s);
    SortSorts(t);
    forall k ensures |WithKey(Sort(s), k)| == |WithKey(Sort(t), k)| {
      SortStable(s, k);
      SortStable(t, k);
      KeyCount(s, k);
      KeyCount(t, k);
    }
    SortedKeysUnique(Sort(s), Sort(t));
    MedianOfKeys(Sort(s), Sort(t));
  }

  // ---------- the median moves with the numbers ----------

  function Shifted(s: seq<Elem>, d: int): (t: seq<Elem>)
    ensures |t| == |s| && forall i :: 0 <= i < |s| ==> t[i] == Elem(s[i].key + d, s[i].tag)
  {
    seq(|s|, i requires 0 <= i < |s| => Elem(s[i].key + d, s[i].tag))
  }

  function Negated(s: seq<Elem>): (t: seq<Elem>)
    ensures |t| == |s| && forall i :: 0 <= i < |s| ==> t[i] == Elem(-s[i].key, s[i].tag)
  {
    seq(|s|, i requires 0 <= i < |s| => Elem(-s[i].key, s[i].tag))
  }

  function Reversed(s: seq<Elem>): (t: seq<Elem>)
    ensures |t| == |s| && forall i :: 0 <= i < |s| ==> t[i] == s[|s| - 1 - i]
  {
    seq(|s|, i requires 0 <= i < |s| => s[|s| - 1 - i])
  }

  lemma {:induction false} ShiftedCount(s: seq<Elem>, d: int, k: int)
    ensures |WithKey(Shifted(s, d), k)| == |WithKey(s, k - d)|
  {
    if s != [] {
      assert Shifted(s, d)[1..] == Shifted(s[1..], d);
      ShiftedCount(s[1..], d, k);
    }
  }

  lemma {:induction false} NegatedCount(s: seq<Elem>, k: int)
    ensures |WithKey(Negated(s), k)| == |WithKey(s, -k)|
  {
    if s != [] {
      assert Negated(s)[1..] == Negated(s[1..]);
      NegatedCount(s[1..], k);
    }
  }

  lemma {:induction false} ReversedCount(s: seq<Elem>, k: int)
    ensures |WithKey(Reversed(s), k)| == |WithKey(s, k)|
  {
    if s != [] {
      assert Reversed(s) == Reversed(s[1..]) + [s[0]];
      ReversedCount(s[1..], k);
      WithKeyConcat(Reversed(s[1..]), [s[0]], k);
      assert [s[0]][1..] == [];
    }
  }

  lemma SortedAgain(s: seq<Elem>, t: seq<Elem>)
    requires Sorted(t) && SameCounts(s, t)
    ensures Keys(Sort(s)) == Keys(t)
  {
    var u := Sort(s);
    SortSorts(s);
    assert SameCounts(u, t) by {
      forall k ensures |WithKey(u, k)| == |WithKey(t, k)| {
        SortStable(s, k);
        assert |WithKey(s, k)| == |WithKey(t, k)|;
      }
    }
    SortedKeysUnique(u, t);
  }

  lemma ShiftedCounts(s: seq<Elem>, t: seq<Elem>, d: int)
    requires SameCounts(s, t)
    ensures SameCounts(Shifted(s, d), Shifted(t, d))
  {
    forall k ensures |WithKey(Shifted(s, d), k)| == |WithKey(Shifted(t, d), k)| {
      ShiftedCount(s, d, k);
      ShiftedCount(t, d, k);
      assert |WithKey(s, k - d)| == |WithKey(t, k - d)|;
    }
  }

  lemma NegatedCounts(s: seq<Elem>, t: seq<Elem>)
    requires SameCounts(s, t)
    ensures SameCounts(Negated(s), Reversed(Negated(t)))
  {
    forall k ensures |WithKey(Negated(s), k)| == |WithKey(Reversed(Negated(t)), k)| {
      NegatedCount(s, k);
      NegatedCount(t, k);
      ReversedCount(Negated(t), k);
      assert |WithKey(s, -k)| == |WithKey(t, -k)|;
    }
  }

  lemma SortKeepsCounts(s: seq<Elem>)
    ensures Sorted(Sort(s)) && SameCounts(s, Sort(s))
  {
    SortSorts(s);
    forall k ensures |WithKey(s, k)| == |WithKey(Sort(s), k)| {
      SortStable(s, k);
    }
  }

  lemma StillSorted(t: seq<Elem>, d: int)
    requires Sorted(t)
    ensures Sorted(Shifted(t, d)) && Sorted(Reversed(Negated(t)))
  {
  }

  lemma ShiftedMedian(t: seq<Elem>, d: int)
    requires t != []
    ensures Median(Shifted(t, d)) == Median(t) + d as real
  {
  }

  /** All numbers plus `d`: the median plus `d`. */
  lemma MedianShifts(s: seq<Elem>, d: int)
    requires s != []
    ensures Median(Sort(Shifted(s, d))) == Median(Sort(s)) + d as real
  {
    var t := Sort(s);
    SortKeepsCounts(s);
    ShiftedCounts(s, t, d);
    StillSorted(t, d);
    SortedAgain(Shifted(s, d), Shifted(t, d));
    MedianOfKeys(Sort(Shifted(s, d)), Shifted(t, d));
    ShiftedMedian(t, d);
  }

  /** All numbers negated: the median negated.  So for an even size it cannot lean to either middle element. */
  lemma MedianNegates(s: seq<Elem>)
    requires s != []
    ensures Median(Sort(Negated(s))) == -Median(Sort(s))
  {
    var t := Sort(s);
    SortKeepsCounts(s);
    NegatedCounts(s, t);
    StillSorted(t, 0);
    SortedAgain(Negated(s), Reversed(Negated(t)));
    MedianOfKeys(Sort(Negated(s)), Reversed(Negated(t)));
    MedianTurns(t);
  }

  lemma MedianTurns(t: seq<Elem>)
    requires t != []
    ensures Median(Reversed(Negated(t))) == -Median(t)
  {
    var h := |t| / 2;
    if |t| % 2 == 0 {
      assert |t| - 1 - h == h - 1;
    } else {
      assert |t| - 1 - h == h;
    }
  }

  /** The median is as far above the lower middle element of the sorted array as it is below the upper one. */
  lemma MedianInTheMiddle(t: seq<Elem>)
    requires Sorted(t) && t != []
    ensures Median(t) - t[(|t| - 1) / 2].key as real == t[|t| / 2].key as real - Median(t)
  {
  }
}
