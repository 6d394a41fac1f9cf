/** What merge sort computes: the one stable sort, at a cost that is known and reached. */
module MergeSortTheorems {
  import opened MergeSort

  ghost predicate Sorted(s: seq<Elem>) {
    forall i, j :: 0 <= i < j < |s| ==> s[i].key <= s[j].key
  }

  /** The elements of `s` with key `k`, in order. */
  function WithKey(s: seq<Elem>, k: int): (f: seq<Elem>)
    ensures forall e <- f :: e.key == k
  {
    if s == [] then []
    else if s[0].key == k then [s[0]] + WithKey(s[1..], k)
    else WithKey(s[1..], k)
  }

  /** For each key the same elements in the same order. */
  ghost predicate SameByKey(s: seq<Elem>, t: seq<Elem>) {
    forall k :: WithKey(s, k) == WithKey(t, k)
  }

  // ---------- sorted ----------

  ghost predicate AtLeast(s: seq<Elem>, k: int) {
    forall e <- s :: k <= e.key
  }

  lemma {:induction false} MergeAtLeast(x: seq<Elem>, y: seq<Elem>, k: int)
    requires AtLeast(x, k) && AtLeast(y, k)
    ensures AtLeast(MergeSeq(x, y), k)
    decreases |x| + |y|
  {
    if x != [] && y != [] {
      assert AtLeast(x[1..], k) && AtLeast(y[1..], k);
      if x[0].key <= y[0].key {
        MergeAtLeast(x[1..], y, k);
      } else {
        MergeAtLeast(x, y[1..], k);
      }
    }
  }

  lemma SortedHead(s: seq<Elem>)
    requires s != []
    ensures Sorted(s) <==> AtLeast(s[1..], s[0].key) && Sorted(s[1..])
  {
    assert s == [s[0]] + s[1..];
    if AtLeast(s[1..], s[0].key) && Sorted(s[1..]) {
      forall i, j | 0 <= i < j < |s| ensures s[i].key <= s[j].key {
        assert s[j] == s[1..][j - 1] && s[j] in s[1..];
      }
    }
  }

  lemma SortedAtLeast(s: seq<Elem>, k: int)
    requires Sorted(s) && s != [] && k <= s[0].key
    ensures AtLeast(s, k)
  {
  }

  lemma {:induction false} MergeSorted(x: seq<Elem>, y: seq<Elem>)
    requires Sorted(x) && Sorted(y)
    ensures Sorted(MergeSeq(x, y))
    decreases |x| + |y|
  {
    if x != [] && y != [] {
      var m := MergeSeq(x, y);
      if x[0].key <= y[0].key {
        SortedHead(x);
        SortedAtLeast(y, x[0].key);
        MergeSorted(x[1..], y);
        MergeAtLeast(x[1..], y, x[0].key);
        assert m[1..] == MergeSeq(x[1..], y);
      } else {
        SortedHead(y);
        SortedAtLeast(x, y[0].key);
        MergeSorted(x, y[1..]);
        MergeAtLeast(x, y[1..], y[0].key);
        assert m[1..] == MergeSeq(x, y[1..]);
      }
      SortedHead(m);
    }
  }

  lemma {:induction false} SortSorts(s: seq<Elem>)
    ensures Sorted(Sort(s))
    decreases |s|
  {
    if |s| >= 2 {
      var h := LeftHalf(|s|);
      SortSorts(s[..h]);
      SortSorts(s[h..]);
      MergeSorted(Sort(s[..h]), Sort(s[h..]));
    }
  }

  // ---------- stable ----------

  lemma {:induction false} WithKeyConcat(x: seq<Elem>, y: seq<Elem>, k: int)
    ensures WithKey(x + y, k) == WithKey(x, k) + WithKey(y, k)
  {
    if x == [] {
      assert x + y == y;
    } else {
      assert (x + y)[1..] == x[1..] + y;
      WithKeyConcat(x[1..], y, k);
    }
  }

  lemma {:induction false} NoneWithKey(s: seq<Elem>, k: int)
    requires AtLeast(s, k + 1)
    ensures WithKey(s, k) == []
  {
    if s != [] {
      assert s[0] in s;
      NoneWithKey(s[1..], k);
    }
  }

  lemma {:induction false} MergeStable(x: seq<Elem>, y: seq<Elem>, k: int)
    requires Sorted(x)
    ensures WithKey(MergeSeq(x, y), k) == WithKey(x, k) + WithKey(y, k)
    decreases |x| + |y|
  {
    if x != [] && y != [] {
      var m := MergeSeq(x, y);
      if x[0].key <= y[0].key {
        SortedHead(x);
        MergeStable(x[1..], y, k);
        assert m[1..] == MergeSeq(x[1..], y);
      } else {
        MergeStable(x, y[1..], k);
        assert m[1..] == MergeSeq(x, y[1..]);
        if y[0].key == k {
          SortedAtLeast(x, k + 1);
          NoneWithKey(x, k);
        }
      }
    }
  }

  lemma WithKeySplit(s: seq<Elem>, h: nat, k: int)
    requires h <= |s|
    ensures WithKey(s, k) == WithKey(s[..h], k) + WithKey(s[h..], k)
  {
    WithKeyConcat(s[..h], s[h..], k);
    assert s == s[..h] + s[h..];
  }

  lemma {:induction false} SortStable(s: seq<Elem>, k: int)
    ensures WithKey(Sort(s), k) == WithKey(s, k)
    decreases |s|
  {
    if |s| >= 2 {
      var h := LeftHalf(|s|);
      SortStable(s[..h], k);
      SortStable(s[h..], k);
      SortSorts(s[..h]);
      MergeStable(Sort(s[..h]), Sort(s[h..]), k);
      WithKeySplit(s, h, k);
      assert Sort(s) == MergeSeq(Sort(s[..h]), Sort(s[h..]));
    }
  }

  lemma {:induction false} FoundWithKey(s: seq<Elem>, i: nat)
    requires i < |s|
    ensures WithKey(s, s[i].key) != []
  {
    if i > 0 {
      FoundWithKey(s[1..], i - 1);
    }
  }

  lemma {:induction false} WithKeyOnly(s: seq<Elem>, k: int)
    ensures WithKey(s, k) != [] ==> exists i :: 0 <= i < |s| && s[i].key == k
  {
    if s != [] && s[0].key != k {
      WithKeyOnly(s[1..], k);
      if WithKey(s, k) != [] {
        var i :| 0 <= i < |s[1..]| && s[1..][i].key == k;
        assert s[i + 1].key == k;
      }
    }
  }

  lemma HeadNotAbove(t: seq<Elem>, u: seq<Elem>)
    requires Sorted(t) && u != [] && WithKey(t, u[0].key) == WithKey(u, u[0].key)
    ensures t != [] && t[0].key <= u[0].key
  {
    FoundWithKey(u, 0);
    WithKeyOnly(t, u[0].key);
  }

  /** Two sorted sequences that agree on the elements of each key, in order, are the same sequence. */
  lemma {:induction false} StableSortUnique(t: seq<Elem>, u: seq<Elem>)
    requires Sorted(t) && Sorted(u) && SameByKey(t, u)
    ensures t == u
  {
    if u != [] {
      HeadNotAbove(t, u);
      HeadNotAbove(u, t);
      assert WithKey(t, t[0].key) == WithKey(u, t[0].key);
      assert t[0] == WithKey(t, t[0].key)[0] == u[0];
      forall k ensures WithKey(t[1..], k) == WithKey(u[1..], k) {
        assert WithKey(t, k) == WithKey(u, k);
        if k == t[0].key {
          assert WithKey(t[1..], k) == WithKey(t, k)[1..];
          assert WithKey(u[1..], k) == WithKey(u, k)[1..];
        }
      }
      SortedHead(t);
      SortedHead(u);
      StableSortUnique(t[1..], u[1..]);
      assert t == [t[0]] + t[1..] && u == [u[0]] + u[1..];
    } else if t != [] {
      HeadNotAbove(u, t);
    }
  }

  /** Sorting is the stable sort: the only sorted sequence that keeps the order of elements with equal keys. */
  lemma SortIsTheStableSort(s: seq<Elem>, t: seq<Elem>)
    ensures t == Sort(s) <==> Sorted(t) && SameByKey(t, s)
  {
    SortSorts(s);
    if t == Sort(s) {
      forall k ensures WithKey(t, k) == WithKey(s, k) {
        SortStable(s, k);
      }
    } else if Sorted(t) && SameByKey(t, s) {
      forall k ensures WithKey(t, k) == WithKey(Sort(s), k) {
        SortStable(s, k);
      }
      StableSortUnique(t, Sort(s));
    }
  }

  lemma TakenOut(e: Elem, rest: multiset<Elem>, x: multiset<Elem>, y: multiset<Elem>)
    requires rest == x + y
    ensures multiset{e} + rest == (multiset{e} + x) + y == x + (multiset{e} + y)
  {
  }

  lemma {:induction false} MergePermutes(x: seq<Elem>, y: seq<Elem>)
    ensures multiset(MergeSeq(x, y)) == multiset(x) + multiset(y)
    decreases |x| + |y|
  {
    if x != [] && y != [] {
      var m := MergeSeq(x, y);
      HeadCounts(m);
      if x[0].key <= y[0].key {
        MergePermutes(x[1..], y);
        HeadCounts(x);
        assert m[1..] == MergeSeq(x[1..], y);
        TakenOut(x[0], multiset(m[1..]), multiset(x[1..]), multiset(y));
      } else {
        MergePermutes(x, y[1..]);
        HeadCounts(y);
        assert m[1..] == MergeSeq(x, y[1..]);
        TakenOut(y[0], multiset(m[1..]), multiset(x), multiset(y[1..]));
      }
    }
  }

  lemma HeadCounts(s: seq<Elem>)
    requires s != []
    ensures multiset(s) == multiset{s[0]} + multiset(s[1..])
  {
    assert s == [s[0]] + s[1..];
  }

  lemma SplitPermutes(s: seq<Elem>, h: nat)
    requires h <= |s|
    ensures multiset(s) == multiset(s[..h]) + multiset(s[h..])
  {
    assert s == s[..h] + s[h..];
  }

  lemma {:induction false} SortPermutes(s: seq<Elem>)
    ensures multiset(Sort(s)) == multiset(s)
    decreases |s|
  {
    if |s| >= 2 {
      var h := LeftHalf(|s|);
      SortPermutes(s[..h]);
      SortPermutes(s[h..]);
      MergePermutes(Sort(s[..h]), Sort(s[h..]));
      SplitPermutes(s, h);
    }
  }
}
