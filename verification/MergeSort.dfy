/**
 Merge sort in place and the median taken from its result.  An element is a key and a tag that no code looks at:
 the tag tells equal keys apart, so that stability can be stated.  The specification sorts sequences, with the
 same halves and the same choice between equal keys; each method is proved to leave the sorted stretch between
 the untouched rest of the array, and to make as many comparisons as the specification counts.
 */
module MergeSort {

  datatype Elem = Elem(key: int, tag: int)

  // ---------- specification ----------

  function MergeSeq(x: seq<Elem>, y: seq<Elem>): (m: seq<Elem>)
    ensures |m| == |x| + |y|
    decreases |x| + |y|
  {
    if x == [] then y
    else if y == [] then x
    else if x[0].key <= y[0].key then [x[0]] + MergeSeq(x[1..], y)
    else [y[0]] + MergeSeq(x, y[1..])
  }

  /** The element comparisons of one merge. */
  function MergeCost(x: seq<Elem>, y: seq<Elem>): nat
    decreases |x| + |y|
  {
    if x == [] || y == [] then 0
    else if x[0].key <= y[0].key then 1 + MergeCost(x[1..], y)
    else 1 + MergeCost(x, y[1..])
  }

  /** The size of the left half: `mid - left + 1` for `mid = left + (right - left) / 2`. */
  function LeftHalf(n: nat): (h: nat)
    ensures n >= 2 ==> 1 <= h < n && n - h <= h <= n - h + 1
  {
    (n + 1) / 2
  }

  function Sort(s: seq<Elem>): (t: seq<Elem>)
    ensures |t| == |s|
    decreases |s|
  {
    if |s| < 2 then s
    else var h := LeftHalf(|s|); MergeSeq(Sort(s[..h]), Sort(s[h..]))
  }

  function SortCost(s: seq<Elem>): nat
    decreases |s|
  {
    if |s| < 2 then 0
    else
      var h := LeftHalf(|s|);
      SortCost(s[..h]) + SortCost(s[h..]) + MergeCost(Sort(s[..h]), Sort(s[h..]))
  }

  function Median(s: seq<Elem>): real
    requires s != []
  {
    var h := |s| / 2;
    if |s| % 2 == 0 then (s[h - 1].key + s[h].key) as real / 2.0 else s[h].key as real
  }

  // ---------- the code ----------

  lemma TakeLeft(done: seq<Elem>, x: seq<Elem>, i: nat, y: seq<Elem>, j: nat)
    requires i < |x| && j < |y| && x[i].key <= y[j].key
    ensures done + [x[i]] + MergeSeq(x[i + 1..], y[j..]) == done + MergeSeq(x[i..], y[j..])
    ensures 1 + MergeCost(x[i + 1..], y[j..]) == MergeCost(x[i..], y[j..])
  {
    assert x[i..][1..] == x[i + 1..];
    Shift(done, x[i], MergeSeq(x[i + 1..], y[j..]));
  }

  lemma TakeRight(done: seq<Elem>, x: seq<Elem>, i: nat, y: seq<Elem>, j: nat)
    requires i < |x| && j < |y| && x[i].key > y[j].key
    ensures done + [y[j]] + MergeSeq(x[i..], y[j + 1..]) == done + MergeSeq(x[i..], y[j..])
    ensures 1 + MergeCost(x[i..], y[j + 1..]) == MergeCost(x[i..], y[j..])
  {
    assert y[j..][1..] == y[j + 1..];
    Shift(done, y[j], MergeSeq(x[i..], y[j + 1..]));
  }

  lemma Shift(a: seq<Elem>, e: Elem, b: seq<Elem>)
    ensures (a + [e]) + b == a + ([e] + b)
  {
  }

  // The array is described as a concatenation of stretches, which the ghost parameters name: `before` and
  // `after` are what the caller wants left alone.

  lemma Middle(before: seq<Elem>, s: seq<Elem>, after: seq<Elem>)
    ensures (before + s + after)[|before|..|before| + |s|] == s
  {
  }

  lemma Regroup(a: seq<Elem>, b: seq<Elem>, c: seq<Elem>, d: seq<Elem>)
    ensures a + b + c + d == a + b + (c + d) == a + (b + c) + d == (a + b) + c + d
  {
  }

  lemma WriteNext(done: seq<Elem>, free: seq<Elem>, after: seq<Elem>, e: Elem)
    requires free != []
    ensures (done + free + after)[|done| := e] == (done + [e]) + free[1..] + after
  {
  }

  method CopyOut(arr: array<Elem>, from: nat, n: nat,
                 ghost before: seq<Elem>, ghost s: seq<Elem>, ghost after: seq<Elem>)
    returns (copy: array<Elem>)
    requires arr[..] == before + s + after && from == |before| && n == |s|
    ensures fresh(copy) && copy[..] == s
  {
    Middle(before, s, after);
    copy := new Elem[n](_ => Elem(0, 0));
    for i := 0 to n
      invariant forall k :: 0 <= k < i ==> copy[k] == s[k]
    {
      copy[i] := arr[from + i];
    }
  }

  /** Copies `half` from `i` on to `arr` from `k` on. */
  method CopyRest(arr: array<Elem>, k: nat, half: array<Elem>, i: nat,
                  ghost before: seq<Elem>, ghost free: seq<Elem>, ghost after: seq<Elem>)
    requires arr != half && i <= half.Length && |free| == half.Length - i
    requires arr[..] == before + free + after && k == |before|
    modifies arr
    ensures arr[..] == before + half[i..] + after
  {
    ghost var done, left := before, free;
    for n := i to half.Length
      invariant |left| == half.Length - n && |done| == k + (n - i)
      invariant arr[..] == done + left + after && done == before + half[i..n]
    {
      WriteNext(done, left, after, half[n]);
      done, left := done + [half[n]], left[1..];
      assert half[i..n + 1] == half[i..n] + [half[n]];
      arr[k + (n - i)] := half[n];
    }
    assert half[i..half.Length] == half[i..];
  }

  /** The loop that compares: `taken` is merged when one of the halves has been taken completely. */
  method MergeHeads(arr: array<Elem>, left: nat, l: array<Elem>, r: array<Elem>,
                    ghost before: seq<Elem>, ghost space: seq<Elem>, ghost after: seq<Elem>)
    returns (i: nat, j: nat, ghost taken: seq<Elem>, ghost free: seq<Elem>, ghost comparisons: nat)
    requires arr != l && arr != r && |space| == l.Length + r.Length
    requires arr[..] == before + space + after && left == |before|
    modifies arr
    ensures i <= l.Length && j <= r.Length && |taken| == i + j && |free| == (l.Length - i) + (r.Length - j)
    ensures arr[..] == before + taken + free + after
    ensures taken + (l[i..] + r[j..]) == MergeSeq(l[..], r[..])
    ensures comparisons == MergeCost(l[..], r[..])
  {
    i, j, taken, free, comparisons := 0, 0, [], space, 0;
    ghost var x, y := l[..], r[..];
    assert before + [] == before;
    while i < l.Length && j < r.Length
      invariant i <= l.Length && j <= r.Length && |taken| == i + j && |free| == (l.Length - i) + (r.Length - j)
      invariant arr[..] == before + taken + free + after
      invariant taken + MergeSeq(x[i..], y[j..]) == MergeSeq(x, y)
      invariant comparisons + MergeCost(x[i..], y[j..]) == MergeCost(x, y)
    {
      ghost var e := if x[i].key <= y[j].key then x[i] else y[j];
      WriteNext(before + taken, free, after, e);
      Regroup(before, taken, [e], free[1..]);
      comparisons := comparisons + 1;
      if l[i].key <= r[j].key {
        TakeLeft(taken, x, i, y, j);
        arr[left + i + j] := l[i];
        i := i + 1;
      } else {
        TakeRight(taken, x, i, y, j);
        arr[left + i + j] := r[j];
        j := j + 1;
      }
      taken, free := taken + [e], free[1..];
    }
    OneLeft(x[i..], y[j..]);
  }

  lemma OneLeft(x: seq<Elem>, y: seq<Elem>)
    requires x == [] || y == []
    ensures MergeSeq(x, y) == x + y && MergeCost(x, y) == 0
  {
  }

  method Merge(arr: array<Elem>, left: nat, mid: int, right: int,
               ghost before: seq<Elem>, ghost x: seq<Elem>, ghost y: seq<Elem>, ghost after: seq<Elem>)
    returns (ghost comparisons: nat)
    requires arr[..] == before + x + y + after
    requires left == |before| && mid - left + 1 == |x| && right - mid == |y|
    modifies arr
    ensures arr[..] == before + MergeSeq(x, y) + after && comparisons == MergeCost(x, y)
  {
    var n1, n2 := mid - left + 1, right - mid;
    Regroup(before, x, y, after);
    var l := CopyOut(arr, left, n1, before, x, y + after);
    var r := CopyOut(arr, mid + 1, n2, before + x, y, after);
    ghost var taken, free;
    var i, j;
    i, j, taken, free, comparisons := MergeHeads(arr, left, l, r, before, x + y, after);
    ghost var free1, free2 := free[..n1 - i], free[n1 - i..];
    assert free == free1 + free2;
    Regroup(before + taken, free1, free2, after);
    CopyRest(arr, left + i + j, l, i, before + taken, free1, free2 + after);
    Regroup(before + taken, l[i..], free2, after);
    CopyRest(arr, left + n1 + j, r, j, before + taken + l[i..], free2, after);
    Combine(before, taken, l[i..], r[j..], after);
  }

  lemma Combine(before: seq<Elem>, taken: seq<Elem>, x: seq<Elem>, y: seq<Elem>, after: seq<Elem>)
    ensures before + taken + x + y + after == before + (taken + (x + y)) + after
  {
  }

  method MergeSortRange(arr: array<Elem>, left: nat, right: int,
                        ghost before: seq<Elem>, ghost s: seq<Elem>, ghost after: seq<Elem>)
    returns (ghost comparisons: nat)
    requires arr[..] == before + s + after && left == |before| && right + 1 - left == |s|
    modifies arr
    ensures arr[..] == before + Sort(s) + after && comparisons == SortCost(s)
    decreases right - left
  {
    comparisons := 0;
    if left < right {
      var mid := left + (right - left) / 2;
      ghost var h := mid - left + 1;
      ghost var x, y := s[..h], s[h..];
      assert s == x + y;
      Regroup(before, x, y, after);
      ghost var c1 := MergeSortRange(arr, left, mid, before, x, y + after);
      Regroup(before, Sort(x), y, after);
      ghost var c2 := MergeSortRange(arr, mid + 1, right, before + Sort(x), y, after);
      ghost var c3 := Merge(arr, left, mid, right, before, Sort(x), Sort(y), after);
      comparisons := c1 + c2 + c3;
    }
  }

  /** Sorts the first `size` elements. */
  method SortArray(arr: array<Elem>, size: nat) returns (ghost comparisons: nat)
    requires size <= arr.Length
    modifies arr
    ensures arr[..size] == Sort(old(arr[..size])) && arr[size..] == old(arr[size..])
    ensures comparisons == SortCost(old(arr[..size]))
  {
    ghost var whole, s, after := arr[..], arr[..size], arr[size..];
    Cut(whole, size);
    comparisons := MergeSortRange(arr, 0, size - 1, [], s, after);
    Uncut(arr[..], Sort(s), after);
  }

  lemma Cut(whole: seq<Elem>, n: nat)
    requires n <= |whole|
    ensures whole == [] + whole[..n] + whole[n..]
  {
  }

  lemma Uncut(whole: seq<Elem>, s: seq<Elem>, after: seq<Elem>)
    requires whole == [] + s + after
    ensures whole[..|s|] == s && whole[|s|..] == after
  {
  }

  method CalculateMedian(arr: array<Elem>, size: nat) returns (median: real)
    requires 0 < size <= arr.Length
    ensures median == Median(arr[..size])
  {
    var middle := size / 2;
    if size % 2 == 0 {
      return (arr[middle - 1].key + arr[middle].key) as real / 2.0;
    } else {
      return arr[middle].key as real;
    }
  }
}
