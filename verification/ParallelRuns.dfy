/**
 Two readings of one file, side by side: as cpplint parses it, and line by line.  A line that is parsed
 ahead is parsed again in its turn.  A view is what a reading has seen of the blocks, for one category and
 one line; after each parse the two views agree on what they will say when the main loop has ended, although
 they may differ until then.
 */
module ParallelRuns {
  import opened Nolint
  import opened LintRuns
  import opened BlockViews

  /** Line `m` opens or closes a block. */
  predicate Blocks(file: seq<Mark>, m: int) {
    0 <= m < |file| && file[m].Marked? && (file[m].kind.Begin? || file[m].kind.End?) && file[m].categories != []
  }

  ghost predicate NoBlocks(file: seq<Mark>, lo: int, up: int) {
    forall m :: lo <= m < up ==> !Blocks(file, m)
  }

  /** From line `k`, a look at `end` parses no BEGIN or END ahead of another one, except as the pair of `end`. */
  ghost predicate Harmless(file: seq<Mark>, hi: nat, k: nat, end: nat) {
    forall m :: end - 1 <= m <= end && m > k && Blocks(file, m) ==> m < hi && NoBlocks(file, k + 1, end - 1)
  }

  // ---------- playing lines ----------

  function Play(q: Question, v: View, k: int): (w: View)
    ensures v.Valid() ==> w.Valid()
  {
    if Blocks(q.file, k) then See(q, v, Nolint(q.file[k].kind, q.file[k].categories, k)) else v
  }

  lemma PlayParse(q: Question, v: View, k: int, h: seq<Directive>)
    ensures SeeAll(q, v, Parse(q.file, k) + h) == SeeAll(q, Play(q, v, k), h)
  {
    var p := Parse(q.file, k);
    if p == [] {
      assert p + h == h;
    } else {
      assert (p + h)[1..] == h;
    }
  }

  lemma PlayLast(q: Question, v: View, k: int)
    ensures SeeAll(q, v, Parse(q.file, k)) == Play(q, v, k)
  {
    PlayParse(q, v, k, []);
    assert Parse(q.file, k) + [] == Parse(q.file, k);
  }

  lemma PlayPair(q: Question, v: View, end: int)
    ensures SeeAll(q, v, Pair(q.file, end)) == Play(q, Play(q, v, end - 1), end)
  {
    PlayParse(q, v, end - 1, Parse(q.file, end));
    PlayLast(q, Play(q, v, end - 1), end);
  }

  /** The answer once the main loop has played the lines from `k` on. */
  predicate Ends(q: Question, v: View, k: nat)
    requires k <= q.hi
    decreases q.hi - k
  {
    if k == q.hi then v.Says(q.n, Never) else Ends(q, Play(q, v, k), k + 1)
  }

  predicate BeginsAt(q: Question, k: int) { Blocks(q.file, k) && q.file[k].kind.Begin? }

  predicate EndsAt(q: Question, k: int) { Blocks(q.file, k) && q.file[k].kind.End? }

  /** A view that says no more than another, when the lines from `k` on are still to come. */
  predicate Below(u: View, v: View, k: nat) {
    && (u.covered ==> v.covered)
    && (u.start.At? ==> v.start.At? && v.start.line <= u.start.line)
    && (u.inside ==> v.inside)
    && (v.start.At? ==> v.start.line <= k || u.start.At?)
  }

  lemma {:induction false} BelowEnds(q: Question, u: View, v: View, k: nat)
    requires k <= q.hi && u.Valid() && v.Valid() && Below(u, v, k) && Ends(q, u, k)
    ensures Ends(q, v, k)
    decreases q.hi - k
  {
    if k < q.hi {
      BelowEnds(q, Play(q, u, k), Play(q, v, k), k + 1);
    }
  }

  lemma {:induction false} EndsSplits(q: Question, v: View, k: nat)
    requires k <= q.hi
    ensures Ends(q, v, k) <==> v.covered || Ends(q, v.Uncovered(), k)
    decreases q.hi - k
  {
    if k < q.hi {
      var u := v.Uncovered();
      EndsSplits(q, Play(q, v, k), k + 1);
      EndsSplits(q, Play(q, u, k), k + 1);
    }
  }

  /** Being named by either of two BEGINs of the block. */
  lemma {:induction false} EndsJoin(q: Question, start: nat, a: bool, b: bool, k: nat)
    requires k <= q.hi && Ends(q, View(false, At(start), a || b), k)
    ensures Ends(q, View(false, At(start), a), k) || Ends(q, View(false, At(start), b), k)
    decreases q.hi - k
  {
    if k < q.hi {
      if BeginsAt(q, k) {
        var y := q.c in q.file[k].categories;
        EndsJoin(q, start, a || y, b || y, k + 1);
      } else if !EndsAt(q, k) {
        EndsJoin(q, start, a, b, k + 1);
      }
    }
  }

  lemma {:induction false} Skip(q: Question, v: View, k: nat, m: nat)
    requires k <= m <= q.hi && NoBlocks(q.file, k, m)
    ensures Ends(q, v, k) <==> Ends(q, v, m)
    decreases m - k
  {
    if k < m {
      Skip(q, v, k + 1, m);
    }
  }

  // ---------- the run `x` and the line-by-line run `l`, when the main loop is about to play line `t` ----------

  /** The two runs will say the same. */
  ghost predicate Agree(q: Question, x: View, l: View, t: nat)
    requires t <= q.hi
  {
    && (Ends(q, x, t) <==> Ends(q, l, t))
    && (Ends(q, x.Uncovered(), t) ==> Ends(q, l.Uncovered(), t))
  }

  /** The block open in `x` has started no earlier than the one open in `l`, on the next BEGIN at the latest. */
  ghost predicate Placed(q: Question, x: View, l: View, t: nat) {
    x.start.At? ==>
      && BeginsAt(q, x.start.line)
      && x.start.line < q.hi
      && (if l.start.At? then x.start.line >= l.start.line else x.start.line >= t)
      && (forall m :: t <= m < x.start.line ==> !BeginsAt(q, m))
  }

  ghost predicate Inv(q: Question, x: View, l: View, t: nat) {
    && t <= q.hi <= |q.file|
    && x.Valid()
    && l.Valid()
    && (l.start.At? ==> l.start.line < t)
    && Agree(q, x, l, t)
    && Placed(q, x, l, t)
  }

  lemma MainAgrees(q: Question, x: View, l: View, t: nat)
    requires Inv(q, x, l, t) && t < q.hi
    ensures Agree(q, Play(q, x, t), Play(q, l, t), t + 1)
  {
    var x', l' := Play(q, x, t), Play(q, l, t);
    if EndsAt(q, t) {
      assert x'.Uncovered() == l'.Uncovered();
    } else {
      assert x'.Uncovered() == Play(q, x.Uncovered(), t) && l'.Uncovered() == Play(q, l.Uncovered(), t);
    }
  }

  lemma MainStep(q: Question, x: View, l: View, t: nat)
    requires Inv(q, x, l, t) && t < q.hi
    ensures Inv(q, Play(q, x, t), Play(q, l, t), t + 1)
  {
    MainAgrees(q, x, l, t);
    assert BeginsAt(q, t) || EndsAt(q, t) || !Blocks(q.file, t);
  }

  /** A line that is parsed ahead changes nothing if what it covers is covered anyway. */
  lemma Between(q: Question, x: View, y: View, l: View, t: nat)
    requires Inv(q, x, l, t)
    requires (x.covered ==> y.covered) && (y.covered ==> x.covered || l.covered)
    requires Ends(q, x.Uncovered(), t) ==> Ends(q, y.Uncovered(), t)
    requires Ends(q, y.Uncovered(), t) ==> Ends(q, l.Uncovered(), t)
    ensures Agree(q, y, l, t)
  {
    EndsSplits(q, x, t);
    EndsSplits(q, y, t);
    EndsSplits(q, l, t);
  }

  // ---------- a line parsed again ----------

  /** A BEGIN of the open block, once more. */
  lemma BeginAgain(q: Question, x: View, l: View, t: nat, j: nat)
    requires Inv(q, x, l, t) && j < t && BeginsAt(q, j)
    requires l.start.At? && l.start.line <= j && (q.c in q.file[j].categories ==> l.inside)
    ensures Inv(q, Play(q, x, j), l, t)
  {
    var y, named := Play(q, x, j), q.c in q.file[j].categories;
    if Ends(q, x.Uncovered(), t) {
      BelowEnds(q, x.Uncovered(), y.Uncovered(), t);
    }
    if Ends(q, y.Uncovered(), t) {
      EndsJoin(q, y.start.line, x.inside, named, t);
      if Ends(q, View(false, y.start, named), t) {
        BelowEnds(q, View(false, y.start, named), l.Uncovered(), t);
      } else if x.start.Never? {
        BelowEnds(q, View(false, y.start, false), l.Uncovered(), t);
      }
    }
    Between(q, x, y, l, t);
  }

  /** An END, when no block is open. */
  lemma EndAgain(q: Question, x: View, l: View, t: nat, j: nat)
    requires Inv(q, x, l, t) && j < t && EndsAt(q, j) && l.start.Never?
    ensures Inv(q, Play(q, x, j), l, t)
  {
    assert l.Uncovered() == NOTHING;
    Between(q, x, Play(q, x, j), l, t);
  }

  /** The line-by-line view. */
  function LineView(q: Question, t: nat): View
    requires t <= q.hi <= |q.file|
  {
    if t == 0 then NOTHING else Play(q, LineView(q, t - 1), t - 1)
  }

  lemma {:induction false} LineViewValid(q: Question, t: nat)
    requires t <= q.hi <= |q.file|
    ensures var l := LineView(q, t); l.Valid() && (l.start.At? ==> l.start.line < t)
  {
    if t > 0 {
      LineViewValid(q, t - 1);
    }
  }

  lemma OneAgain(q: Question, x: View, t: nat, j: nat)
    requires j < t <= q.hi <= |q.file| && Inv(q, x, LineView(q, t), t) && t <= j + 2 && NoBlocks(q.file, j + 1, t)
    ensures Inv(q, Play(q, x, j), LineView(q, t), t)
  {
    var l, before := LineView(q, t), LineView(q, j);
    LineViewValid(q, j);
    assert j + 2 == t ==> l == Play(q, LineView(q, j + 1), j + 1);
    assert l == Play(q, before, j);
    if BeginsAt(q, j) {
      BeginAgain(q, x, l, t, j);
    } else if EndsAt(q, j) {
      EndAgain(q, x, l, t, j);
    }
  }

  /** A block of two lines, once more. */
  lemma BlockAgain(q: Question, x: View, t: nat)
    requires 2 <= t <= q.hi <= |q.file| && Inv(q, x, LineView(q, t), t) && BeginsAt(q, t - 2) && EndsAt(q, t - 1)
    ensures Inv(q, Play(q, Play(q, x, t - 2), t - 1), LineView(q, t), t)
  {
    var before, l := LineView(q, t - 2), LineView(q, t);
    LineViewValid(q, t - 2);
    assert LineView(q, t - 1) == Play(q, before, t - 2);
    assert l.Uncovered() == NOTHING;
    Between(q, x, Play(q, Play(q, x, t - 2), t - 1), l, t);
  }

  /** The END of a block and the BEGIN of the next, once more. */
  lemma NextBlockAgain(q: Question, x: View, t: nat)
    requires 2 <= t <= q.hi <= |q.file| && Inv(q, x, LineView(q, t), t) && EndsAt(q, t - 2) && BeginsAt(q, t - 1)
    ensures Inv(q, Play(q, Play(q, x, t - 2), t - 1), LineView(q, t), t)
  {
    var before, l := LineView(q, t - 2), LineView(q, t);
    LineViewValid(q, t - 2);
    assert LineView(q, t - 1) == Play(q, before, t - 2);
    var y := Play(q, Play(q, x, t - 2), t - 1);
    assert y.Uncovered() == l.Uncovered();
    Between(q, x, y, l, t);
  }

  /** Two BEGINs, or two ENDs, once more. */
  lemma SameAgain(q: Question, x: View, t: nat)
    requires 2 <= t <= q.hi <= |q.file| && Inv(q, x, LineView(q, t), t)
    requires (BeginsAt(q, t - 2) && BeginsAt(q, t - 1)) || (EndsAt(q, t - 2) && EndsAt(q, t - 1))
    ensures Inv(q, Play(q, Play(q, x, t - 2), t - 1), LineView(q, t), t)
  {
    var before, l := LineView(q, t - 2), LineView(q, t);
    LineViewValid(q, t - 2);
    assert LineView(q, t - 1) == Play(q, before, t - 2);
    if BeginsAt(q, t - 2) {
      BeginAgain(q, x, l, t, t - 2);
      BeginAgain(q, Play(q, x, t - 2), l, t, t - 1);
    } else {
      EndAgain(q, x, l, t, t - 2);
      EndAgain(q, Play(q, x, t - 2), l, t, t - 1);
    }
  }

  /** The line before a closing brace that has been reached, and its own. */
  lemma PairAgain(q: Question, x: View, t: nat)
    requires 1 <= t <= q.hi <= |q.file| && Inv(q, x, LineView(q, t), t)
    ensures Inv(q, Play(q, Play(q, x, t - 2), t - 1), LineView(q, t), t)
  {
    if !Blocks(q.file, t - 2) {
      OneAgain(q, x, t, t - 1);
    } else if !Blocks(q.file, t - 1) {
      OneAgain(q, x, t, t - 2);
    } else if BeginsAt(q, t - 2) && EndsAt(q, t - 1) {
      BlockAgain(q, x, t);
    } else if EndsAt(q, t - 2) && BeginsAt(q, t - 1) {
      NextBlockAgain(q, x, t);
    } else {
      SameAgain(q, x, t);
    }
  }

  // ---------- a line parsed ahead ----------

  lemma OneAhead(q: Question, x: View, l: View, t: nat, m: nat)
    requires Inv(q, x, l, t) && t <= m
    requires Blocks(q.file, m) ==> m < q.hi && NoBlocks(q.file, t, m)
    ensures Inv(q, Play(q, x, m), l, t)
  {
    if Blocks(q.file, m) {
      var y := Play(q, x, m);
      Skip(q, x, t, m);
      Skip(q, y, t, m);
      if BeginsAt(q, m) {
        var u := x.Uncovered();
        Skip(q, u, t, m);
        Skip(q, y.Uncovered(), t, m);
        assert y.Uncovered() == Play(q, u, m);
      } else if Ends(q, NOTHING, t) {
        BelowEnds(q, NOTHING, l.Uncovered(), t);
      }
    }
  }

  lemma SkipPair(q: Question, v: View, t: nat, a: nat)
    requires t <= a && a + 1 < q.hi && NoBlocks(q.file, t, a)
    ensures Ends(q, v, t) <==> Ends(q, Play(q, Play(q, v, a), a + 1), a + 2)
  {
    Skip(q, v, t, a);
  }

  /** Once a pair of BEGINs or ENDs is parsed, parsing it again changes nothing. */
  lemma PairTwice(q: Question, v: View, a: nat)
    requires v.Valid() && Blocks(q.file, a) && Blocks(q.file, a + 1)
    requires BeginsAt(q, a) && v.start.At? ==> v.start.line <= a
    ensures var y := Play(q, Play(q, v, a), a + 1); Play(q, Play(q, y, a), a + 1) == y
  {
    var y := Play(q, Play(q, v, a), a + 1);
  }

  /** Parsing a pair of lines ahead, the main loop ends as if it had not. */
  lemma PairAgrees(q: Question, x: View, l: View, t: nat, a: nat)
    requires Inv(q, x, l, t) && t <= a && a + 1 < q.hi && NoBlocks(q.file, t, a)
    requires Blocks(q.file, a) && Blocks(q.file, a + 1)
    ensures var y := Play(q, Play(q, x, a), a + 1); Agree(q, y, l, t)
  {
    var x1 := Play(q, x, a);
    var y := Play(q, x1, a + 1);
    PairTwice(q, x, a);
    SkipPair(q, x, t, a);
    SkipPair(q, y, t, a);
    if Ends(q, y.Uncovered(), t) {
      if EndsAt(q, a + 1) {
        BelowEnds(q, NOTHING, l.Uncovered(), t);
      } else if BeginsAt(q, a) {
        var u := x.Uncovered();
        PairTwice(q, u, a);
        SkipPair(q, u, t, a);
        SkipPair(q, y.Uncovered(), t, a);
      } else {
        NextBlockAhead(q, y, l, t, a);
      }
    }
  }

  lemma NextBlockAhead(q: Question, y: View, l: View, t: nat, a: nat)
    requires l.Valid() && t <= a && a + 1 < q.hi <= |q.file| && NoBlocks(q.file, t, a)
    requires EndsAt(q, a) && BeginsAt(q, a + 1)
    requires y.start == At(a + 1) && y.inside == (q.c in q.file[a + 1].categories) && Ends(q, y.Uncovered(), t)
    ensures Ends(q, l.Uncovered(), t)
  {
    var u, v := y.Uncovered(), l.Uncovered();
    SkipPair(q, u, t, a);
    SkipPair(q, v, t, a);
    BelowEnds(q, Play(q, Play(q, u, a), a + 1), Play(q, Play(q, v, a), a + 1), a + 2);
  }

  lemma PairAhead(q: Question, x: View, l: View, t: nat, a: nat)
    requires Inv(q, x, l, t) && t <= a && a + 1 < q.hi && NoBlocks(q.file, t, a)
    requires Blocks(q.file, a) && Blocks(q.file, a + 1)
    ensures Inv(q, Play(q, Play(q, x, a), a + 1), l, t)
  {
    PairAgrees(q, x, l, t, a);
  }

  /** The line before a closing brace that is further away, and its own. */
  lemma LookAhead(q: Question, x: View, l: View, t: nat, end: nat)
    requires Inv(q, x, l, t) && 0 < t < end && Harmless(q.file, q.hi, t - 1, end)
    ensures Inv(q, Play(q, Play(q, x, end - 1), end), l, t)
  {
    if Blocks(q.file, end - 1) && Blocks(q.file, end) {
      PairAhead(q, x, l, t, end - 1);
    } else {
      OneAhead(q, x, l, t, end - 1);
      OneAhead(q, Play(q, x, end - 1), l, t, end);
    }
  }
}
