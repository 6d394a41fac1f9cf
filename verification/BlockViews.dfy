/** What the NOLINT blocks met so far say about one line, folded one directive at a time. */
module BlockViews {
  import opened Nolint
  import opened LintRuns

  /** Is line `n` suppressed for `c`?  Asked once the main loop has done the lines before `hi`. */
  datatype Question = Question(file: seq<Mark>, hi: nat, c: Category, n: nat)

  /** Covered by a block that has ended; where the open block starts; does a BEGIN of that block name `c`? */
  datatype View = View(covered: bool, start: Bound, inside: bool)
  {
    predicate Valid() { inside ==> start.At? }

    function Uncovered(): View { View(false, start, inside) }

    /** The answer when the open block ends at `x`. */
    predicate Says(n: nat, x: Bound) { covered || (start.At? && inside && start.line <= n && UpTo(n, x)) }
  }

  const NOTHING := View(false, Never, false)

  function See(q: Question, v: View, d: Directive): (w: View)
    ensures v.Valid() ==> w.Valid()
  {
    if Opens(d) then View(v.covered, if v.start.Never? then At(d.line) else v.start, v.inside || q.c in d.categories)
    else if Closes(d) then View(v.Says(q.n, At(d.line)), Never, false)
    else v
  }

  function SeeAll(q: Question, v: View, h: seq<Directive>): (w: View)
    ensures v.Valid() ==> w.Valid()
    decreases |h|
  {
    if h == [] then v else SeeAll(q, See(q, v, h[0]), h[1..])
  }

  lemma {:induction false} SeeConcat(q: Question, v: View, h: seq<Directive>, k: seq<Directive>)
    ensures SeeAll(q, v, h + k) == SeeAll(q, SeeAll(q, v, h), k)
    decreases |h|
  {
    if h == [] {
      assert h + k == k;
    } else {
      assert (h + k)[1..] == h[1..] + k;
      SeeConcat(q, See(q, v, h[0]), h[1..], k);
    }
  }

  lemma SeeOneMore(q: Question, h: seq<Directive>, d: Directive)
    ensures SeeAll(q, NOTHING, h + [d]) == See(q, SeeAll(q, NOTHING, h), d)
  {
    SeeConcat(q, NOTHING, h, [d]);
  }

  lemma {:induction false} SeeStart(q: Question, h: seq<Directive>)
    ensures SeeAll(q, NOTHING, h).start == OpenSince(h)
    decreases |h|
  {
    if h != [] {
      var before, d := h[..|h| - 1], h[|h| - 1];
      assert h == before + [d];
      SeeOneMore(q, before, d);
      SeeStart(q, before);
    }
  }

  // ---------- what covers a line: directives aimed at it, or a block around it ----------

  ghost predicate Aimed(h: seq<Directive>, c: Category, n: nat) {
    exists i :: 0 <= i < |h| && c in h[i].categories && Targets(h[i], n)
  }

  lemma AimedOneMore(h: seq<Directive>, d: Directive, c: Category, n: nat)
    ensures Aimed(h + [d], c, n) <==> Aimed(h, c, n) || (c in d.categories && Targets(d, n))
  {
    var all := h + [d];
    if Aimed(h, c, n) {
      var i :| 0 <= i < |h| && c in h[i].categories && Targets(h[i], n);
      assert all[i] == h[i];
    }
    if c in d.categories && Targets(d, n) {
      assert all[|h|] == d;
    }
  }

  lemma CoveredOneMore(h: seq<Directive>, d: Directive, c: Category, n: nat, x: Bound)
    ensures CoveredUntil(h + [d], c, n, x) <==>
            CoveredUntil(h, c, n, if Closes(d) then At(d.line) else x) || CoversAt(h + [d], |h|, c, n, x)
  {
    var all, x' := h + [d], if Closes(d) then At(d.line) else x;
    if CoveredUntil(all, c, n, x) {
      var i :| 0 <= i < |all| && CoversAt(all, i, c, n, x);
      if i < |h| {
        CoversAtSnoc(h, d, i, c, n, x);
      }
    }
    if CoveredUntil(h, c, n, x') {
      var i :| 0 <= i < |h| && CoversAt(h, i, c, n, x');
      CoversAtSnoc(h, d, i, c, n, x);
      assert CoversAt(all, i, c, n, x);
    }
  }

  /** The fold is exact: for every history, whatever the order of its lines. */
  lemma {:induction false} ViewExact(q: Question, h: seq<Directive>, x: Bound)
    ensures CoveredUntil(h, q.c, q.n, x) <==> Aimed(h, q.c, q.n) || SeeAll(q, NOTHING, h).Says(q.n, x)
    decreases |h|
  {
    if h != [] {
      var before, d := h[..|h| - 1], h[|h| - 1];
      assert h == before + [d];
      ViewExact(q, before, if Closes(d) then At(d.line) else x);
      CoveredOneMore(before, d, q.c, q.n, x);
      CoversLast(before, d, q.c, q.n, x);
      AimedOneMore(before, d, q.c, q.n);
      SeeOneMore(q, before, d);
      SeeStart(q, before);
      SeeStart(q, h);
    }
  }
}
