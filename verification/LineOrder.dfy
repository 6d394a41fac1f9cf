/** When the order in which cpplint parses a file gives what the file says line by line. */
module LineOrder {
  import opened Nolint
  import opened LintRuns
  import opened BlockViews
  import opened ParallelRuns

  /** The directives of the lines before `hi`, each once and in order. */
  function Lines(file: seq<Mark>, hi: nat): (h: seq<Directive>)
    requires hi <= |file|
  {
    if hi == 0 then [] else Lines(file, hi - 1) + Parse(file, hi - 1)
  }

  /** What the file says, read line by line. */
  function InLineOrder(globals: seq<Category>, file: seq<Mark>, hi: nat): seq<Directive>
    requires hi <= |file|
  {
    WholeFile(globals) + Lines(file, hi)
  }

  ghost predicate HarmlessGuard(file: seq<Mark>, hi: nat, guard: seq<nat>) {
    forall i :: 0 <= i < |guard| && Blocks(file, guard[i]) ==> guard[i] < hi && NoBlocks(file, 0, guard[i])
  }

  ghost predicate Undisturbed(file: seq<Mark>, guard: seq<nat>, looks: seq<seq<nat>>, hi: nat)
    requires hi <= |looks|
  {
    && HarmlessGuard(file, hi, guard)
    && (forall k, i :: 0 <= k < hi && 0 <= i < |looks[k]| ==> Harmless(file, hi, k, looks[k][i]))
  }

  // ---------- whole runs ----------

  lemma LookKeepsInv(q: Question, x: View, k: nat, end: nat)
    requires k < q.hi <= |q.file| && k <= end && Harmless(q.file, q.hi, k, end)
    requires Inv(q, x, LineView(q, k + 1), k + 1)
    ensures Inv(q, SeeAll(q, x, Pair(q.file, end)), LineView(q, k + 1), k + 1)
  {
    var t, l := k + 1, LineView(q, k + 1);
    PlayPair(q, x, end);
    if end == k {
      PairAgain(q, x, t);
    } else if end == t {
      OneAgain(q, x, t, k);
      OneAhead(q, Play(q, x, k), l, t, t);
    } else {
      LookAhead(q, x, l, t, end);
    }
  }

  lemma {:induction false} LooksKeepInv(q: Question, x: View, k: nat, ends: seq<nat>)
    requires k < q.hi <= |q.file| && Inv(q, x, LineView(q, k + 1), k + 1)
    requires forall i :: 0 <= i < |ends| ==> k <= ends[i] && Harmless(q.file, q.hi, k, ends[i])
    ensures Inv(q, SeeAll(q, x, Ahead(q.file, ends)), LineView(q, k + 1), k + 1)
    decreases |ends|
  {
    if ends != [] {
      LookKeepsInv(q, x, k, ends[0]);
      SeeConcat(q, x, Pair(q.file, ends[0]), Ahead(q.file, ends[1..]));
      LooksKeepInv(q, SeeAll(q, x, Pair(q.file, ends[0])), k, ends[1..]);
    }
  }

  lemma {:induction false} LoopKeepsInv(q: Question, x: View, looks: seq<seq<nat>>, lo: nat)
    requires lo <= q.hi <= |q.file| == |looks| && Forwards(looks) && Undisturbed(q.file, [], looks, q.hi)
    requires Inv(q, x, LineView(q, lo), lo)
    ensures Inv(q, SeeAll(q, x, MainLoop(q.file, looks, lo, q.hi)), LineView(q, q.hi), q.hi)
    decreases q.hi - lo
  {
    if lo < q.hi {
      var y := Play(q, x, lo);
      MainStep(q, x, LineView(q, lo), lo);
      LooksKeepInv(q, y, lo, looks[lo]);
      PlayParse(q, x, lo, Ahead(q.file, looks[lo]));
      SeeConcat(q, x, Turn(q.file, looks, lo), MainLoop(q.file, looks, lo + 1, q.hi));
      LoopKeepsInv(q, SeeAll(q, y, Ahead(q.file, looks[lo])), looks, lo + 1);
    }
  }

  lemma {:induction false} GuardKeepsInv(q: Question, x: View, guard: seq<nat>)
    requires HarmlessGuard(q.file, q.hi, guard) && Inv(q, x, NOTHING, 0)
    ensures Inv(q, SeeAll(q, x, HeaderGuard(q.file, guard)), NOTHING, 0)
    decreases |guard|
  {
    if guard != [] {
      OneAhead(q, x, NOTHING, 0, guard[0]);
      PlayParse(q, x, guard[0], HeaderGuard(q.file, guard[1..]));
      GuardKeepsInv(q, Play(q, x, guard[0]), guard[1..]);
    }
  }

  lemma {:induction false} NoBlockSeen(q: Question, h: seq<Directive>)
    requires forall i :: 0 <= i < |h| ==> h[i].Global?
    ensures SeeAll(q, NOTHING, h) == NOTHING
    decreases |h|
  {
    if h != [] {
      NoBlockSeen(q, h[1..]);
    }
  }

  ghost predicate Shows(q: Question, h: seq<Directive>, l: View) { SeeAll(q, NOTHING, h) == l }

  lemma ShowsNext(q: Question, h: seq<Directive>, l: View, k: int, all: seq<Directive>)
    requires Shows(q, h, l) && all == h + Parse(q.file, k)
    ensures Shows(q, all, Play(q, l, k))
  {
    SeeConcat(q, NOTHING, h, Parse(q.file, k));
    PlayLast(q, l, k);
  }

  lemma {:induction false} LinesShow(q: Question, t: nat)
    requires t <= q.hi <= |q.file|
    ensures Shows(q, Lines(q.file, t), LineView(q, t))
  {
    if t > 0 {
      var h, l, all := Lines(q.file, t - 1), LineView(q, t - 1), Lines(q.file, t);
      assert Shows(q, h, l) by {
        LinesShow(q, t - 1);
      }
      assert all == h + Parse(q.file, t - 1);
      ShowsNext(q, h, l, t - 1, all);
      assert LineView(q, t) == Play(q, l, t - 1);
    }
  }

  /** The blocks of a run that is not disturbed say what the lines in order say. */
  lemma BlocksFollow(q: Question, globals: seq<Category>, guard: seq<nat>, looks: seq<seq<nat>>)
    requires q.hi <= |q.file| == |looks| && Forwards(looks) && Undisturbed(q.file, guard, looks, q.hi)
    ensures SeeAll(q, NOTHING, History(globals, guard, q.file, looks, q.hi)).Says(q.n, Never)
       <==> SeeAll(q, NOTHING, InLineOrder(globals, q.file, q.hi)).Says(q.n, Never)
  {
    var early, loop := HeaderGuard(q.file, guard), MainLoop(q.file, looks, 0, q.hi);
    NoBlockSeen(q, WholeFile(globals));
    SeeConcat(q, NOTHING, WholeFile(globals), early + loop);
    SeeConcat(q, NOTHING, early, loop);
    SeeConcat(q, NOTHING, WholeFile(globals), Lines(q.file, q.hi));
    LinesShow(q, q.hi);
    GuardKeepsInv(q, NOTHING, guard);
    LoopKeepsInv(q, SeeAll(q, NOTHING, early), looks, 0);
  }

  // ---------- directives aimed at one line ----------

  lemma AimedConcat(u: seq<Directive>, v: seq<Directive>, c: Category, n: nat)
    ensures Aimed(u + v, c, n) <==> Aimed(u, c, n) || Aimed(v, c, n)
  {
    var h := u + v;
    if Aimed(u, c, n) {
      var i :| 0 <= i < |u| && c in u[i].categories && Targets(u[i], n);
      assert h[i] == u[i];
    }
    if Aimed(v, c, n) {
      var i :| 0 <= i < |v| && c in v[i].categories && Targets(v[i], n);
      assert h[|u| + i] == v[i];
    }
  }

  lemma {:induction false} LinesFrom(file: seq<Mark>, hi: nat)
    requires hi <= |file|
    ensures From(file, Lines(file, hi), 0)
    ensures forall i :: 0 <= i < |Lines(file, hi)| ==> Lines(file, hi)[i].line < hi
  {
    if hi > 0 {
      LinesFrom(file, hi - 1);
      assert Lines(file, hi) == Lines(file, hi - 1) + Parse(file, hi - 1);
    }
  }

  lemma {:induction false} MetInLines(file: seq<Mark>, hi: nat, d: Directive)
    requires hi <= |file| && d.Nolint? && d.line < hi && Parse(file, d.line) == [d]
    ensures d in Lines(file, hi)
  {
    if d.line < hi - 1 {
      MetInLines(file, hi - 1, d);
    }
  }

  lemma AimedFollow(file: seq<Mark>, globals: seq<Category>, guard: seq<nat>, looks: seq<seq<nat>>, hi: nat,
                    c: Category, n: nat)
    requires hi <= |file| == |looks| && Forwards(looks) && n < hi
    ensures Aimed(History(globals, guard, file, looks, hi), c, n) <==> Aimed(InLineOrder(globals, file, hi), c, n)
  {
    var early, loop, lines := HeaderGuard(file, guard), MainLoop(file, looks, 0, hi), Lines(file, hi);
    AimedConcat(WholeFile(globals), early + loop, c, n);
    AimedConcat(WholeFile(globals), lines, c, n);
    AimedConcat(early, loop, c, n);
    GuardFrom(file, guard);
    MainLoopFrom(file, looks, 0, hi);
    FromConcat(file, early, loop, -1);
    LinesFrom(file, hi);
    if Aimed(early + loop, c, n) {
      var i :| 0 <= i < |early + loop| && c in (early + loop)[i].categories && Targets((early + loop)[i], n);
      MetInLines(file, hi, (early + loop)[i]);
    }
    if Aimed(lines, c, n) {
      var i :| 0 <= i < |lines| && c in lines[i].categories && Targets(lines[i], n);
      MetInLoop(file, looks, 0, hi, lines[i]);
      var k :| 0 <= k < |loop| && loop[k] == lines[i];
      assert Aimed(loop, c, n);
    }
  }

  lemma CoveredFollows(q: Question, globals: seq<Category>, guard: seq<nat>, looks: seq<seq<nat>>)
    requires q.hi <= |q.file| == |looks| && Forwards(looks) && q.n < q.hi
    requires Undisturbed(q.file, guard, looks, q.hi)
    ensures Covered(History(globals, guard, q.file, looks, q.hi), q.c, q.n)
       <==> Covered(InLineOrder(globals, q.file, q.hi), q.c, q.n)
  {
    ViewExact(q, History(globals, guard, q.file, looks, q.hi), Never);
    ViewExact(q, InLineOrder(globals, q.file, q.hi), Never);
    AimedFollow(q.file, globals, guard, looks, q.hi, q.c, q.n);
    BlocksFollow(q, globals, guard, looks);
  }

  /** For each line before `hi`, the table of the run answers what the file says line by line. */
  ghost predicate Follows(globals: seq<Category>, guard: seq<nat>, file: seq<Mark>, looks: seq<seq<nat>>, hi: nat)
    requires hi <= |file| == |looks|
  {
    forall c, n :: 0 <= n < hi ==>
      (Reported(History(globals, guard, file, looks, hi), c, n) <==> Meant(InLineOrder(globals, file, hi), c, n))
  }

  /** A run that parses no BEGIN or END ahead of another one answers as the file says line by line. */
  lemma RunFollowsLines(globals: seq<Category>, guard: seq<nat>, file: seq<Mark>, looks: seq<seq<nat>>, hi: nat)
    requires hi <= |file| == |looks| && Forwards(looks) && Undisturbed(file, guard, looks, hi)
    ensures Follows(globals, guard, file, looks, hi)
  {
    forall c, n | 0 <= n < hi
      ensures Reported(History(globals, guard, file, looks, hi), c, n) <==> Meant(InLineOrder(globals, file, hi), c, n)
    {
      RunIsExact(globals, guard, file, looks, hi, c, n);
      CoveredFollows(Question(file, hi, c, n), globals, guard, looks);
      CoveredFollows(Question(file, hi, All, n), globals, guard, looks);
    }
  }

  lemma {:induction false} LinesInOrder(file: seq<Mark>, hi: nat)
    requires hi <= |file| && (hi > 0 ==> file[0] == Plain)
    ensures InOrder(Lines(file, hi))
  {
    if hi > 0 {
      LinesInOrder(file, hi - 1);
      LinesFrom(file, hi - 1);
      assert Lines(file, hi) == Lines(file, hi - 1) + Parse(file, hi - 1);
    }
  }

  /** Read line by line, the table itself would answer what the file says; line 0 is a comment of cpplint's own. */
  lemma LinesAreExact(globals: seq<Category>, file: seq<Mark>, hi: nat)
    requires hi <= |file| && (hi > 0 ==> file[0] == Plain)
    ensures Exact(InLineOrder(globals, file, hi))
  {
    var u, v := WholeFile(globals), Lines(file, hi);
    LinesInOrder(file, hi);
    var h := u + v;
    assert forall i :: 0 <= i < |h| && h[i].Nolint? ==> i >= |u| && h[i] == v[i - |u|];
    InOrderExact(h);
  }

  // ---------- conditions that are easy to check ----------

  /** No BEGIN or END is parsed before its turn. */
  ghost predicate BlocksInTurn(file: seq<Mark>, guard: seq<nat>, looks: seq<seq<nat>>) {
    && (forall i :: 0 <= i < |guard| ==> !Blocks(file, guard[i]))
    && (forall k, i, m ::
          0 <= k < |looks| && 0 <= i < |looks[k]| && looks[k][i] - 1 <= m <= looks[k][i] && m > k ==> !Blocks(file, m))
  }

  lemma InTurnFollowsLines(globals: seq<Category>, guard: seq<nat>, file: seq<Mark>, looks: seq<seq<nat>>, hi: nat)
    requires hi <= |file| == |looks| && Forwards(looks) && BlocksInTurn(file, guard, looks)
    ensures Follows(globals, guard, file, looks, hi)
  {
    RunFollowsLines(globals, guard, file, looks, hi);
  }

  /** Every closing brace is at most two lines below its opening brace. */
  ghost predicate Near(looks: seq<seq<nat>>) {
    forall k, i :: 0 <= k < |looks| && 0 <= i < |looks[k]| ==> looks[k][i] <= k + 2
  }

  /** Short blocks of code disturb nothing, wherever the directives are. */
  lemma NearFollowsLines(globals: seq<Category>, file: seq<Mark>, looks: seq<seq<nat>>)
    requires |file| == |looks| && Forwards(looks) && Near(looks)
    ensures Follows(globals, [], file, looks, |file|)
  {
    RunFollowsLines(globals, [], file, looks, |file|);
  }
}
