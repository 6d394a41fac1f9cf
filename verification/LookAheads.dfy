/** How far ahead cpplint may look: exactly two lines, if the file's own meaning is to be kept whatever it says. */
module LookAheads {
  import opened Nolint
  import opened LintRuns
  import opened BlockViews
  import opened LineOrder
  import opened ParallelRuns

  /** As CheckTrailingSemicolon does: one closing brace a line, and it is in the file; line 0 is a comment. */
  ghost predicate OneLook(looks: seq<seq<nat>>) {
    && (forall k :: 0 <= k < |looks| ==> |looks[k]| <= 1 && (looks[k] != [] ==> k <= looks[k][0] < |looks|))
    && (looks != [] ==> looks[0] == [])
  }

  /** Every file read in this way is answered as it says line by line. */
  ghost predicate AlwaysFollows(guard: seq<nat>, looks: seq<seq<nat>>) {
    forall globals, file :: |file| == |looks| && (file != [] ==> file[0] == Plain) ==>
      Follows(globals, guard, file, looks, |file|)
  }

  // ---------- a file that goes wrong when line `k` looks at line `e` ----------

  const A := Named("a")
  const B := Named("b")

  /** A block for `a` on lines `k` and `k + 1`, and one for `b` from line `e` on. */
  function Spoiled(len: nat, k: nat, e: nat): (file: seq<Mark>)
    ensures |file| == len
  {
    seq(len, i requires 0 <= i < len =>
      if i == k then Marked(Begin, [A]) else if i == k + 1 then Marked(End, [A])
      else if i == e then Marked(Begin, [B]) else Plain)
  }

  /** Asking about line `k` in that file. */
  ghost predicate Asks(q: Question, k: nat, e: nat) {
    k + 3 <= e < |q.file| == q.hi && q.file == Spoiled(|q.file|, k, e) && q.n == k
  }

  lemma PlaySpoiled(q: Question, v: View, k: nat, e: nat, m: int)
    requires Asks(q, k, e)
    ensures Play(q, v, m) ==
      if m == k then View(v.covered, if v.start.Never? then At(k) else v.start, v.inside || q.c == A)
      else if m == k + 1 then View(v.Says(k, At(k + 1)), Never, false)
      else if m == e then View(v.covered, if v.start.Never? then At(e) else v.start, v.inside || q.c == B)
      else v
  {
  }

  /** Before line `e` is parsed, no block for `b` is open. */
  predicate Early(v: View, k: nat) { !v.inside && (v.start.At? ==> v.start.line == k) }

  /** Line `e` has joined the block of line `k`. */
  predicate Joined(v: View, k: nat) { v.covered || (v.start == At(k) && v.inside) }

  lemma {:induction false} JoinedStays(q: Question, v: View, k: nat, e: nat, h: seq<Directive>)
    requires Asks(q, k, e) && Joined(v, k) && From(q.file, h, -1)
    ensures Joined(SeeAll(q, v, h), k)
    decreases |h|
  {
    if h != [] {
      assert SeeAll(q, See(q, v, h[0]), []) == See(q, v, h[0]);
      PlaySpoiled(q, v, k, e, h[0].line);
      JoinedStays(q, See(q, v, h[0]), k, e, h[1..]);
    }
  }

  /** A turn before line `k` parses no line from `e` on. */
  lemma EarlyTurn(q: Question, v: View, k: nat, e: nat, looks: seq<seq<nat>>, lo: nat)
    requires Asks(q, k, e) && q.c == B && Early(v, k) && lo < k < |looks| && OneLook(looks)
    requires looks[lo] != [] ==> looks[lo][0] < e
    ensures Early(SeeAll(q, v, Turn(q.file, looks, lo)), k)
  {
    PlayParse(q, v, lo, Ahead(q.file, looks[lo]));
    PlaySpoiled(q, v, k, e, lo);
    if looks[lo] != [] {
      var w, end: int := Play(q, v, lo), looks[lo][0];
      assert Ahead(q.file, looks[lo]) == Pair(q.file, end) by {
        assert looks[lo][1..] == [];
      }
      PlayPair(q, w, end);
      PlaySpoiled(q, w, k, e, end - 1);
      PlaySpoiled(q, Play(q, w, end - 1), k, e, end);
    }
  }

  /** From line `k`, line `e` joins the block that was only meant for lines `k` and `k + 1`. */
  lemma JoiningTurn(q: Question, v: View, k: nat, e: nat, looks: seq<seq<nat>>)
    requires Asks(q, k, e) && q.c == B && Early(v, k) && k < |looks| && looks[k] == [e]
    ensures Joined(SeeAll(q, v, Turn(q.file, looks, k)), k)
  {
    var w := Play(q, v, k);
    PlayParse(q, v, k, Ahead(q.file, looks[k]));
    PlaySpoiled(q, v, k, e, k);
    assert Ahead(q.file, looks[k]) == Pair(q.file, e) by {
      assert looks[k][1..] == [];
    }
    PlayPair(q, w, e);
    PlaySpoiled(q, w, k, e, e - 1);
    PlaySpoiled(q, w, k, e, e);
  }

  lemma {:induction false} SpoiledRun(q: Question, v: View, k: nat, e: nat, looks: seq<seq<nat>>, lo: nat)
    requires Asks(q, k, e) && q.c == B && Early(v, k) && |looks| == |q.file| && OneLook(looks)
    requires lo <= k && looks[k] == [e] && (forall j :: 0 <= j < k && looks[j] != [] ==> looks[j][0] < e)
    ensures Joined(SeeAll(q, v, MainLoop(q.file, looks, lo, q.hi)), k)
    decreases k - lo
  {
    var turn, rest := Turn(q.file, looks, lo), MainLoop(q.file, looks, lo + 1, q.hi);
    SeeConcat(q, v, turn, rest);
    if lo < k {
      EarlyTurn(q, v, k, e, looks, lo);
      SpoiledRun(q, SeeAll(q, v, turn), k, e, looks, lo + 1);
    } else {
      JoiningTurn(q, v, k, e, looks);
      MainLoopFrom(q.file, looks, lo + 1, q.hi);
      JoinedStays(q, SeeAll(q, v, turn), k, e, rest);
    }
  }

  /** Line by line, nothing but a block for `a` contains line `k`. */
  lemma {:induction false} SpoiledLines(q: Question, k: nat, e: nat, t: nat)
    requires Asks(q, k, e) && q.c != A && t <= q.hi
    ensures var l := LineView(q, t);
            && !l.covered
            && (t <= k ==> l.start.Never?)
            && (l.start.At? ==> (t == k + 1 && !l.inside) || l.start.line == e)
  {
    if t > 0 {
      SpoiledLines(q, k, e, t - 1);
      LineViewValid(q, t - 1);
      PlaySpoiled(q, LineView(q, t - 1), k, e, t - 1);
    }
  }

  lemma OnlyBlocks(file: seq<Mark>, k: nat, e: nat, h: seq<Directive>, c: Category, n: nat)
    requires file == Spoiled(|file|, k, e) && From(file, h, 0)
    ensures !Aimed(h, c, n)
  {
    forall i | 0 <= i < |h| ensures !Targets(h[i], n) {
      assert Parse(file, h[i].line) == [h[i]];
    }
  }

  lemma NotCovered(q: Question, k: nat, e: nat)
    requires Asks(q, k, e) && q.c != A
    ensures !Covered(InLineOrder([], q.file, q.hi), q.c, k)
  {
    var h := Lines(q.file, q.hi);
    assert InLineOrder([], q.file, q.hi) == h;
    LinesFrom(q.file, q.hi);
    OnlyBlocks(q.file, k, e, h, q.c, k);
    SpoiledLines(q, k, e, q.hi);
    LinesShow(q, q.hi);
    ViewExact(q, h, Never);
  }

  lemma SpoiledIsWrong(guard: seq<nat>, looks: seq<seq<nat>>, k: nat, e: nat)
    requires OneLook(looks) && Forwards(looks) && k + 3 <= e < |looks| && looks[k] == [e]
    requires forall j :: 0 <= j < k && looks[j] != [] ==> looks[j][0] < e
    requires |guard| <= 1 && forall i :: 0 <= i < |guard| ==> guard[i] <= k
    ensures var file := Spoiled(|looks|, k, e);
            Reported(History([], guard, file, looks, |file|), B, k) && !Meant(InLineOrder([], file, |file|), B, k)
  {
    var file := Spoiled(|looks|, k, e);
    var q, h := Question(file, |file|, B, k), History([], guard, file, looks, |file|);
    var early, loop := HeaderGuard(file, guard), MainLoop(file, looks, 0, |file|);
    assert h == early + loop;
    SeeConcat(q, NOTHING, early, loop);
    GuardSeen(q, guard);
    if guard != [] {
      PlaySpoiled(q, NOTHING, k, e, guard[0]);
    }
    SpoiledRun(q, SeeAll(q, NOTHING, early), k, e, looks, 0);
    ViewExact(q, h, Never);
    RunIsExact([], guard, file, looks, |file|, B, k);
    NotCovered(q, k, e);
    NotCovered(Question(file, |file|, All, k), k, e);
  }

  lemma GuardSeen(q: Question, guard: seq<nat>)
    requires |guard| <= 1
    ensures SeeAll(q, NOTHING, HeaderGuard(q.file, guard)) ==
            if guard == [] then NOTHING else Play(q, NOTHING, guard[0])
  {
    if guard != [] {
      assert guard[1..] == [];
      PlayParse(q, NOTHING, guard[0], HeaderGuard(q.file, guard[1..]));
    }
  }

  /** The first line whose closing brace is more than two lines below. */
  lemma {:induction false} FirstFar(looks: seq<seq<nat>>, k: nat) returns (j: nat)
    requires OneLook(looks) && k < |looks| && looks[k] != [] && looks[k][0] > k + 2
    ensures j <= k && looks[j] != [] && looks[j][0] > j + 2
    ensures forall i :: 0 <= i < j && looks[i] != [] ==> looks[i][0] <= i + 2
  {
    if i :| 0 <= i < k && looks[i] != [] && looks[i][0] > i + 2 {
      j := FirstFar(looks, i);
    } else {
      j := k;
    }
  }

  // ---------- a file that goes wrong when the header guard reads line `g` ----------

  /** A block for `a` from line 1 on, joined by one for `b` from line `g` on. */
  function Joining(len: nat, g: nat): (file: seq<Mark>)
    ensures |file| == len
  {
    seq(len, i requires 0 <= i < len =>
      if i == 1 then Marked(Begin, [A]) else if i == g then Marked(Begin, [B]) else Plain)
  }

  lemma {:induction false} StartStays(q: Question, v: View, g: nat, h: seq<Directive>)
    requires q.file == Joining(|q.file|, g) && From(q.file, h, -1)
    requires !v.covered && v.start == At(g)
    ensures var w := SeeAll(q, v, h); !w.covered && w.start == At(g)
    decreases |h|
  {
    if h != [] {
      StartStays(q, See(q, v, h[0]), g, h[1..]);
    }
  }

  lemma {:induction false} JoiningLines(q: Question, g: nat, t: nat)
    requires q.file == Joining(|q.file|, g) && q.c == A && q.n == 1 < g < |q.file| == q.hi && t <= q.hi
    ensures var l := LineView(q, t); if t <= 1 then l == NOTHING else l.start == At(1) && l.inside
  {
    if t > 0 {
      JoiningLines(q, g, t - 1);
    }
  }

  lemma NoneAimed(file: seq<Mark>, h: seq<Directive>, g: nat, c: Category)
    requires file == Joining(|file|, g) && From(file, h, -1)
    ensures !Aimed(h, c, 1)
  {
    forall i | 0 <= i < |h| ensures !Targets(h[i], 1) {
      assert Parse(file, h[i].line) == [h[i]];
    }
  }

  /** The block is taken to start on line `g`, for every category. */
  lemma StartsLate(q: Question, looks: seq<seq<nat>>, g: nat)
    requires q.file == Joining(|q.file|, g) && q.n == 1 < g < |q.file| == q.hi == |looks| && Forwards(looks)
    ensures !Covered(History([], [g], q.file, looks, q.hi), q.c, 1)
  {
    var early, loop := HeaderGuard(q.file, [g]), MainLoop(q.file, looks, 0, q.hi);
    var v := SeeAll(q, NOTHING, early);
    assert From(q.file, early + loop, -1) && From(q.file, loop, -1) by {
      GuardFrom(q.file, [g]);
      MainLoopFrom(q.file, looks, 0, q.hi);
      FromConcat(q.file, early, loop, -1);
    }
    assert !v.covered && v.start == At(g) by {
      GuardSeen(q, [g]);
      PlayLast(q, NOTHING, g);
    }
    StartStays(q, v, g, loop);
    SeeConcat(q, NOTHING, early, loop);
    NoneAimed(q.file, early + loop, g, q.c);
    ViewExact(q, early + loop, Never);
    assert History([], [g], q.file, looks, q.hi) == early + loop;
  }

  lemma JoiningIsWrong(looks: seq<seq<nat>>, g: nat)
    requires Forwards(looks) && 1 < g < |looks|
    ensures var file := Joining(|looks|, g);
            !Reported(History([], [g], file, looks, |file|), A, 1) && Meant(InLineOrder([], file, |file|), A, 1)
  {
    var file := Joining(|looks|, g);
    var q := Question(file, |file|, A, 1);
    StartsLate(q, looks, g);
    StartsLate(Question(file, |file|, All, 1), looks, g);
    RunIsExact([], [g], file, looks, |file|, A, 1);
    assert InLineOrder([], file, |file|) == Lines(file, |file|);
    JoiningLines(q, g, |file|);
    LinesShow(q, |file|);
    ViewExact(q, Lines(file, |file|), Never);
  }

  // ---------- exactly when every file is read rightly ----------

  /** The line that the header guard reads is line 1, or the comment before it. */
  ghost predicate AtTop(guard: seq<nat>) {
    forall i :: 0 <= i < |guard| ==> guard[i] <= 1
  }

  lemma NearTopUndisturbed(file: seq<Mark>, guard: seq<nat>, looks: seq<seq<nat>>)
    requires |file| == |looks| && (file != [] ==> file[0] == Plain)
    requires AtTop(guard) && Near(looks) && (forall i :: 0 <= i < |guard| ==> guard[i] < |looks|)
    ensures Undisturbed(file, guard, looks, |file|)
  {
    forall k, i | 0 <= k < |looks| && 0 <= i < |looks[k]| ensures Harmless(file, |file|, k, looks[k][i]) {
      var end: int := looks[k][i];
      assert NoBlocks(file, k + 1, end - 1);
    }
  }

  lemma NearTopFollows(guard: seq<nat>, looks: seq<seq<nat>>)
    requires Forwards(looks) && AtTop(guard) && Near(looks) && (forall i :: 0 <= i < |guard| ==> guard[i] < |looks|)
    ensures AlwaysFollows(guard, looks)
  {
    forall globals, file | |file| == |looks| && (file != [] ==> file[0] == Plain)
      ensures Follows(globals, guard, file, looks, |file|)
    {
      NearTopUndisturbed(file, guard, looks);
      RunFollowsLines(globals, guard, file, looks, |file|);
    }
  }

  lemma FarIsWrong(guard: seq<nat>, looks: seq<seq<nat>>)
    requires OneLook(looks) && |guard| <= 1 && AtTop(guard) && !Near(looks)
    ensures !AlwaysFollows(guard, looks)
  {
    var k, i :| 0 <= k < |looks| && 0 <= i < |looks[k]| && looks[k][i] > k + 2;
    var j := FirstFar(looks, k);
    var file := Spoiled(|looks|, j, looks[j][0]);
    assert looks[j] == [looks[j][0]];
    SpoiledIsWrong(guard, looks, j, looks[j][0]);
    assert file[0] == Plain && !Follows([], guard, file, looks, |file|);
  }

  /**
   Whatever a file says, the real order of parsing suppresses what the file says line by line, if and only
   if the header guard reads no line below the first and no closing brace that is looked at is more than two
   lines below its opening brace.  A header guard of the right name reads one line, its #endif.
   */
  lemma FollowsIffNear(guard: seq<nat>, looks: seq<seq<nat>>)
    requires OneLook(looks) && |guard| <= 1 && (forall i :: 0 <= i < |guard| ==> guard[i] < |looks|)
    ensures AlwaysFollows(guard, looks) <==> AtTop(guard) && Near(looks)
  {
    if !AtTop(guard) {
      var g := guard[0];
      JoiningIsWrong(looks, g);
      assert guard == [g];
      assert !Follows([], guard, Joining(|looks|, g), looks, |looks|);
    } else if Near(looks) {
      NearTopFollows(guard, looks);
    } else {
      FarIsWrong(guard, looks);
    }
  }

  // ---------- an END that is read ahead ----------

  const EARLY_END: seq<Mark> :=
    [Plain, Marked(Begin, [All]), Marked(End, [All]), Plain, Marked(Begin, [All]), Marked(End, [All])]

  /** The brace of line 1 closes on line 5. */
  const FAR_BRACE: seq<seq<nat>> := [[], [5], [], [], [], []]

  lemma EarlyEndRun()
    ensures var b, e := Nolint(Begin, [All], 4), Nolint(End, [All], 5);
            History([], [], EARLY_END, FAR_BRACE, 6) == [Nolint(Begin, [All], 1), b, e, Nolint(End, [All], 2), b, e]
  {
    var f, b := EARLY_END, FAR_BRACE;
    var b4, e5 := Nolint(Begin, [All], 4), Nolint(End, [All], 5);
    assert Ahead(f, []) == [] && Ahead(f, [5]) == Pair(f, 5) + Ahead(f, []);
    assert Turn(f, b, 0) == [] && Turn(f, b, 1) == [Nolint(Begin, [All], 1), b4, e5];
    assert Turn(f, b, 2) == [Nolint(End, [All], 2)] && Turn(f, b, 3) == [] && Turn(f, b, 4) == [b4];
    assert Turn(f, b, 5) == [e5];
    assert MainLoop(f, b, 6, 6) == [];
    assert MainLoop(f, b, 5, 6) == [e5];
    assert MainLoop(f, b, 4, 6) == [b4, e5];
    assert MainLoop(f, b, 3, 6) == [b4, e5];
    assert MainLoop(f, b, 2, 6) == [Nolint(End, [All], 2), b4, e5];
    assert MainLoop(f, b, 1, 6) == [Nolint(Begin, [All], 1), b4, e5, Nolint(End, [All], 2), b4, e5];
    assert WholeFile([]) == [] && HeaderGuard(f, []) == [];
  }

  lemma EarlyEndLines()
    ensures InLineOrder([], EARLY_END, 6) ==
      [Nolint(Begin, [All], 1), Nolint(End, [All], 2), Nolint(Begin, [All], 4), Nolint(End, [All], 5)]
  {
    var f := EARLY_END;
    assert Lines(f, 0) == [];
    assert Lines(f, 1) == [];
    assert Lines(f, 2) == [Nolint(Begin, [All], 1)];
    assert Lines(f, 3) == [Nolint(Begin, [All], 1), Nolint(End, [All], 2)];
    assert Lines(f, 4) == Lines(f, 3);
    assert Lines(f, 5) == Lines(f, 4) + [Nolint(Begin, [All], 4)];
    assert Lines(f, 6) == Lines(f, 5) + [Nolint(End, [All], 5)];
  }

  lemma EarlyEndCovers(h: seq<Directive>)
    requires |h| == 6 && h[0] == Nolint(Begin, [All], 1) && !Closes(h[1]) && h[2] == Nolint(End, [All], 5)
    ensures Covered(h, All, 3)
  {
    assert h[..1][..0] == [] && OpenSince(h[..1]) == At(1);
    assert EndFrom(h, 1, Never) == EndFrom(h, 2, Never) == At(5);
    assert CoversAt(h, 0, All, 3, Never);
  }

  lemma TwoBlocks(l: seq<Directive>)
    requires l == [Nolint(Begin, [All], 1), Nolint(End, [All], 2), Nolint(Begin, [All], 4), Nolint(End, [All], 5)]
    ensures !Meant(l, All, 3) && !Reported(l, All, 3)
  {
    InOrderExact(l);
    assert !CoversAt(l, 0, All, 3, Never) by {
      assert EndFrom(l, 1, Never) == At(2);
    }
    assert !CoversAt(l, 2, All, 3, Never) by {
      assert l[..3][..2] == l[..2];
      assert OpenSince(l[..3]) == At(4);
    }
  }

  lemma FarRun(file: seq<Mark>, looks: seq<seq<nat>>, h: seq<Directive>)
    requires |file| == |looks| == 6 && Forwards(looks) && h == History([], [], file, looks, 6)
    requires |h| == 6 && h[0] == Nolint(Begin, [All], 1) && !Closes(h[1]) && h[2] == Nolint(End, [All], 5)
    ensures Reported(History([], [], file, looks, 6), All, 3)
  {
    EarlyEndCovers(h);
    RunIsExact([], [], file, looks, 6, All, 3);
  }

  /** Line 3 is in no block of the file. */
  lemma EarlyEndMeant()
    ensures !Meant(InLineOrder([], EARLY_END, 6), All, 3) && !Reported(InLineOrder([], EARLY_END, 6), All, 3)
  {
    EarlyEndLines();
    TwoBlocks(InLineOrder([], EARLY_END, 6));
  }

  /** Line 3 is in no block of the file, but line 5, read from line 1, ends the block of line 1 behind it. */
  lemma EndReadAhead()
    ensures Reported(History([], [], EARLY_END, FAR_BRACE, 6), All, 3)
    ensures !Meant(InLineOrder([], EARLY_END, 6), All, 3) && !Reported(InLineOrder([], EARLY_END, 6), All, 3)
  {
    EarlyEndMeant();
    EarlyEndRun();
    FarRun(EARLY_END, FAR_BRACE, History([], [], EARLY_END, FAR_BRACE, 6));
  }
}
