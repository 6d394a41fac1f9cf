/**
 From `<` and from `>`: what the matchers find over whole files, and that they are inverse to each other where no
 angle bracket is part of an operator.
 */
module AngleMatching {
  import opened Brackets
  import opened Matchers
  import opened MatcherInverse
  import opened AngleTokens
  import opened AngleWords

  // ---------- forwards over lines ----------

  /** What the lines from `k` on mean to the forward matcher. */
  function EndText(rx: Regexes, lines: seq<string>, k: nat): seq<Token>
    decreases |lines| - k
  {
    if k >= |lines| then [] else EndTokens(rx, lines[k], 0) + EndText(rx, lines, k + 1)
  }

  /** Where place `p` of line `l` is in the text. */
  function Pos(lines: seq<string>, l: nat, p: nat): nat
    requires l <= |lines|
  {
    Offset(lines, l) + p
  }

  /** What the file means to the forward matcher. */
  function Meaning(rx: Regexes, lines: seq<string>): seq<Token> { EndText(rx, lines, 0) }

  ghost predicate EndsAtTrack(lines: seq<string>, place: Place, from: nat, t: Track) {
    match place
    case Found(l, e) => l < |lines| && 1 <= e <= |lines[l]| && Offset(lines, l) + e > from
                        && t == Partner(Offset(lines, l) + e - from)
    case Missing => !t.Partner?
  }

  lemma LaterEnds(lines: seq<string>, place: Place, from: nat, t: Track, k: nat)
    requires EndsAtTrack(lines, place, from + k, t)
    ensures EndsAtTrack(lines, place, from, Later(k, t))
  {
  }

  lemma StackThere(stack: string, angles: nat, inner: string)
    requires IsEndStack(stack, angles, inner) && angles >= 1
    ensures stack != ""
  {
    var top :| EndStack(stack, angles, inner, top);
    assert |stack| == angles + |top|;
  }

  lemma {:induction false} CloseFromFollows(rx: Regexes, lines: seq<string>, k: nat, i: nat, stack: string,
                                            angles: nat, inner: string)
    requires k < |lines| && i <= |lines[k]| && angles >= 1 && IsEndStack(stack, angles, inner)
    ensures EndsAtTrack(lines, CloseFrom(rx, lines, k, EndInLine(rx, lines[k], i, stack)), Offset(lines, k) + i,
                        Follow(EndTokens(rx, lines[k], i) + EndText(rx, lines, k + 1), angles, inner))
    decreases |lines| - k
  {
    var here, rest := EndTokens(rx, lines[k], i), EndText(rx, lines, k + 1);
    var t, r := Follow(here, angles, inner), EndInLine(rx, lines[k], i, stack);
    FollowConcat(here, rest, angles, inner);
    EndInLineFollows(rx, lines[k], i, stack, angles, inner);
    if t.Going? {
      StackThere(r.stack, t.angles, t.inner);
      if k + 1 < |lines| {
        CloseFromFollows(rx, lines, k + 1, 0, r.stack, t.angles, t.inner);
        LaterEnds(lines, CloseFrom(rx, lines, k, r), Offset(lines, k) + i, Follow(rest, t.angles, t.inner), |here|);
      } else {
        assert rest == [] && here + rest == here;
      }
    }
  }

  /** A `<` that is neither half of `<<`, nor part of `<=` or `operator<`. */
  predicate CountsAsStart(rx: Regexes, line: string, p: nat)
    requires p < |line|
  {
    line[p] == '<' && EndToken(rx, line, p).Up? && !ShiftOrCompare(line, p)
  }

  lemma CloseFollows(rx: Regexes, lines: seq<string>, l: nat, p: nat)
    requires l < |lines| && p < |lines[l]| && CountsAsStart(rx, lines[l], p)
    ensures EndsAtTrack(lines, Close(rx, lines, l, p), Offset(lines, l) + p + 1,
                        Follow(EndTokens(rx, lines[l], p + 1) + EndText(rx, lines, l + 1), 1, ""))
  {
    assert "" + "<" == "<" && EndTurn(rx, lines[l], p, "") == Go("<", 1);
    assert EndStack("<", 1, "", "") by {
      assert Angles('<', 1) + "" == "<";
    }
    CloseFromFollows(rx, lines, l, p + 1, "<", 1, "");
  }

  // ---------- where a token stands ----------

  lemma {:induction false} EndTokensAt(rx: Regexes, line: string, i: nat, j: nat)
    requires i <= j < |line|
    ensures EndTokens(rx, line, i)[j - i] == EndToken(rx, line, j)
    decreases j - i
  {
    if i < j {
      EndTokensAt(rx, line, i + 1, j);
    }
  }

  lemma EndTokensRest(rx: Regexes, line: string, i: nat)
    requires i <= |line|
    ensures EndTokens(rx, line, 0)[i..] == EndTokens(rx, line, i)
  {
    forall j | i <= j < |line| ensures EndTokens(rx, line, 0)[j] == EndTokens(rx, line, i)[j - i] {
      EndTokensAt(rx, line, 0, j);
      EndTokensAt(rx, line, i, j);
    }
  }

  lemma EndTokensProper(rx: Regexes, line: string)
    ensures Proper(EndTokens(rx, line, 0))
  {
    forall j | 0 <= j < |line| ensures ProperAt(EndTokens(rx, line, 0), j) {
      EndTokensAt(rx, line, 0, j);
    }
  }

  lemma {:induction false} EndTextProper(rx: Regexes, lines: seq<string>, k: nat)
    ensures Proper(EndText(rx, lines, k))
    decreases |lines| - k
  {
    if k < |lines| {
      EndTokensProper(rx, lines[k]);
      EndTextProper(rx, lines, k + 1);
      ProperConcat(EndTokens(rx, lines[k], 0), EndText(rx, lines, k + 1));
    }
  }

  lemma {:induction false} EndTextFrom(rx: Regexes, lines: seq<string>, k: nat)
    requires k <= |lines|
    ensures Offset(lines, k) <= |EndText(rx, lines, 0)|
    ensures EndText(rx, lines, 0)[Offset(lines, k)..] == EndText(rx, lines, k)
  {
    if k > 0 {
      var t, o := EndText(rx, lines, 0), Offset(lines, k - 1);
      EndTextFrom(rx, lines, k - 1);
      assert t[o..] == EndTokens(rx, lines[k - 1], 0) + EndText(rx, lines, k);
      assert t[o..][|lines[k - 1]|..] == EndText(rx, lines, k);
    }
  }

  lemma DropMore(t: seq<Token>, o: nat, i: nat, u: seq<Token>, v: seq<Token>)
    requires o <= |t| && t[o..] == u + v && i <= |u|
    ensures o + i <= |t| && t[o + i..] == u[i..] + v
  {
    assert t[o..][i..] == t[o + i..];
  }

  lemma EndTextRest(rx: Regexes, lines: seq<string>, l: nat, i: nat)
    requires l < |lines| && i <= |lines[l]|
    ensures var a := Offset(lines, l) + i;
            a <= |EndText(rx, lines, 0)| &&
            EndText(rx, lines, 0)[a..] == EndTokens(rx, lines[l], i) + EndText(rx, lines, l + 1)
  {
    EndTextFrom(rx, lines, l);
    EndTokensRest(rx, lines[l], i);
    DropMore(EndText(rx, lines, 0), Offset(lines, l), i, EndTokens(rx, lines[l], 0), EndText(rx, lines, l + 1));
  }

  lemma EndTextAt(rx: Regexes, lines: seq<string>, l: nat, p: nat)
    requires l < |lines| && p < |lines[l]|
    ensures Offset(lines, l) + p < |EndText(rx, lines, 0)|
    ensures EndText(rx, lines, 0)[Offset(lines, l) + p] == EndToken(rx, lines[l], p)
  {
    EndTextRest(rx, lines, l, p);
    assert EndTokens(rx, lines[l], p)[0] == EndToken(rx, lines[l], p);
    assert EndText(rx, lines, 0)[Offset(lines, l) + p..][0] == EndToken(rx, lines[l], p);
  }

  /** `<` at `a` and `>` just before `b`, with a body between them. */
  ghost predicate AnglePair(t: seq<Token>, a: nat, b: nat) {
    a + 2 <= b <= |t| && t[a].Up? && t[b - 1].Down? && Body(t[a + 1..b - 1])
  }

  lemma SliceOfRest(t: seq<Token>, a: nat, b: nat)
    requires a + 2 <= b <= |t|
    ensures t[a + 1..][..b - a - 2] == t[a + 1..b - 1] && t[a + 1..][b - a - 2] == t[b - 1]
  {
  }

  lemma PairInText(t: seq<Token>, a: nat, b: nat)
    requires Proper(t) && a < |t| && t[a].Up? && b <= |t|
    ensures (b > a + 1 && Follow(t[a + 1..], 1, "") == Partner(b - a - 1)) <==> AnglePair(t, a, b)
  {
    ProperSlice(t, a + 1, |t|);
    assert t[a + 1..|t|] == t[a + 1..];
    if b > a + 1 {
      PartnerIff(t[a + 1..], b - a - 1);
      SliceOfRest(t, a, b);
    }
  }

  lemma FoundIff(lines: seq<string>, place: Place, from: nat, t: Track, l: nat, e: nat)
    requires EndsAtTrack(lines, place, from, t) && l < |lines| && 1 <= e <= |lines[l]|
    ensures place == Found(l, e) <==> Pos(lines, l, e) > from && t == Partner(Pos(lines, l, e) - from)
  {
    match place
    case Found(l1, e1) =>
      if Pos(lines, l1, e1) == Pos(lines, l, e) {
        PlaceUnique(lines, l1, e1 - 1, l, e - 1);
      }
    case Missing =>
  }

  /** From a `<` that counts, the forward matcher returns exactly the place past the `>` of its pair. */
  lemma CloseFindsAngles(rx: Regexes, lines: seq<string>, l: nat, p: nat, l': nat, e: nat)
    requires l < |lines| && p < |lines[l]| && CountsAsStart(rx, lines[l], p)
    requires l' < |lines| && 1 <= e <= |lines[l']|
    ensures Close(rx, lines, l, p) == Found(l', e) <==>
            AnglePair(Meaning(rx, lines), Pos(lines, l, p), Pos(lines, l', e))
  {
    var t, a, b := Meaning(rx, lines), Pos(lines, l, p), Pos(lines, l', e);
    assert a < |t| && t[a].Up? && b <= |t| && Proper(t) by {
      EndTextAt(rx, lines, l, p);
      EndTextAt(rx, lines, l', e - 1);
      EndTextProper(rx, lines, 0);
    }
    PairInText(t, a, b);
    assert EndsAtTrack(lines, Close(rx, lines, l, p), a + 1, Follow(t[a + 1..], 1, "")) by {
      CloseFollows(rx, lines, l, p);
      EndTextRest(rx, lines, l, p + 1);
    }
    FoundIff(lines, Close(rx, lines, l, p), a + 1, Follow(t[a + 1..], 1, ""), l', e);
  }

  // ---------- backwards over lines ----------

  /** What the lines before `k` mean to the backward matcher, from right to left. */
  function StartText(rx: Regexes, lines: seq<string>, k: nat): seq<Token>
    requires k <= |lines|
  {
    if k == 0 then [] else StartTokens(rx, lines[k - 1], |lines[k - 1]| - 1) + StartText(rx, lines, k - 1)
  }

  ghost predicate StartsAtTrack(lines: seq<string>, place: Place, to: nat, t: Track) {
    match place
    case Found(l, p) => l < |lines| && p < |lines[l]| && Offset(lines, l) + p < to
                        && t == Partner(to - (Offset(lines, l) + p))
    case Missing => !t.Partner?
  }

  lemma LaterStarts(lines: seq<string>, place: Place, to: nat, t: Track, k: nat)
    requires k <= to && StartsAtTrack(lines, place, to - k, t)
    ensures StartsAtTrack(lines, place, to, Later(k, t))
  {
  }

  lemma StartStackThere(stack: string, angles: nat, inner: string)
    requires IsStartStack(stack, angles, inner) && angles >= 1
    ensures stack != ""
  {
    var top :| StartStack(stack, angles, inner, top);
    assert |stack| == angles + |top|;
  }

  lemma {:induction false} OpenFromFollows(rx: Regexes, lines: seq<string>, k: nat, i: int, stack: string,
                                           angles: nat, inner: string)
    requires rx.Sound() && k < |lines| && -1 <= i < |lines[k]| && angles >= 1 && IsStartStack(stack, angles, inner)
    ensures StartsAtTrack(lines, OpenFrom(rx, lines, k, StartInLine(rx, lines[k], i, stack)), Offset(lines, k) + i + 1,
                          Follow(StartTokens(rx, lines[k], i) + StartText(rx, lines, k), angles, inner))
    decreases k
  {
    var here, rest := StartTokens(rx, lines[k], i), StartText(rx, lines, k);
    var t, r := Follow(here, angles, inner), StartInLine(rx, lines[k], i, stack);
    FollowConcat(here, rest, angles, inner);
    StartInLineFollows(rx, lines[k], i, stack, angles, inner);
    if t.Going? {
      StartStackThere(r.stack, t.angles, t.inner);
      if k > 0 {
        OpenFromFollows(rx, lines, k - 1, |lines[k - 1]| - 1, r.stack, t.angles, t.inner);
        var place := OpenFrom(rx, lines, k, r);
        LaterStarts(lines, place, Offset(lines, k) + i + 1, Follow(rest, t.angles, t.inner), |here|);
      } else {
        assert rest == [] && here + rest == here;
      }
    }
  }

  /** The tokens before place `q` of line `l`, from right to left. */
  function Before(rx: Regexes, lines: seq<string>, l: nat, q: nat): seq<Token>
    requires l < |lines| && q < |lines[l]|
  {
    StartTokens(rx, lines[l], q - 1) + StartText(rx, lines, l)
  }

  /** A `>` that is not part of `->`, ` >= ` or `operator>`. */
  predicate CountsAsEnd(rx: Regexes, line: string, q: nat)
    requires q < |line|
  {
    line[q] == '>' && !Skips(rx, line, q)
  }

  lemma ReverseFollows(rx: Regexes, lines: seq<string>, l: nat, q: nat)
    requires rx.Sound() && l < |lines| && q < |lines[l]| && CountsAsEnd(rx, lines[l], q)
    ensures StartsAtTrack(lines, ReverseClose(rx, lines, l, q), Pos(lines, l, q),
                          Follow(Before(rx, lines, l, q), 1, ""))
  {
    assert "" + ">" == ">" && StartTurn(rx, lines[l], q, "") == Go(">", 1);
    assert StartStack(">", 1, "", "") by {
      assert Angles('>', 1) + "" == ">";
    }
    OpenFromFollows(rx, lines, l, q - 1, ">", 1, "");
  }

  lemma {:induction false} StartTokensProper(rx: Regexes, line: string, i: int)
    requires -1 <= i < |line|
    ensures Proper(StartTokens(rx, line, i))
    decreases i + 1
  {
    if i >= 0 {
      if Skips(rx, line, i) {
        StartTokensProper(rx, line, i - 2);
        ProperConcat([Other, Other], StartTokens(rx, line, i - 2));
      } else {
        StartTokensProper(rx, line, i - 1);
        ProperConcat([StartToken(rx, line, i)], StartTokens(rx, line, i - 1));
      }
    }
  }

  lemma {:induction false} StartTextProper(rx: Regexes, lines: seq<string>, k: nat)
    requires k <= |lines|
    ensures Proper(StartText(rx, lines, k)) && |StartText(rx, lines, k)| == Offset(lines, k)
  {
    if k > 0 {
      StartTokensProper(rx, lines[k - 1], |lines[k - 1]| - 1);
      StartTextProper(rx, lines, k - 1);
      ProperConcat(StartTokens(rx, lines[k - 1], |lines[k - 1]| - 1), StartText(rx, lines, k - 1));
    }
  }

  lemma FoundBackIff(lines: seq<string>, place: Place, to: nat, t: Track, l: nat, p: nat)
    requires StartsAtTrack(lines, place, to, t) && l < |lines| && p < |lines[l]|
    ensures place == Found(l, p) <==> Pos(lines, l, p) < to && t == Partner(to - Pos(lines, l, p))
  {
    match place
    case Found(l1, p1) =>
      if Pos(lines, l1, p1) == Pos(lines, l, p) {
        PlaceUnique(lines, l1, p1, l, p);
      }
    case Missing =>
  }

  lemma BeforeProper(rx: Regexes, lines: seq<string>, l: nat, q: nat)
    requires l < |lines| && q < |lines[l]|
    ensures Proper(Before(rx, lines, l, q)) && |Before(rx, lines, l, q)| == Offset(lines, l) + q
  {
    StartTokensProper(rx, lines[l], q - 1);
    StartTextProper(rx, lines, l);
    ProperConcat(StartTokens(rx, lines[l], q - 1), StartText(rx, lines, l));
  }

  lemma BodyBackIff(lines: seq<string>, place: Place, to: nat, before: seq<Token>, l: nat, p: nat)
    requires StartsAtTrack(lines, place, to, Follow(before, 1, "")) && Proper(before)
    requires l < |lines| && p < |lines[l]|
    ensures place == Found(l, p) <==> EndsBody(before, to - Pos(lines, l, p))
  {
    var n := to - Pos(lines, l, p);
    FoundBackIff(lines, place, to, Follow(before, 1, ""), l, p);
    if n >= 1 {
      PartnerIff(before, n);
    }
  }

  /** From a `>` that counts, the backward matcher returns exactly the first place that has a body before it. */
  lemma ReverseFindsAngles(rx: Regexes, lines: seq<string>, l: nat, p: nat, l': nat, q: nat)
    requires rx.Sound() && l' < |lines| && q < |lines[l']| && CountsAsEnd(rx, lines[l'], q)
    requires l < |lines| && p < |lines[l]|
    ensures ReverseClose(rx, lines, l', q) == Found(l, p) <==>
            EndsBody(Before(rx, lines, l', q), Pos(lines, l', q) - Pos(lines, l, p))
  {
    var before := Before(rx, lines, l', q);
    ReverseFollows(rx, lines, l', q);
    BeforeProper(rx, lines, l', q);
    BodyBackIff(lines, ReverseClose(rx, lines, l', q), Pos(lines, l', q), before, l, p);
  }

  // ---------- both directions ----------

  /** No angle bracket of the line is part of an operator, for either matcher. */
  ghost predicate NoOperators(rx: Regexes, line: string) {
    forall i :: 0 < i < |line| ==> NoOperatorAt(rx, line, i)
  }

  predicate NoOperatorAt(rx: Regexes, line: string, i: nat)
    requires 0 < i < |line|
  {
    && (line[i] == '<' ==> line[i - 1] != '<' && !rx.operatorAtEnd(line[..i]))
    && (line[i] == '>' ==> line[i - 1] != '-' && !rx.operatorAtEnd(line[..i]) && !rx.operatorAtEnd(line[..i - 1])
                           && !rx.spacedGe(line[i - 1..]))
  }

  lemma TokensTurn(rx: Regexes, line: string, i: nat)
    requires NoOperators(rx, line) && i < |line|
    ensures !Skips(rx, line, i) && StartToken(rx, line, i) == Opposite(EndToken(rx, line, i))
    ensures !EndToken(rx, line, i).Less?
  {
    assert i > 0 ==> NoOperatorAt(rx, line, i);
  }

  lemma {:induction false} StartTokensTurn(rx: Regexes, line: string, i: int)
    requires NoOperators(rx, line) && -1 <= i < |line|
    ensures StartTokens(rx, line, i) == Turned(EndTokens(rx, line, 0)[..i + 1])
    decreases i + 1
  {
    var ts := EndTokens(rx, line, 0);
    if i >= 0 {
      TokensTurn(rx, line, i);
      StartTokensTurn(rx, line, i - 1);
      EndTokensAt(rx, line, 0, i);
      assert Turned(ts[..i + 1]) == [Opposite(ts[i])] + Turned(ts[..i]);
    } else {
      assert ts[..0] == [];
    }
  }

  ghost predicate PlainLines(rx: Regexes, lines: seq<string>) {
    forall k :: 0 <= k < |lines| ==> NoOperators(rx, lines[k])
  }

  lemma TurnedConcat(u: seq<Token>, v: seq<Token>)
    ensures Turned(u + v) == Turned(v) + Turned(u)
  {
  }

  lemma TakeMore(t: seq<Token>, o: nat, i: nat, u: seq<Token>, v: seq<Token>)
    requires o <= |t| && t[o..] == u + v && i <= |u|
    ensures o + i <= |t| && t[..o + i] == t[..o] + u[..i]
  {
    assert t[o..][..i] == u[..i];
  }

  lemma EndTextUpTo(rx: Regexes, lines: seq<string>, k: nat, i: nat)
    requires k < |lines| && i <= |lines[k]|
    ensures var o := Offset(lines, k);
            o + i <= |EndText(rx, lines, 0)| &&
            EndText(rx, lines, 0)[..o + i] == EndText(rx, lines, 0)[..o] + EndTokens(rx, lines[k], 0)[..i]
  {
    EndTextFrom(rx, lines, k);
    TakeMore(EndText(rx, lines, 0), Offset(lines, k), i, EndTokens(rx, lines[k], 0), EndText(rx, lines, k + 1));
  }

  lemma TurnedLine(t: seq<Token>, o: nat, line: seq<Token>)
    requires o + |line| <= |t| && t[..o + |line|] == t[..o] + line[..|line|]
    ensures Turned(t[..o + |line|]) == Turned(line) + Turned(t[..o])
  {
    assert line[..|line|] == line;
    TurnedConcat(t[..o], line);
  }

  lemma {:induction false} StartTextTurns(rx: Regexes, lines: seq<string>, k: nat)
    requires PlainLines(rx, lines) && k <= |lines|
    ensures Offset(lines, k) <= |EndText(rx, lines, 0)|
    ensures StartText(rx, lines, k) == Turned(EndText(rx, lines, 0)[..Offset(lines, k)])
  {
    var t := EndText(rx, lines, 0);
    if k > 0 {
      var line, o := lines[k - 1], Offset(lines, k - 1);
      var here := EndTokens(rx, line, 0);
      assert StartTokens(rx, line, |line| - 1) == Turned(here) by {
        StartTokensTurn(rx, line, |line| - 1);
        assert here[..|line|] == here;
      }
      assert o <= |t| && StartText(rx, lines, k - 1) == Turned(t[..o]) by {
        StartTextTurns(rx, lines, k - 1);
      }
      assert o + |line| <= |t| && Turned(t[..o + |line|]) == Turned(here) + Turned(t[..o]) by {
        EndTextUpTo(rx, lines, k - 1, |line|);
        TurnedLine(t, o, here);
      }
    } else {
      assert t[..0] == [];
    }
  }

  lemma BeforeTurns(rx: Regexes, lines: seq<string>, l: nat, q: nat)
    requires PlainLines(rx, lines) && l < |lines| && q < |lines[l]|
    ensures var b := Offset(lines, l) + q;
            b <= |EndText(rx, lines, 0)| && Before(rx, lines, l, q) == Turned(EndText(rx, lines, 0)[..b])
  {
    StartTextTurns(rx, lines, l);
    StartTokensTurn(rx, lines[l], q - 1);
    EndTextUpTo(rx, lines, l, q);
    TurnedConcat(EndText(rx, lines, 0)[..Offset(lines, l)], EndTokens(rx, lines[l], 0)[..q]);
  }

  lemma {:induction false} PlainHasNoLess(rx: Regexes, lines: seq<string>, k: nat)
    requires PlainLines(rx, lines)
    ensures NoLess(EndText(rx, lines, k))
    decreases |lines| - k
  {
    if k < |lines| {
      PlainHasNoLess(rx, lines, k + 1);
      forall i | 0 <= i < |lines[k]| ensures NotLess(EndTokens(rx, lines[k], 0), i) {
        EndTokensAt(rx, lines[k], 0, i);
        TokensTurn(rx, lines[k], i);
      }
      ProperConcat(EndTokens(rx, lines[k], 0), EndText(rx, lines, k + 1));
    }
  }

  lemma TurnedCut(t: seq<Token>, b: nat, n: nat)
    requires 1 <= n <= b <= |t|
    ensures Turned(t[..b])[n - 1] == Opposite(t[b - n]) && Turned(t[..b])[..n - 1] == Turned(t[b - n + 1..b])
  {
  }

  /** Seen from its `>`, a pair is a pair. */
  lemma PairTurned(t: seq<Token>, a: nat, b: nat)
    requires Proper(t) && NoLess(t) && 1 <= b <= |t| && t[b - 1].Down?
    ensures EndsBody(Turned(t[..b - 1]), b - 1 - a) <==> AnglePair(t, a, b)
  {
    if a + 2 <= b {
      var before, n, u := Turned(t[..b - 1]), b - 1 - a, t[a + 1..b - 1];
      assert before[n - 1] == Opposite(t[a]) && before[..n - 1] == Turned(u) by {
        TurnedCut(t, b - 1, n);
      }
      ProperSlice(t, a + 1, b - 1);
      BodyMirror(u);
    }
  }

  lemma ReverseFindsPlain(rx: Regexes, lines: seq<string>, l: nat, p: nat, l': nat, e: nat)
    requires rx.Sound() && PlainLines(rx, lines) && l < |lines| && p < |lines[l]|
    requires l' < |lines| && 1 <= e <= |lines[l']| && lines[l'][e - 1] == '>'
    ensures ReverseClose(rx, lines, l', e - 1) == Found(l, p) <==>
            AnglePair(Meaning(rx, lines), Pos(lines, l, p), Pos(lines, l', e))
  {
    var t, a, b, q := Meaning(rx, lines), Pos(lines, l, p), Pos(lines, l', e), e - 1;
    TokensTurn(rx, lines[l'], q);
    ReverseFollows(rx, lines, l', q);
    BeforeProper(rx, lines, l', q);
    EndTextAt(rx, lines, l', q);
    EndTextProper(rx, lines, 0);
    PlainHasNoLess(rx, lines, 0);
    BeforeTurns(rx, lines, l', q);
    PlainBack(lines, ReverseClose(rx, lines, l', q), t, a, b, l, p);
  }

  lemma PlainBack(lines: seq<string>, place: Place, t: seq<Token>, a: nat, b: nat, l: nat, p: nat)
    requires Proper(t) && NoLess(t) && 1 <= b <= |t| && t[b - 1].Down? && Proper(Turned(t[..b - 1]))
    requires StartsAtTrack(lines, place, b - 1, Follow(Turned(t[..b - 1]), 1, ""))
    requires l < |lines| && p < |lines[l]| && a == Pos(lines, l, p)
    ensures place == Found(l, p) <==> AnglePair(t, a, b)
  {
    BodyBackIff(lines, place, b - 1, Turned(t[..b - 1]), l, p);
    PairTurned(t, a, b);
  }

  lemma PairEndsDown(rx: Regexes, lines: seq<string>, l: nat, e: nat, a: nat)
    requires l < |lines| && 1 <= e <= |lines[l]|
    ensures AnglePair(Meaning(rx, lines), a, Pos(lines, l, e)) ==> lines[l][e - 1] == '>'
  {
    EndTextAt(rx, lines, l, e - 1);
  }

  /** ` >= ` is an operator for the backward matcher only. */
  const RX := Regexes(s => false, s => |s| >= 4 && s[..4] == " >= ")

  const COMPARISON: string := "f<a >= b"

  lemma ComparisonForwards()
    ensures EndInLine(RX, COMPARISON, 1, "") == At(5)
  {
    var line := COMPARISON;
    assert "" + "<" == "<";
    assert EndTurn(RX, line, 1, "") == Go("<", 1) && EndTurn(RX, line, 2, "<") == Go("<", 1);
    assert EndTurn(RX, line, 3, "<") == Go("<", 1) && EndTurn(RX, line, 4, "<") == Stop(At(5));
    assert EndInLine(RX, line, 4, "<") == At(5);
    assert EndInLine(RX, line, 3, "<") == At(5);
    assert EndInLine(RX, line, 2, "<") == At(5);
  }

  lemma ComparisonBackwards()
    ensures StartInLine(RX, COMPARISON, 4, "") == Open("")
  {
    var line := COMPARISON;
    assert line[3..][..4] == " >= ";
    assert StartTurn(RX, line, 4, "") == Go("", 2) && StartTurn(RX, line, 2, "") == Go("", 1);
    assert StartTurn(RX, line, 1, "") == Go("", 1) && StartTurn(RX, line, 0, "") == Go("", 1);
    assert StartInLine(RX, line, 0, "") == Open("");
    assert StartInLine(RX, line, 1, "") == Open("");
    assert StartInLine(RX, line, 2, "") == Open("");
  }

  /** Where an angle bracket is an operator for one matcher and not for the other, they are not inverse. */
  lemma OperatorsAreOneWay()
    ensures RX.Sound()
    ensures Close(RX, [COMPARISON], 0, 1) == Found(0, 5) && ReverseClose(RX, [COMPARISON], 0, 4) == Missing
  {
    ComparisonForwards();
    ComparisonBackwards();
  }

  /**
   On every file whose angle brackets are no operators, the two matchers are inverse to each other from any
   `<` and any `>`, whatever else the lines hold.
   */
  lemma AnglesAreInverse(rx: Regexes, lines: seq<string>, l: nat, p: nat, l': nat, e: nat)
    requires rx.Sound() && PlainLines(rx, lines)
    requires l < |lines| && p < |lines[l]| && lines[l][p] == '<' && !ShiftOrCompare(lines[l], p)
    requires l' < |lines| && 1 <= e <= |lines[l']|
    ensures Close(rx, lines, l, p) == Found(l', e) <==>
            lines[l'][e - 1] == '>' && ReverseClose(rx, lines, l', e - 1) == Found(l, p)
  {
    var a := Pos(lines, l, p);
    assert CountsAsStart(rx, lines[l], p) by {
      TokensTurn(rx, lines[l], p);
    }
    CloseFindsAngles(rx, lines, l, p, l', e);
    PairEndsDown(rx, lines, l', e, a);
    if lines[l'][e - 1] == '>' {
      ReverseFindsPlain(rx, lines, l, p, l', e);
    }
  }
}
