/**
 What the characters of a line mean to the two matchers when they look for a partner of `<` or `>`.  Pending angle
 brackets below the last open bracket are counted; whatever is inside brackets does not change that count.  Both
 matchers are proved to be this reading, the backward one from right to left.  What counts as an operator is left
 to the regular expressions, and the two matchers do not ask the same of them.
 */
module AngleTokens {
  import opened Brackets
  import opened Matchers
  import opened MatcherTheorems

  /** `Less` is a `<<`, which undoes a pending `<`; `Other` has no effect. */
  datatype Token = Enter(c: char) | Leave(c: char) | Up | Down | Less | Semi | Other

  /** The number of tokens read up to the partner; none; or what is pending. */
  datatype Track = Partner(n: nat) | Lost | Going(angles: nat, inner: string)

  function Later(k: nat, t: Track): Track {
    if t.Partner? then Partner(t.n + k) else t
  }

  /** What one token does: outside brackets the angles count, inside only brackets do. */
  function OneToken(t: Token, angles: nat, inner: string): Track
    requires angles >= 1
  {
    if inner != "" then
      match t
      case Enter(c) => Going(angles, inner + [c])
      case Leave(c) => if Match(Top(inner), c) then Going(angles, Pop(inner)) else Lost
      case _ => Going(angles, inner)
    else
      match t
      case Enter(c) => Going(angles, [c])
      case Leave(_) | Semi => Lost
      case Up => Going(angles + 1, "")
      case Down => if angles == 1 then Partner(1) else Going(angles - 1, "")
      case Less => if angles == 1 then Lost else Going(angles - 1, "")
      case Other => Going(angles, "")
  }

  function Follow(ts: seq<Token>, angles: nat, inner: string): (t: Track)
    requires angles >= 1
    ensures t.Going? ==> t.angles >= 1
    ensures t.Partner? ==> 1 <= t.n <= |ts|
    decreases |ts|
  {
    if ts == [] then Going(angles, inner)
    else
      var next := OneToken(ts[0], angles, inner);
      if next.Going? then Later(1, Follow(ts[1..], next.angles, next.inner)) else next
  }

  lemma {:induction false} FollowConcat(u: seq<Token>, v: seq<Token>, angles: nat, inner: string)
    requires angles >= 1
    ensures var t := Follow(u, angles, inner);
            Follow(u + v, angles, inner) == if t.Going? then Later(|u|, Follow(v, t.angles, t.inner)) else t
    decreases |u|
  {
    if u == [] {
      assert u + v == v;
    } else {
      assert (u + v)[1..] == u[1..] + v;
      var next := OneToken(u[0], angles, inner);
      if next.Going? {
        FollowConcat(u[1..], v, next.angles, next.inner);
      }
    }
  }

  // ---------- a stack of counted angles, and brackets on top ----------

  function Angles(angle: char, n: nat): (s: string)
    ensures |s| == n && forall i :: 0 <= i < n ==> s[i] == angle
  {
    seq(n, i => angle)
  }

  lemma {:induction false} PopAll(angle: char, n: nat)
    ensures PopAngles(Angles(angle, n), angle) == ""
  {
    if n > 0 {
      assert Pop(Angles(angle, n)) == Angles(angle, n - 1);
      PopAll(angle, n - 1);
    } else {
      assert Angles(angle, 0) == "";
    }
  }

  lemma {:induction false} PopAbove(base: string, top: string, angle: char)
    requires top != "" && top[0] != angle
    ensures PopAngles(base + top, angle) == base + PopAngles(top, angle) && PopAngles(top, angle) != ""
    decreases |top|
  {
    if Top(top) == angle {
      assert Pop(base + top) == base + Pop(top);
      PopAbove(base, Pop(top), angle);
    }
  }

  // ---------- forwards ----------

  function EndToken(rx: Regexes, line: string, i: nat): Token
    requires i < |line|
  {
    var c := line[i];
    if Opener(c) then Enter(c)
    else if Closer(c) then Leave(c)
    else if c == '<' then
      if i > 0 && line[i - 1] == '<' then Less
      else if i > 0 && rx.operatorAtEnd(line[..i]) then Other
      else Up
    else if c == '>' then
      if i > 0 && (line[i - 1] == '-' || rx.operatorAtEnd(line[..i - 1])) then Other else Down
    else if c == ';' then Semi
    else Other
  }

  /** The tokens of a line from `i` on. */
  function EndTokens(rx: Regexes, line: string, i: nat): (ts: seq<Token>)
    requires i <= |line|
    ensures |ts| == |line| - i
    decreases |line| - i
  {
    if i == |line| then [] else [EndToken(rx, line, i)] + EndTokens(rx, line, i + 1)
  }

  ghost predicate EndStack(stack: string, angles: nat, inner: string, top: string) {
    && stack == Angles('<', angles) + top
    && (if inner == "" then top == "" else Forward(top) && Erase(top) == inner)
  }

  ghost predicate IsEndStack(stack: string, angles: nat, inner: string) {
    exists top :: EndStack(stack, angles, inner, top)
  }

  ghost predicate EndAgrees(t: Track, r: LineResult, i: nat) {
    match t
    case Partner(n) => r == At(i + n)
    case Lost => r == Failed
    case Going(angles, inner) => r.Open? && IsEndStack(r.stack, angles, inner)
  }

  ghost predicate EndTurnAgrees(t: Track, turn: Turn, i: nat) {
    match turn
    case Stop(r) => !t.Going? && EndAgrees(t, r, i)
    case Go(stack, _) => t.Going? && IsEndStack(stack, t.angles, t.inner)
  }

  lemma PushAngle(angle: char, n: nat)
    ensures Angles(angle, n) + [angle] == Angles(angle, n + 1)
    ensures n > 0 ==> Pop(Angles(angle, n)) == Angles(angle, n - 1)
    ensures Angles(angle, n) + "" == Angles(angle, n)
  {
  }

  // Outside brackets.

  lemma EndUnmatched(rx: Regexes, line: string, i: nat, stack: string)
    requires i < |line| && Closer(line[i]) && PopAngles(stack, '<') == ""
    ensures EndTurn(rx, line, i, stack) == Stop(Failed) && EndToken(rx, line, i).Leave?
  {
  }

  lemma EndOutsideBracket(rx: Regexes, line: string, i: nat, angles: nat)
    requires i < |line| && angles >= 1 && Bracket(line[i])
    ensures EndTurnAgrees(OneToken(EndToken(rx, line, i), angles, ""), EndTurn(rx, line, i, Angles('<', angles)), i)
  {
    var c := line[i];
    if Opener(c) {
      var stack := Angles('<', angles) + [c];
      assert OneToken(EndToken(rx, line, i), angles, "") == Going(angles, [c]);
      assert IsEndStack(stack, angles, [c]) by {
        ErasePush("", c);
        assert "" + [c] == [c];
        assert EndStack(stack, angles, [c], [c]);
      }
      assert EndTurn(rx, line, i, Angles('<', angles)) == Go(stack, 1);
    } else {
      PopAll('<', angles);
      EndUnmatched(rx, line, i, Angles('<', angles));
    }
  }

  lemma EndOutsideOther(rx: Regexes, line: string, i: nat, angles: nat)
    requires i < |line| && angles >= 1 && !Bracket(line[i])
    ensures EndTurnAgrees(OneToken(EndToken(rx, line, i), angles, ""), EndTurn(rx, line, i, Angles('<', angles)), i)
  {
    PushAngle('<', angles);
    PopAll('<', angles);
    assert EndStack(Angles('<', angles), angles, "", "");
    assert EndStack(Angles('<', angles + 1), angles + 1, "", "");
    assert angles > 1 ==> EndStack(Angles('<', angles - 1), angles - 1, "", "") by {
      if angles > 1 {
        PushAngle('<', angles - 1);
      }
    }
  }

  /** The turn on the upper part of the stack, carried over to the whole. */
  lemma EndTurnAbove(rx: Regexes, line: string, i: nat, base: string, top: string)
    requires i < |line| && Forward(top) && base != ""
    ensures var t, u := EndTurn(rx, line, i, base + top), EndTurn(rx, line, i, top);
            match u
            case Go(stack, _) => t.Go? && t.stack == base + stack
            case Stop(At(n)) => n == i + 1 && t.Go? && t.stack == base
            case Stop(_) => t == Stop(Failed)
  {
    var c := line[i];
    if Opener(c) {
      assert base + top + [c] == base + (top + [c]);
    } else if Closer(c) || c == ';' {
      ForwardPopAngles(top);
      PopAbove(base, top, '<');
      var left := PopAngles(top, '<');
      assert Top(base + left) == Top(left) && Pop(base + left) == base + Pop(left) && base + "" == base;
    } else {
      assert Top(base + top) == Top(top) && Pop(base + top) == base + Pop(top);
      assert Top(top) == '<' ==> Pop(top) != "" by {
        assert Opener(top[0]);
      }
      assert base + top + "<" == base + (top + "<");
    }
  }

  lemma EndTurnEnters(rx: Regexes, line: string, i: nat, angles: nat, top: string)
    requires i < |line| && angles >= 1 && Forward(top) && Opener(line[i])
    ensures EndTurnAgrees(OneToken(EndToken(rx, line, i), angles, Erase(top)),
                          EndTurn(rx, line, i, Angles('<', angles) + top), i)
  {
    var base, c := Angles('<', angles), line[i];
    EraseBottom(top);
    ErasePush(top, c);
    assert base + top + [c] == base + (top + [c]);
    assert EndStack(base + (top + [c]), angles, Erase(top) + [c], top + [c]);
  }

  lemma EndTurnLeaves(rx: Regexes, line: string, i: nat, angles: nat, top: string)
    requires i < |line| && angles >= 1 && Forward(top) && Closer(line[i])
    ensures EndTurnAgrees(OneToken(EndToken(rx, line, i), angles, Erase(top)),
                          EndTurn(rx, line, i, Angles('<', angles) + top), i)
  {
    var base, u := Angles('<', angles), EndTurn(rx, line, i, top);
    assert EndToken(rx, line, i) == Leave(line[i]);
    EndTurnAbove(rx, line, i, base, top);
    EndTurnCloser(rx, line, i, top);
    if u.Go? {
      EraseBottom(u.stack);
      assert EndStack(base + u.stack, angles, Pop(Erase(top)), u.stack);
    } else if u != Stop(Failed) {
      PushAngle('<', angles);
      assert EndStack(base, angles, "", "");
    }
  }

  lemma EndTurnPasses(rx: Regexes, line: string, i: nat, angles: nat, top: string)
    requires i < |line| && angles >= 1 && Forward(top) && !Bracket(line[i])
    ensures EndTurnAgrees(OneToken(EndToken(rx, line, i), angles, Erase(top)),
                          EndTurn(rx, line, i, Angles('<', angles) + top), i)
  {
    var base, u := Angles('<', angles), EndTurn(rx, line, i, top);
    EndTurnAbove(rx, line, i, base, top);
    EndTurnElsewhere(rx, line, i, top);
    EraseBottom(top);
    var token := EndToken(rx, line, i);
    assert !token.Enter? && !token.Leave?;
    assert OneToken(token, angles, Erase(top)) == Going(angles, Erase(top));
    assert EndStack(base + u.stack, angles, Erase(top), u.stack);
  }

  /** Inside brackets. */
  lemma EndTurnInside(rx: Regexes, line: string, i: nat, angles: nat, top: string)
    requires i < |line| && angles >= 1 && Forward(top)
    ensures EndTurnAgrees(OneToken(EndToken(rx, line, i), angles, Erase(top)),
                          EndTurn(rx, line, i, Angles('<', angles) + top), i)
  {
    if Opener(line[i]) {
      EndTurnEnters(rx, line, i, angles, top);
    } else if Closer(line[i]) {
      EndTurnLeaves(rx, line, i, angles, top);
    } else {
      EndTurnPasses(rx, line, i, angles, top);
    }
  }

  /** On one line, the forward matcher is the reading of its tokens. */
  lemma {:induction false} EndInLineFollows(rx: Regexes, line: string, i: nat, stack: string,
                                            angles: nat, inner: string)
    requires i <= |line| && angles >= 1 && IsEndStack(stack, angles, inner)
    ensures EndAgrees(Follow(EndTokens(rx, line, i), angles, inner), EndInLine(rx, line, i, stack), i)
    decreases |line| - i
  {
    if i < |line| {
      var top :| EndStack(stack, angles, inner, top);
      if inner == "" {
        assert stack == Angles('<', angles);
        if Bracket(line[i]) {
          EndOutsideBracket(rx, line, i, angles);
        } else {
          EndOutsideOther(rx, line, i, angles);
        }
      } else {
        EndTurnInside(rx, line, i, angles, top);
      }
      var next := OneToken(EndToken(rx, line, i), angles, inner);
      assert EndTokens(rx, line, i)[1..] == EndTokens(rx, line, i + 1);
      if next.Going? {
        EndInLineFollows(rx, line, i + 1, EndTurn(rx, line, i, stack).stack, next.angles, next.inner);
      }
    }
  }

  // ---------- backwards ----------

  /** The backward matcher passes over this character and the one before it. */
  predicate Skips(rx: Regexes, line: string, i: nat)
    requires i < |line|
  {
    i > 0 &&
    ((line[i] == '>' && (line[i - 1] == '-' || rx.spacedGe(line[i - 1..]) || rx.operatorAtEnd(line[..i])))
     || (line[i] == '<' && line[i - 1] == '<'))
  }

  function StartToken(rx: Regexes, line: string, i: nat): Token
    requires i < |line|
  {
    var c := line[i];
    if Skips(rx, line, i) then Other
    else if Closer(c) then Enter(Flip(c))
    else if Opener(c) then Leave(Flip(c))
    else if c == '>' then Up
    else if c == '<' then Down
    else if c == ';' then Semi
    else Other
  }

  /** The tokens of a line from `i` back to its start. */
  function StartTokens(rx: Regexes, line: string, i: int): (ts: seq<Token>)
    requires -1 <= i < |line|
    ensures |ts| == i + 1
    decreases i + 1
  {
    if i < 0 then []
    else if Skips(rx, line, i) then [Other, Other] + StartTokens(rx, line, i - 2)
    else [StartToken(rx, line, i)] + StartTokens(rx, line, i - 1)
  }

  ghost predicate StartStack(stack: string, angles: nat, inner: string, top: string) {
    && stack == Angles('>', angles) + top
    && (if inner == "" then top == "" else Backward(top) && Awaited(top) == inner)
  }

  ghost predicate IsStartStack(stack: string, angles: nat, inner: string) {
    exists top :: StartStack(stack, angles, inner, top)
  }

  ghost predicate StartAgrees(t: Track, r: LineResult, i: int) {
    match t
    case Partner(n) => n <= i + 1 && r == At(i + 1 - n)
    case Lost => r == Failed
    case Going(angles, inner) => r.Open? && IsStartStack(r.stack, angles, inner)
  }

  ghost predicate StartTurnAgrees(t: Track, turn: Turn, i: nat) {
    match turn
    case Stop(r) => !t.Going? && StartAgrees(t, r, i)
    case Go(stack, _) => t.Going? && IsStartStack(stack, t.angles, t.inner)
  }

  lemma StartWidth(rx: Regexes, line: string, i: nat, stack: string)
    requires i < |line| && StartTurn(rx, line, i, stack).Go?
    ensures StartTurn(rx, line, i, stack).width == if Skips(rx, line, i) then 2 else 1
  {
  }

  lemma StartUnmatched(rx: Regexes, line: string, i: nat, stack: string)
    requires i < |line| && Opener(line[i]) && PopAngles(stack, '>') == ""
    ensures StartTurn(rx, line, i, stack) == Stop(Failed) && StartToken(rx, line, i).Leave?
  {
  }

  lemma StartOutsideBracket(rx: Regexes, line: string, i: nat, angles: nat)
    requires i < |line| && angles >= 1 && Bracket(line[i])
    ensures StartTurnAgrees(OneToken(StartToken(rx, line, i), angles, ""),
                            StartTurn(rx, line, i, Angles('>', angles)), i)
  {
    var c := line[i];
    if Closer(c) {
      var stack := Angles('>', angles) + [c];
      assert OneToken(StartToken(rx, line, i), angles, "") == Going(angles, [Flip(c)]);
      assert IsStartStack(stack, angles, [Flip(c)]) by {
        StartTurnCloser(rx, line, i, "");
        assert "" + [c] == [c] && Awaited("") + [Flip(c)] == [Flip(c)];
        assert StartStack(stack, angles, [Flip(c)], [c]);
      }
      assert StartTurn(rx, line, i, Angles('>', angles)) == Go(stack, 1);
    } else {
      PopAll('>', angles);
      StartUnmatched(rx, line, i, Angles('>', angles));
    }
  }

  lemma StartOutsideOther(rx: Regexes, line: string, i: nat, angles: nat)
    requires i < |line| && angles >= 1 && !Bracket(line[i])
    ensures StartTurnAgrees(OneToken(StartToken(rx, line, i), angles, ""),
                            StartTurn(rx, line, i, Angles('>', angles)), i)
  {
    PushAngle('>', angles);
    PopAll('>', angles);
    assert StartStack(Angles('>', angles), angles, "", "");
    assert StartStack(Angles('>', angles + 1), angles + 1, "", "");
    assert angles > 1 ==> StartStack(Angles('>', angles - 1), angles - 1, "", "") by {
      if angles > 1 {
        PushAngle('>', angles - 1);
      }
    }
  }

  lemma StartTurnAbove(rx: Regexes, line: string, i: nat, base: string, top: string)
    requires i < |line| && Backward(top) && base != ""
    ensures var t, u := StartTurn(rx, line, i, base + top), StartTurn(rx, line, i, top);
            match u
            case Go(stack, width) => t == Go(base + stack, width)
            case Stop(At(n)) => n == i && t == Go(base, 1)
            case Stop(_) => t == Stop(Failed)
  {
    var c := line[i];
    if Closer(c) {
      assert base + top + [c] == base + (top + [c]);
    } else if Opener(c) || c == ';' {
      BackwardPopAngles(top);
      PopAbove(base, top, '>');
      var left := PopAngles(top, '>');
      assert Top(base + left) == Top(left) && Pop(base + left) == base + Pop(left) && base + "" == base;
    } else {
      assert Top(base + top) == Top(top) && Pop(base + top) == base + Pop(top) && base + "" == base;
      assert base + top + ">" == base + (top + ">");
    }
  }

  lemma AwaitedBottom(top: string)
    requires Backward(top)
    ensures Awaited(top) != ""
  {
    EraseBottom(top);
  }

  lemma StartTurnEnters(rx: Regexes, line: string, i: nat, angles: nat, top: string)
    requires i < |line| && angles >= 1 && Backward(top) && Closer(line[i])
    ensures StartTurnAgrees(OneToken(StartToken(rx, line, i), angles, Awaited(top)),
                            StartTurn(rx, line, i, Angles('>', angles) + top), i)
  {
    var base, c := Angles('>', angles), line[i];
    AwaitedBottom(top);
    StartTurnCloser(rx, line, i, top);
    assert base + top + [c] == base + (top + [c]);
    assert StartStack(base + (top + [c]), angles, Awaited(top) + [Flip(c)], top + [c]);
  }

  lemma StartTurnLeaves(rx: Regexes, line: string, i: nat, angles: nat, top: string)
    requires i < |line| && angles >= 1 && Backward(top) && Opener(line[i])
    ensures StartTurnAgrees(OneToken(StartToken(rx, line, i), angles, Awaited(top)),
                            StartTurn(rx, line, i, Angles('>', angles) + top), i)
  {
    var base, u := Angles('>', angles), StartTurn(rx, line, i, top);
    assert StartToken(rx, line, i) == Leave(Flip(line[i]));
    StartTurnAbove(rx, line, i, base, top);
    StartTurnOpener(rx, line, i, top);
    if u.Go? {
      AwaitedBottom(u.stack);
      assert StartStack(base + u.stack, angles, Pop(Awaited(top)), u.stack);
    } else if u != Stop(Failed) {
      PushAngle('>', angles);
      assert StartStack(base, angles, "", "");
    }
  }

  lemma StartTurnPasses(rx: Regexes, line: string, i: nat, angles: nat, top: string)
    requires rx.Sound() && i < |line| && angles >= 1 && Backward(top) && !Bracket(line[i])
    ensures StartTurnAgrees(OneToken(StartToken(rx, line, i), angles, Awaited(top)),
                            StartTurn(rx, line, i, Angles('>', angles) + top), i)
  {
    var base, u := Angles('>', angles), StartTurn(rx, line, i, top);
    StartTurnAbove(rx, line, i, base, top);
    StartTurnElsewhere(rx, line, i, top);
    AwaitedBottom(top);
    var token := StartToken(rx, line, i);
    assert !token.Enter? && !token.Leave?;
    assert OneToken(token, angles, Awaited(top)) == Going(angles, Awaited(top));
    assert StartStack(base + u.stack, angles, Awaited(top), u.stack);
  }

  lemma StartTurnInside(rx: Regexes, line: string, i: nat, angles: nat, top: string)
    requires rx.Sound() && i < |line| && angles >= 1 && Backward(top)
    ensures StartTurnAgrees(OneToken(StartToken(rx, line, i), angles, Awaited(top)),
                            StartTurn(rx, line, i, Angles('>', angles) + top), i)
  {
    if Closer(line[i]) {
      StartTurnEnters(rx, line, i, angles, top);
    } else if Opener(line[i]) {
      StartTurnLeaves(rx, line, i, angles, top);
    } else {
      StartTurnPasses(rx, line, i, angles, top);
    }
  }

  lemma FollowStep(t: Token, ts: seq<Token>, angles: nat, inner: string)
    requires angles >= 1
    ensures var next := OneToken(t, angles, inner);
            Follow([t] + ts, angles, inner) ==
            if next.Going? then Later(1, Follow(ts, next.angles, next.inner)) else next
  {
    assert ([t] + ts)[1..] == ts;
  }

  lemma FollowOther(ts: seq<Token>, angles: nat, inner: string)
    requires angles >= 1
    ensures Follow([Other, Other] + ts, angles, inner) == Later(2, Follow(ts, angles, inner))
  {
    assert [Other, Other] + ts == [Other] + ([Other] + ts);
    FollowStep(Other, [Other] + ts, angles, inner);
    FollowStep(Other, ts, angles, inner);
  }

  lemma StartShift(t: Track, r: LineResult, i: int, k: nat)
    requires StartAgrees(t, r, i - k)
    ensures StartAgrees(Later(k, t), r, i)
  {
  }

  lemma StartTurnFollows(rx: Regexes, line: string, i: nat, stack: string, angles: nat, inner: string)
    requires rx.Sound() && i < |line| && angles >= 1 && IsStartStack(stack, angles, inner)
    ensures StartTurnAgrees(OneToken(StartToken(rx, line, i), angles, inner), StartTurn(rx, line, i, stack), i)
  {
    var top :| StartStack(stack, angles, inner, top);
    if inner == "" {
      assert stack == Angles('>', angles);
      if Bracket(line[i]) {
        StartOutsideBracket(rx, line, i, angles);
      } else {
        StartOutsideOther(rx, line, i, angles);
      }
    } else {
      StartTurnInside(rx, line, i, angles, top);
    }
  }

  /** The tokens from `i` on, after a turn that goes on. */
  lemma StartTokensFollow(rx: Regexes, line: string, i: nat, angles: nat, inner: string)
    requires i < |line| && angles >= 1 && OneToken(StartToken(rx, line, i), angles, inner).Going?
    ensures var next, width := OneToken(StartToken(rx, line, i), angles, inner), if Skips(rx, line, i) then 2 else 1;
            Follow(StartTokens(rx, line, i), angles, inner) ==
            Later(width, Follow(StartTokens(rx, line, i - width), next.angles, next.inner))
  {
    if Skips(rx, line, i) {
      FollowOther(StartTokens(rx, line, i - 2), angles, inner);
    } else {
      FollowStep(StartToken(rx, line, i), StartTokens(rx, line, i - 1), angles, inner);
    }
  }

  lemma StartTokensStop(rx: Regexes, line: string, i: nat, angles: nat, inner: string)
    requires i < |line| && angles >= 1 && !OneToken(StartToken(rx, line, i), angles, inner).Going?
    ensures Follow(StartTokens(rx, line, i), angles, inner) == OneToken(StartToken(rx, line, i), angles, inner)
  {
    assert !Skips(rx, line, i);
    FollowStep(StartToken(rx, line, i), StartTokens(rx, line, i - 1), angles, inner);
  }

  lemma StartGoesOn(rx: Regexes, line: string, i: nat, stack: string, angles: nat, inner: string)
    requires i < |line| && angles >= 1 && StartTurn(rx, line, i, stack).Go?
    requires var next, turn := OneToken(StartToken(rx, line, i), angles, inner), StartTurn(rx, line, i, stack);
             next.Going? && StartAgrees(Follow(StartTokens(rx, line, i - turn.width), next.angles, next.inner),
                                        StartInLine(rx, line, i - turn.width, turn.stack), i - turn.width)
    ensures StartAgrees(Follow(StartTokens(rx, line, i), angles, inner), StartInLine(rx, line, i, stack), i)
  {
    var next, turn := OneToken(StartToken(rx, line, i), angles, inner), StartTurn(rx, line, i, stack);
    StartWidth(rx, line, i, stack);
    StartTokensFollow(rx, line, i, angles, inner);
    var t := Follow(StartTokens(rx, line, i - turn.width), next.angles, next.inner);
    StartShift(t, StartInLine(rx, line, i, stack), i, turn.width);
  }

  /** On one line, the backward matcher is the reading of its tokens. */
  lemma {:induction false} StartInLineFollows(rx: Regexes, line: string, i: int, stack: string,
                                              angles: nat, inner: string)
    requires rx.Sound() && -1 <= i < |line| && angles >= 1 && IsStartStack(stack, angles, inner)
    ensures StartAgrees(Follow(StartTokens(rx, line, i), angles, inner), StartInLine(rx, line, i, stack), i)
    decreases i + 1
  {
    if i >= 0 {
      var turn, next := StartTurn(rx, line, i, stack), OneToken(StartToken(rx, line, i), angles, inner);
      StartTurnFollows(rx, line, i, stack, angles, inner);
      if turn.Go? {
        StartInLineFollows(rx, line, i - turn.width, turn.stack, next.angles, next.inner);
        StartGoesOn(rx, line, i, stack, angles, inner);
      } else {
        StartTokensStop(rx, line, i, angles, inner);
      }
    }
  }
}
