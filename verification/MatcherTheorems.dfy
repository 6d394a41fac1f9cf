/**
 The bracket matchers are scanners: with the angle brackets erased from its stack, the forward matcher evolves
 like a plain bracket scanner, and the backward matcher like the same scanner on the mirrored text.
 */
module MatcherTheorems {
  import opened Brackets
  import opened Matchers

  // ---------- forgetting the angle brackets ----------

  predicate Angle(c: char) { c == '<' || c == '>' }

  /** The stack without its angle entries. */
  function Erase(stack: string): string {
    if stack == "" then ""
    else if Angle(Top(stack)) then Erase(Pop(stack)) else Erase(Pop(stack)) + [Top(stack)]
  }

  lemma ErasePush(stack: string, c: char)
    ensures Erase(stack + [c]) == if Angle(c) then Erase(stack) else Erase(stack) + [c]
  {
    assert Pop(stack + [c]) == stack;
  }

  lemma {:induction false} ErasePopAngles(stack: string, angle: char)
    requires Angle(angle)
    ensures Erase(PopAngles(stack, angle)) == Erase(stack)
  {
    if stack != "" && Top(stack) == angle {
      ErasePopAngles(Pop(stack), angle);
    }
  }

  /** A forward stack that started on a bracket: openers and `<`, with an opener at the bottom. */
  predicate Forward(stack: string) {
    stack != "" && Opener(stack[0]) && forall i :: 0 <= i < |stack| ==> Opener(stack[i]) || stack[i] == '<'
  }

  lemma {:induction false} ForwardPopAngles(stack: string)
    requires Forward(stack)
    ensures var left := PopAngles(stack, '<'); Forward(left) && Opener(Top(left)) && left <= stack
  {
    if Top(stack) == '<' {
      ForwardPopAngles(Pop(stack));
    }
  }

  lemma {:induction false} EraseBottom(stack: string)
    requires stack != "" && !Angle(stack[0])
    ensures Erase(stack) != "" && Erase(stack)[0] == stack[0]
  {
    if |stack| > 1 {
      EraseBottom(Pop(stack));
    }
  }

  ghost predicate SameForward(o: Outcome, r: LineResult, i: nat) {
    match o
    case Closed(n) => r == At(i + n)
    case Broken => r == Failed
    case Pending(st) => r.Open? && Forward(r.stack) && Erase(r.stack) == st
  }

  /** Whatever a character that is not a bracket does, it does to the angle entries only. */
  lemma EndTurnElsewhere(rx: Regexes, line: string, i: nat, stack: string)
    requires i < |line| && Forward(stack) && !Bracket(line[i])
    ensures var t := EndTurn(rx, line, i, stack);
            t.Go? && Forward(t.stack) && Erase(t.stack) == Erase(stack)
  {
    ForwardPopAngles(stack);
    ErasePopAngles(stack, '<');
    ErasePush(stack, '<');
  }

  lemma EndTurnCloser(rx: Regexes, line: string, i: nat, stack: string)
    requires i < |line| && Forward(stack) && Closer(line[i])
    ensures var t, st := EndTurn(rx, line, i, stack), Erase(stack);
            st != "" &&
            if !Match(Top(st), line[i]) then t == Stop(Failed)
            else if |st| == 1 then t == Stop(At(i + 1))
            else t.Go? && Forward(t.stack) && Erase(t.stack) == Pop(st)
  {
    var left := PopAngles(stack, '<');
    ForwardPopAngles(stack);
    ErasePopAngles(stack, '<');
    EraseBottom(stack);
    assert Erase(left) == Erase(Pop(left)) + [Top(left)];
    if Pop(left) != "" {
      EraseBottom(Pop(left));
    }
  }

  /** On one line the heuristics never change what happens to the brackets. */
  lemma {:induction false} EndInLineScans(rx: Regexes, line: string, i: nat, stack: string)
    requires i <= |line| && Forward(stack)
    ensures SameForward(Scan(line[i..], Erase(stack)), EndInLine(rx, line, i, stack), i)
    decreases |line| - i
  {
    if i < |line| {
      assert line[i..][1..] == line[i + 1..];
      var t := EndTurn(rx, line, i, stack);
      if Opener(line[i]) {
        ErasePush(stack, line[i]);
      } else if Closer(line[i]) {
        EndTurnCloser(rx, line, i, stack);
      } else {
        EndTurnElsewhere(rx, line, i, stack);
      }
      if t.Go? {
        EndInLineScans(rx, line, i + 1, t.stack);
      }
    }
  }

  // ---------- backwards, through the mirror ----------

  predicate Backward(stack: string) {
    stack != "" && Closer(stack[0]) && forall i :: 0 <= i < |stack| ==> Closer(stack[i]) || stack[i] == '>'
  }

  lemma {:induction false} BackwardPopAngles(stack: string)
    requires Backward(stack)
    ensures var left := PopAngles(stack, '>'); Backward(left) && Closer(Top(left)) && left <= stack
  {
    if Top(stack) == '>' {
      BackwardPopAngles(Pop(stack));
    }
  }

  /** The openers a backward stack is waiting for, as the mirrored scan sees them. */
  function Awaited(stack: string): string {
    var st := Erase(stack);
    seq(|st|, i requires 0 <= i < |st| => Flip(st[i]))
  }

  ghost predicate SameBackward(o: Outcome, r: LineResult, i: int) {
    match o
    case Closed(n) => n <= i + 1 && r == At(i + 1 - n)
    case Broken => r == Failed
    case Pending(st) => r.Open? && Backward(r.stack) && Awaited(r.stack) == st
  }

  lemma StartTurnElsewhere(rx: Regexes, line: string, i: nat, stack: string)
    requires rx.Sound() && i < |line| && Backward(stack) && !Bracket(line[i])
    ensures var t := StartTurn(rx, line, i, stack);
            && t.Go? && Backward(t.stack) && Awaited(t.stack) == Awaited(stack)
            && (t.width == 1 || (t.width == 2 && i > 0 && !Bracket(line[i - 1])))
  {
    BackwardPopAngles(stack);
    ErasePopAngles(stack, '>');
    ErasePush(stack, '>');
  }

  lemma StartTurnOpener(rx: Regexes, line: string, i: nat, stack: string)
    requires i < |line| && Backward(stack) && Opener(line[i])
    ensures var t, st := StartTurn(rx, line, i, stack), Awaited(stack);
            st != "" &&
            if !Match(Top(st), Flip(line[i])) then t == Stop(Failed)
            else if |st| == 1 then t == Stop(At(i))
            else t.Go? && t.width == 1 && Backward(t.stack) && Awaited(t.stack) == Pop(st)
  {
    var left := PopAngles(stack, '>');
    BackwardPopAngles(stack);
    ErasePopAngles(stack, '>');
    EraseBottom(stack);
    assert Erase(left) == Erase(Pop(left)) + [Top(left)];
    if Pop(left) != "" {
      EraseBottom(Pop(left));
    }
  }

  lemma StartTurnCloser(rx: Regexes, line: string, i: nat, stack: string)
    requires i < |line| && (stack == "" || Backward(stack)) && Closer(line[i])
    ensures var t := StartTurn(rx, line, i, stack);
            t.Go? && t.width == 1 && Backward(t.stack) && Awaited(t.stack) == Awaited(stack) + [Flip(line[i])]
  {
    ErasePush(stack, line[i]);
  }

  lemma MirrorStep(line: string, i: nat)
    requires i < |line|
    ensures Mirror(line[..i + 1])[0] == Flip(line[i]) && Mirror(line[..i + 1])[1..] == Mirror(line[..i])
  {
  }

  lemma MirrorScan(line: string, i: nat, st: string)
    requires i < |line|
    ensures var c, rest := line[i], Mirror(line[..i]);
            Scan(Mirror(line[..i + 1]), st) ==
            if Closer(c) then Shift(1, Scan(rest, st + [Flip(c)]))
            else if !Opener(c) then Shift(1, Scan(rest, st))
            else if st == "" || !Match(Top(st), Flip(c)) then Broken
            else if |st| == 1 then Closed(1)
            else Shift(1, Scan(rest, Pop(st)))
  {
    MirrorStep(line, i);
  }

  /** Two characters at once, neither of them a bracket. */
  lemma MirrorTwoSteps(line: string, i: nat, st: string)
    requires 0 < i < |line| && !Bracket(line[i]) && !Bracket(line[i - 1])
    ensures Scan(Mirror(line[..i + 1]), st) == Shift(2, Scan(Mirror(line[..i - 1]), st))
  {
    MirrorStep(line, i);
    MirrorStep(line, i - 1);
    assert Scan(Mirror(line[..i]), st) == Shift(1, Scan(Mirror(line[..i - 1]), st));
  }

  /** What one turn of the backward loop must keep of the mirrored scan. */
  ghost predicate TurnMirrors(line: string, i: nat, o: Outcome, t: Turn)
    requires i < |line|
  {
    match t
    case Stop(r) => SameBackward(o, r, i)
    case Go(stack', width) =>
      width <= i + 1 && Backward(stack') && o == Shift(width, Scan(Mirror(line[..i + 1 - width]), Awaited(stack')))
  }

  lemma CloserTurnScans(rx: Regexes, line: string, i: nat, stack: string)
    requires i < |line| && Backward(stack) && Closer(line[i])
    ensures TurnMirrors(line, i, Scan(Mirror(line[..i + 1]), Awaited(stack)), StartTurn(rx, line, i, stack))
  {
    MirrorScan(line, i, Awaited(stack));
    StartTurnCloser(rx, line, i, stack);
  }

  lemma OpenerTurnScans(rx: Regexes, line: string, i: nat, stack: string)
    requires i < |line| && Backward(stack) && Opener(line[i])
    ensures TurnMirrors(line, i, Scan(Mirror(line[..i + 1]), Awaited(stack)), StartTurn(rx, line, i, stack))
  {
    MirrorScan(line, i, Awaited(stack));
    StartTurnOpener(rx, line, i, stack);
  }

  lemma OtherTurnScans(rx: Regexes, line: string, i: nat, stack: string)
    requires rx.Sound() && i < |line| && Backward(stack) && !Bracket(line[i])
    ensures TurnMirrors(line, i, Scan(Mirror(line[..i + 1]), Awaited(stack)), StartTurn(rx, line, i, stack))
  {
    StartTurnElsewhere(rx, line, i, stack);
    if StartTurn(rx, line, i, stack).width == 2 {
      MirrorTwoSteps(line, i, Awaited(stack));
    } else {
      MirrorScan(line, i, Awaited(stack));
    }
  }

  /** One turn of the backward loop against the mirrored scan. */
  lemma StartTurnScans(rx: Regexes, line: string, i: nat, stack: string)
    requires rx.Sound() && i < |line| && Backward(stack)
    ensures TurnMirrors(line, i, Scan(Mirror(line[..i + 1]), Awaited(stack)), StartTurn(rx, line, i, stack))
  {
    if Closer(line[i]) {
      CloserTurnScans(rx, line, i, stack);
    } else if Opener(line[i]) {
      OpenerTurnScans(rx, line, i, stack);
    } else {
      OtherTurnScans(rx, line, i, stack);
    }
  }

  lemma ShiftBackward(o: Outcome, r: LineResult, i: int, width: nat)
    requires SameBackward(o, r, i - width)
    ensures SameBackward(Shift(width, o), r, i)
  {
  }

  lemma {:induction false} StartInLineScans(rx: Regexes, line: string, i: int, stack: string)
    requires rx.Sound() && -1 <= i < |line| && Backward(stack)
    ensures SameBackward(Scan(Mirror(line[..i + 1]), Awaited(stack)), StartInLine(rx, line, i, stack), i)
    decreases i + 1
  {
    if i >= 0 {
      StartTurnScans(rx, line, i, stack);
      match StartTurn(rx, line, i, stack)
      case Stop(_) =>
      case Go(stack', width) =>
        StartInLineScans(rx, line, i - width, stack');
        var o := Scan(Mirror(line[..i - width + 1]), Awaited(stack'));
        ShiftBackward(o, StartInLine(rx, line, i - width, stack'), i, width);
    }
  }
}
