/** The bracket matchers of cpplint, with their angle-bracket heuristics. */
module Matchers {
  // The forward and the backward scanner, resumed from line to line, and the separate matcher of
  // `_GetTextInside`.  The loops run as methods; each is proved against a recursive function that states
  // its whole result.

  import opened Brackets

  /** The two regular expressions the scanners consult, as arbitrary tests on strings. */
  datatype Regexes = Regexes(
    operatorAtEnd: string -> bool,   // re.search(r"\boperator\s*$", s)
    spacedGe: string -> bool)        // re.match(r"\s>=\s", s)
  {
    /** All that is assumed of them: the last, respectively first, character is not a bracket. */
    ghost predicate Sound() {
      && (forall s :: operatorAtEnd(s) ==> s != "" && !Bracket(s[|s| - 1]))
      && (forall s :: spacedGe(s) ==> s != "" && !Bracket(s[0]))
    }
  }

  /** Outcome on one line: a position; given up; or the stack to carry on with. */
  datatype LineResult = At(pos: nat) | Failed | Open(stack: string)

  datatype Place = Found(linenum: nat, pos: nat) | Missing

  function Pop(stack: string): string
    requires stack != ""
  {
    stack[..|stack| - 1]
  }

  function Top(stack: string): char
    requires stack != ""
  {
    stack[|stack| - 1]
  }

  /** Removes pending angle brackets: they must have been operators. */
  function PopAngles(stack: string, angle: char): string {
    if stack != "" && Top(stack) == angle then PopAngles(Pop(stack), angle) else stack
  }

  // ---------- forwards ----------

  /** What one character does: leave the loop, or go on with `stack`, `width` characters further. */
  datatype Turn = Stop(r: LineResult) | Go(stack: string, width: nat)

  function EndTurn(rx: Regexes, line: string, i: nat, stack: string): Turn
    requires i < |line|
  {
    var c := line[i];
    if Opener(c) then Go(stack + [c], 1)
    else if c == '<' then
      if i > 0 && line[i - 1] == '<' then
        if stack != "" && Top(stack) == '<' then
          if Pop(stack) == "" then Stop(Failed) else Go(Pop(stack), 1)
        else Go(stack, 1)
      else if i > 0 && rx.operatorAtEnd(line[..i]) then Go(stack, 1)
      else Go(stack + "<", 1)
    else if Closer(c) then
      var left := PopAngles(stack, '<');
      if left == "" || !Match(Top(left), c) then Stop(Failed)
      else if Pop(left) == "" then Stop(At(i + 1))
      else Go(Pop(left), 1)
    else if c == '>' then
      if i > 0 && (line[i - 1] == '-' || rx.operatorAtEnd(line[..i - 1])) then Go(stack, 1)
      else if stack != "" && Top(stack) == '<' then
        if Pop(stack) == "" then Stop(At(i + 1)) else Go(Pop(stack), 1)
      else Go(stack, 1)
    else if c == ';' then
      var left := PopAngles(stack, '<');
      if left == "" then Stop(Failed) else Go(left, 1)
    else Go(stack, 1)
  }

  function EndInLine(rx: Regexes, line: string, i: nat, stack: string): LineResult
    requires i <= |line|
    decreases |line| - i
  {
    if i == |line| then Open(stack)
    else match EndTurn(rx, line, i, stack)
         case Stop(r) => r
         case Go(stack', _) => EndInLine(rx, line, i + 1, stack')
  }

  /** Carries an unfinished stack on through the following lines. */
  function CloseFrom(rx: Regexes, lines: seq<string>, linenum: nat, r: LineResult): Place
    requires linenum < |lines|
    decreases |lines| - linenum
  {
    match r
    case At(pos) => Found(linenum, pos)
    case Failed => Missing
    case Open(stack) =>
      if stack == "" || linenum == |lines| - 1 then Missing
      else CloseFrom(rx, lines, linenum + 1, EndInLine(rx, lines[linenum + 1], 0, stack))
  }

  predicate ShiftOrCompare(line: string, pos: nat)
    requires pos < |line|
  {
    line[pos] == '<' && pos + 1 < |line| && (line[pos + 1] == '<' || line[pos + 1] == '=')
  }

  function Close(rx: Regexes, lines: seq<string>, linenum: nat, pos: nat): Place
    requires linenum < |lines| && pos < |lines[linenum]|
  {
    var line := lines[linenum];
    if !(Opener(line[pos]) || line[pos] == '<') || ShiftOrCompare(line, pos) then Missing
    else CloseFrom(rx, lines, linenum, EndInLine(rx, line, pos, ""))
  }

  // ---------- backwards ----------

  function StartTurn(rx: Regexes, line: string, i: nat, stack: string): (turn: Turn)
    requires i < |line|
    ensures turn.Go? ==> 1 <= turn.width <= i + 1
  {
    var c := line[i];
    if Closer(c) then Go(stack + [c], 1)
    else if c == '>' then
      if i > 0 && (line[i - 1] == '-' || rx.spacedGe(line[i - 1..]) || rx.operatorAtEnd(line[..i]))
      then Go(stack, 2)
      else Go(stack + ">", 1)
    else if c == '<' then
      if i > 0 && line[i - 1] == '<' then Go(stack, 2)
      else if stack != "" && Top(stack) == '>' then
        if Pop(stack) == "" then Stop(At(i)) else Go(Pop(stack), 1)
      else Go(stack, 1)
    else if Opener(c) then
      var left := PopAngles(stack, '>');
      if left == "" || !Match(c, Top(left)) then Stop(Failed)
      else if Pop(left) == "" then Stop(At(i))
      else Go(Pop(left), 1)
    else if c == ';' then
      var left := PopAngles(stack, '>');
      if left == "" then Stop(Failed) else Go(left, 1)
    else Go(stack, 1)
  }

  function StartInLine(rx: Regexes, line: string, i: int, stack: string): LineResult
    requires -1 <= i < |line|
    decreases i + 1
  {
    if i < 0 then Open(stack)
    else match StartTurn(rx, line, i, stack)
         case Stop(r) => r
         case Go(stack', width) => StartInLine(rx, line, i - width, stack')
  }

  function OpenFrom(rx: Regexes, lines: seq<string>, linenum: nat, r: LineResult): Place
    requires linenum < |lines|
    decreases linenum
  {
    match r
    case At(pos) => Found(linenum, pos)
    case Failed => Missing
    case Open(stack) =>
      if stack == "" || linenum == 0 then Missing
      else OpenFrom(rx, lines, linenum - 1, StartInLine(rx, lines[linenum - 1], |lines[linenum - 1]| - 1, stack))
  }

  function ReverseClose(rx: Regexes, lines: seq<string>, linenum: nat, pos: nat): Place
    requires linenum < |lines| && pos < |lines[linenum]|
  {
    var line := lines[linenum];
    if !(Closer(line[pos]) || line[pos] == '>') then Missing
    else OpenFrom(rx, lines, linenum, StartInLine(rx, line, pos, ""))
  }

  // ---------- the loops ----------

  datatype Option<T> = None | Some(value: T)

  /** The pair the Python scanners return. */
  ghost predicate Returns(endPos: int, rest: Option<string>, r: LineResult) {
    match r
    case At(pos) => endPos == pos && rest == None
    case Failed => endPos == -1 && rest == None
    case Open(stack) => endPos == -1 && rest == Some(stack)
  }

  method DropAngles(stack: string, angle: char) returns (left: string)
    ensures left == PopAngles(stack, angle)
    ensures left <= stack && (left != "" ==> Top(left) != angle)
  {
    left := stack;
    while left != "" && left[|left| - 1] == angle
      invariant left <= stack && PopAngles(left, angle) == PopAngles(stack, angle)
      decreases |left|
    {
      left := left[..|left| - 1];
    }
  }

  method FindEndOfExpressionInLine(rx: Regexes, line: string, startpos: nat, stack0: string)
    returns (endPos: int, rest: Option<string>)
    requires startpos <= |line|
    ensures Returns(endPos, rest, EndInLine(rx, line, startpos, stack0))
  {
    var stack := stack0;
    for i := startpos to |line|
      invariant EndInLine(rx, line, i, stack) == EndInLine(rx, line, startpos, stack0)
    {
      var c := line[i];
      if Opener(c) {
        stack := stack + [c];
      } else if c == '<' {
        if i > 0 && line[i - 1] == '<' {
          if stack != "" && stack[|stack| - 1] == '<' {
            stack := stack[..|stack| - 1];
            if stack == "" {
              return -1, None;
            }
          }
        } else if i > 0 && rx.operatorAtEnd(line[..i]) {
          continue;
        } else {
          stack := stack + "<";
        }
      } else if Closer(c) {
        stack := DropAngles(stack, '<');
        if stack == "" {
          return -1, None;
        }
        if Match(stack[|stack| - 1], c) {
          stack := stack[..|stack| - 1];
          if stack == "" {
            return i + 1, None;
          }
        } else {
          return -1, None;
        }
      } else if c == '>' {
        if i > 0 && (line[i - 1] == '-' || rx.operatorAtEnd(line[..i - 1])) {
          continue;
        }
        if stack != "" && stack[|stack| - 1] == '<' {
          stack := stack[..|stack| - 1];
          if stack == "" {
            return i + 1, None;
          }
        }
      } else if c == ';' {
        stack := DropAngles(stack, '<');
        if stack == "" {
          return -1, None;
        }
      }
    }
    return -1, Some(stack);
  }

  method FindStartOfExpressionInLine(rx: Regexes, line: string, endpos: int, stack0: string)
    returns (startPos: int, rest: Option<string>)
    requires -1 <= endpos < |line|
    ensures Returns(startPos, rest, StartInLine(rx, line, endpos, stack0))
  {
    var stack := stack0;
    var i := endpos;
    while i >= 0
      invariant -1 <= i < |line|
      invariant StartInLine(rx, line, i, stack) == StartInLine(rx, line, endpos, stack0)
    {
      var c := line[i];
      if Closer(c) {
        stack := stack + [c];
      } else if c == '>' {
        if i > 0 && (line[i - 1] == '-' || rx.spacedGe(line[i - 1..]) || rx.operatorAtEnd(line[..i])) {
          i := i - 1;
        } else {
          stack := stack + ">";
        }
      } else if c == '<' {
        if i > 0 && line[i - 1] == '<' {
          i := i - 1;
        } else {
          if stack != "" && stack[|stack| - 1] == '>' {
            stack := stack[..|stack| - 1];
            if stack == "" {
              return i, None;
            }
          }
        }
      } else if Opener(c) {
        stack := DropAngles(stack, '>');
        if stack == "" {
          return -1, None;
        }
        if Match(c, stack[|stack| - 1]) {
          stack := stack[..|stack| - 1];
          if stack == "" {
            return i, None;
          }
        } else {
          return -1, None;
        }
      } else if c == ';' {
        stack := DropAngles(stack, '>');
        if stack == "" {
          return -1, None;
        }
      }
      i := i - 1;
    }
    return -1, Some(stack);
  }

  ghost predicate Answers(num: nat, at: int, place: Place, missing: nat) {
    match place
    case Found(linenum, pos) => num == linenum && at == pos
    case Missing => num == missing && at == -1
  }

  method CloseExpression(rx: Regexes, lines: seq<string>, linenum0: nat, pos: nat)
    returns (line: string, linenum: nat, at: int)
    requires linenum0 < |lines| && pos < |lines[linenum0]|
    ensures Answers(linenum, at, Close(rx, lines, linenum0, pos), |lines|)
    ensures at >= 0 ==> linenum < |lines| && line == lines[linenum]
  {
    linenum := linenum0;
    line := lines[linenum];
    if !(Opener(line[pos]) || line[pos] == '<') || ShiftOrCompare(line, pos) {
      return line, |lines|, -1;
    }
    var endPos, rest := FindEndOfExpressionInLine(rx, line, pos, "");
    ghost var r := EndInLine(rx, line, pos, "");
    if endPos > -1 {
      return line, linenum, endPos;
    }
    while rest != None && rest.value != "" && linenum < |lines| - 1
      invariant linenum < |lines| && endPos == -1 && Returns(endPos, rest, r)
      invariant CloseFrom(rx, lines, linenum, r) == Close(rx, lines, linenum0, pos)
    {
      linenum := linenum + 1;
      line := lines[linenum];
      r := EndInLine(rx, line, 0, rest.value);
      endPos, rest := FindEndOfExpressionInLine(rx, line, 0, rest.value);
      if endPos > -1 {
        return line, linenum, endPos;
      }
    }
    return line, |lines|, -1;
  }

  method ReverseCloseExpression(rx: Regexes, lines: seq<string>, linenum0: nat, pos: nat)
    returns (line: string, linenum: nat, at: int)
    requires linenum0 < |lines| && pos < |lines[linenum0]|
    ensures Answers(linenum, at, ReverseClose(rx, lines, linenum0, pos), 0)
    ensures at >= 0 ==> linenum < |lines| && line == lines[linenum]
  {
    linenum := linenum0;
    line := lines[linenum];
    if !(Closer(line[pos]) || line[pos] == '>') {
      return line, 0, -1;
    }
    var startPos, rest := FindStartOfExpressionInLine(rx, line, pos, "");
    ghost var r := StartInLine(rx, line, pos, "");
    if startPos > -1 {
      return line, linenum, startPos;
    }
    while rest != None && rest.value != "" && linenum > 0
      invariant linenum < |lines| && startPos == -1 && Returns(startPos, rest, r)
      invariant OpenFrom(rx, lines, linenum, r) == ReverseClose(rx, lines, linenum0, pos)
    {
      linenum := linenum - 1;
      line := lines[linenum];
      r := StartInLine(rx, line, |line| - 1, rest.value);
      startPos, rest := FindStartOfExpressionInLine(rx, line, |line| - 1, rest.value);
      if startPos > -1 {
        return line, linenum, startPos;
      }
    }
    return line, 0, -1;
  }

  // ---------- the other matcher ----------

  function CloserOf(o: char): char
    requires Opener(o)
  {
    if o == '(' then ')' else if o == '[' then ']' else '}'
  }

  /** Where the expected closers run out, if they do. */
  function InsideFrom(text: string, position: nat, expected: string): (end: Option<nat>)
    requires position <= |text|
    ensures end.Some? ==> position <= end.value <= |text|
    decreases |text| - position
  {
    if expected == "" then Some(position)
    else if position == |text| then None
    else if text[position] == Top(expected) then InsideFrom(text, position + 1, Pop(expected))
    else if Closer(text[position]) then None
    else if Opener(text[position]) then InsideFrom(text, position + 1, expected + [CloserOf(text[position])])
    else InsideFrom(text, position + 1, expected)
  }

  /** `start` is the end of the match of the start pattern, just after an opener. */
  method GetTextInside(text: string, start: nat) returns (inside: Option<string>)
    requires 1 <= start <= |text| && Opener(text[start - 1])
    ensures inside ==
            match InsideFrom(text, start, [CloserOf(text[start - 1])])
            case Some(p) => if p > start then Some(text[start..p - 1]) else None
            case None => None
  {
    var expected := [CloserOf(text[start - 1])];
    var position := start;
    while expected != "" && position < |text|
      invariant start <= position <= |text|
      invariant expected == "" ==> position > start
      invariant InsideFrom(text, position, expected) == InsideFrom(text, start, [CloserOf(text[start - 1])])
    {
      if text[position] == expected[|expected| - 1] {
        expected := expected[..|expected| - 1];
      } else if Closer(text[position]) {
        return None;
      } else if Opener(text[position]) {
        expected := expected + [CloserOf(text[position])];
      }
      position := position + 1;
    }
    if expected != "" {
      return None;
    }
    return Some(text[start..position - 1]);
  }
}
