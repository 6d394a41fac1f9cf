/** The preprocessor stack on every text, well nested or not. */
module PreprocessorTexts {
  // Any sequence of lines is read as a text cut off somewhere; an #else or #endif outside every #if has no place in
  // it.  Proved: the nesting stack after the lines is what the branches that are open at the cut make of it.

  import opened Preprocessor

  function Joined<E>(t: Items<E>, u: Items<E>): Items<E> {
    match t
    case Nothing => u
    case Ordinary(e, rest) => Ordinary(e, Joined(rest, u))
    case Conditional(first, others, rest) => Conditional(first, others, Joined(rest, u))
  }

  function WithBranch<E>(b: Branches<E>, body: Items<E>): Branches<E> {
    match b
    case NoMore => Branch(body, NoMore)
    case Branch(first, more) => Branch(first, WithBranch(more, body))
  }

  /** The conditional with `earlier` branches whose last branch is `body`. */
  function Closed<E>(earlier: Branches<E>, body: Items<E>): Items<E> {
    match earlier
    case NoMore => Conditional(body, NoMore, Nothing)
    case Branch(first, more) => Conditional(first, WithBranch(more, body), Nothing)
  }

  /** A #else or #endif that no #if is open for. */
  predicate Stray<E>(p: Prefix<E>, line: Line<E>) {
    p.Here? && line.Hash? && !line.d.If?
  }

  /** The text one line further; a stray line leaves it as it is. */
  function Further<E>(p: Prefix<E>, line: Line<E>): Prefix<E>
    decreases p
  {
    match p
    case Here(items) =>
      if line.Plain? then Here(Joined(items, Ordinary(line.effect, Nothing)))
      else if line.d.If? then Within(items, NoMore, Here(Nothing))
      else p
    case Within(before, earlier, inner) =>
      if inner.Here? && line.Hash? && line.d.Else?
      then Within(before, WithBranch(earlier, inner.items), Here(Nothing))
      else if inner.Here? && line.Hash? && line.d.Endif?
      then Here(Joined(before, Closed(earlier, inner.items)))
      else Within(before, earlier, Further(inner, line))
  }

  function Read<E>(lines: seq<Line<E>>): Prefix<E> {
    if lines == [] then Here(Nothing) else Further(Read(lines[..|lines| - 1]), lines[|lines| - 1])
  }

  lemma {:induction false} JoinedLines<E>(t: Items<E>, u: Items<E>)
    ensures Lines(Joined(t, u)) == Lines(t) + Lines(u)
    decreases t
  {
    match t
    case Nothing =>
    case Ordinary(_, rest) => JoinedLines(rest, u);
    case Conditional(_, _, rest) => JoinedLines(rest, u);
  }

  lemma {:induction false} WithBranchLines<E>(b: Branches<E>, body: Items<E>)
    ensures BranchLines(WithBranch(b, body)) == BranchLines(b) + [Hash(Else)] + Lines(body)
    decreases b
  {
    match b
    case NoMore =>
    case Branch(_, more) => WithBranchLines(more, body);
  }

  lemma EarlierWithBranch<E>(earlier: Branches<E>, body: Items<E>)
    ensures EarlierLines(WithBranch(earlier, body)) == EarlierLines(earlier) + Lines(body) + [Hash(Else)]
  {
    match earlier
    case NoMore =>
    case Branch(_, more) => WithBranchLines(more, body);
  }

  lemma ClosedLines<E>(earlier: Branches<E>, body: Items<E>)
    ensures Lines(Closed(earlier, body)) == [Hash(If)] + EarlierLines(earlier) + Lines(body) + [Hash(Endif)]
  {
    match earlier
    case NoMore =>
    case Branch(_, more) => WithBranchLines(more, body);
  }

  lemma {:induction false} FurtherLines<E>(p: Prefix<E>, line: Line<E>)
    requires !Stray(p, line)
    ensures PrefixLines(Further(p, line)) == PrefixLines(p) + [line]
    decreases p
  {
    match p
    case Here(items) =>
      if line.Plain? {
        JoinedLines(items, Ordinary(line.effect, Nothing));
      }
    case Within(before, earlier, inner) =>
      if inner.Here? && line.Hash? && line.d.Else? {
        EarlierWithBranch(earlier, inner.items);
      } else if inner.Here? && line.Hash? && line.d.Endif? {
        ClosedLines(earlier, inner.items);
        JoinedLines(before, Closed(earlier, inner.items));
      } else {
        FurtherLines(inner, line);
      }
  }

  lemma RunOneMore<B, E>(act: (E, seq<B>) -> seq<B>, s: State<B>, lines: seq<Line<E>>, line: Line<E>)
    ensures Run(act, s, lines + [line]) ==
            var t := Run(act, s, lines);
            if line.Plain? then t.(stack := act(line.effect, t.stack)) else Update(t, line.d)
  {
    RunConcat(act, s, lines, [line]);
    assert [line][1..] == [];
  }

  /** The lines that have a place in the text do all there is to do. */
  lemma {:induction false} ReadRuns<B, E>(act: (E, seq<B>) -> seq<B>, stack: seq<B>, lines: seq<Line<E>>)
    ensures Run(act, State(stack, []), lines) == Run(act, State(stack, []), PrefixLines(Read(lines)))
  {
    if lines != [] {
      var before, line, s := lines[..|lines| - 1], lines[|lines| - 1], State(stack, []);
      var p := Read(before);
      ReadRuns(act, stack, before);
      assert lines == before + [line];
      RunOneMore(act, s, before, line);
      if Stray(p, line) {
        BranchesIndependent(act, s, p);
        assert Further(p, line) == p;
      } else {
        RunOneMore(act, s, PrefixLines(p), line);
        FurtherLines(p, line);
      }
    }
  }

  /** After any lines whatever, the nesting stack is what the open branches make of it, and nothing else. */
  lemma AnyText<B, E>(act: (E, seq<B>) -> seq<B>, stack: seq<B>, lines: seq<Line<E>>)
    ensures var t := Run(act, State(stack, []), lines);
            t.stack == OpenBranch(act, stack, Read(lines)) && |t.pp| == Depth(Read(lines))
  {
    ReadRuns(act, stack, lines);
    BranchesIndependent(act, State(stack, []), Read(lines));
  }
}
