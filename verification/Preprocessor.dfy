/** The preprocessor stack of cpplint over whole files. */
module Preprocessor {
  // In every well-nested text the lines of all branches but the first leave no trace on the nesting stack.

  /** The nesting stack before #if and before the first #else or #elif, and whether that was seen. */
  datatype Checkpoint<B> = Checkpoint(beforeIf: seq<B>, beforeElse: seq<B>, seenElse: bool)

  datatype State<B> = State(stack: seq<B>, pp: seq<Checkpoint<B>>)

  /** `If` is #if, #ifdef or #ifndef; `Else` is #else or #elif. */
  datatype Directive = If | Else | Endif

  function Last<T>(s: seq<T>): T
    requires s != []
  {
    s[|s| - 1]
  }

  function ButLast<T>(s: seq<T>): seq<T>
    requires s != []
  {
    s[..|s| - 1]
  }

  /** One directive line; #else and #endif without an #if change nothing. */
  function Update<B>(s: State<B>, d: Directive): State<B> {
    match d
    case If => s.(pp := s.pp + [Checkpoint(s.stack, [], false)])
    case Else =>
      if s.pp == [] then s
      else
        var top := Last(s.pp);
        var kept := if top.seenElse then top else Checkpoint(top.beforeIf, s.stack, true);
        State(top.beforeIf, ButLast(s.pp) + [kept])
    case Endif =>
      if s.pp == [] then s
      else
        var top := Last(s.pp);
        State(if top.seenElse then top.beforeElse else s.stack, ButLast(s.pp))
  }

  datatype Line<E> = Plain(effect: E) | Hash(d: Directive)

  /** Ordinary lines act on the nesting stack in an arbitrary way `act`. */
  function Run<B, E>(act: (E, seq<B>) -> seq<B>, s: State<B>, lines: seq<Line<E>>): State<B>
    decreases |lines|
  {
    if lines == [] then s
    else
      var t := match lines[0]
               case Plain(e) => s.(stack := act(e, s.stack))
               case Hash(d) => Update(s, d);
      Run(act, t, lines[1..])
  }

  lemma {:induction false} RunConcat<B, E>(act: (E, seq<B>) -> seq<B>, s: State<B>, u: seq<Line<E>>, v: seq<Line<E>>)
    ensures Run(act, s, u + v) == Run(act, Run(act, s, u), v)
    decreases |u|
  {
    if u == [] {
      assert u + v == v;
    } else {
      assert (u + v)[1..] == u[1..] + v;
      var t := match u[0]
               case Plain(e) => s.(stack := act(e, s.stack))
               case Hash(d) => Update(s, d);
      RunConcat(act, t, u[1..], v);
    }
  }

  lemma RunHash<B, E>(act: (E, seq<B>) -> seq<B>, s: State<B>, d: Directive)
    ensures Run<B, E>(act, s, [Hash(d)]) == Update(s, d)
  {
  }

  // ---------- well-nested texts ----------

  /** A text: ordinary lines and conditionals, each with a first branch and any number of others. */
  datatype Items<E> =
    | Nothing
    | Ordinary(effect: E, rest: Items<E>)
    | Conditional(first: Items<E>, others: Branches<E>, rest: Items<E>)

  datatype Branches<E> = NoMore | Branch(body: Items<E>, more: Branches<E>)

  function Lines<E>(t: Items<E>): seq<Line<E>> {
    match t
    case Nothing => []
    case Ordinary(e, rest) => [Plain(e)] + Lines(rest)
    case Conditional(first, others, rest) =>
      [Hash(If)] + Lines(first) + BranchLines(others) + [Hash(Endif)] + Lines(rest)
  }

  function BranchLines<E>(b: Branches<E>): seq<Line<E>> {
    match b
    case NoMore => []
    case Branch(body, more) => [Hash(Else)] + Lines(body) + BranchLines(more)
  }

  /** The text with every branch but the first deleted. */
  function Prune<E>(t: Items<E>): Items<E> {
    match t
    case Nothing => Nothing
    case Ordinary(e, rest) => Ordinary(e, Prune(rest))
    case Conditional(first, others, rest) => Conditional(Prune(first), NoMore, Prune(rest))
  }

  /** The nesting stack when only first branches count. */
  function FirstBranches<B, E>(act: (E, seq<B>) -> seq<B>, stack: seq<B>, t: Items<E>): seq<B>
    decreases t
  {
    match t
    case Nothing => stack
    case Ordinary(e, rest) => FirstBranches(act, act(e, stack), rest)
    case Conditional(first, _, rest) => FirstBranches(act, FirstBranches(act, stack, first), rest)
  }

  /** A whole text acts on the stack by its first branches and puts `pp_stack` back as it was. */
  lemma {:induction false} RunText<B, E>(act: (E, seq<B>) -> seq<B>, s: State<B>, t: Items<E>)
    ensures Run(act, s, Lines(t)) == State(FirstBranches(act, s.stack, t), s.pp)
    decreases t, 1
  {
    match t
    case Nothing =>
    case Ordinary(e, rest) =>
      RunText(act, s.(stack := act(e, s.stack)), rest);
      RunConcat(act, s, [Plain(e)], Lines(rest));
    case Conditional(first, others, rest) =>
      RunConditional(act, s, t);
      var head := [Hash(If)] + Lines(first) + BranchLines(others) + [Hash(Endif)];
      RunConcat(act, s, head, Lines(rest));
      RunText(act, State(FirstBranches(act, s.stack, first), s.pp), rest);
  }

  lemma {:induction false} RunConditional<B, E>(act: (E, seq<B>) -> seq<B>, s: State<B>, t: Items<E>)
    requires t.Conditional?
    ensures Run(act, s, [Hash(If)] + Lines(t.first) + BranchLines(t.others) + [Hash(Endif)]) ==
            State(FirstBranches(act, s.stack, t.first), s.pp)
    decreases t, 0
  {
    var first, others := t.first, t.others;
    var entered := Update(s, If);
    var after := State(FirstBranches(act, s.stack, first), entered.pp);
    RunConcat(act, s, [Hash(If)] + Lines(first) + BranchLines(others), [Hash(Endif)]);
    RunConcat(act, s, [Hash(If)] + Lines(first), BranchLines(others));
    RunConcat(act, s, [Hash(If)], Lines(first));
    RunHash<B, E>(act, s, If);
    RunText(act, entered, first);
    RunOthers(act, after, others);
    RunHash<B, E>(act, Run(act, after, BranchLines(others)), Endif);
  }

  /** The other branches leave the checkpoint that #endif needs: the stack as it was before the first #else. */
  lemma {:induction false} RunOthers<B, E>(act: (E, seq<B>) -> seq<B>, s: State<B>, b: Branches<E>)
    requires s.pp != []
    ensures var t := Run(act, s, BranchLines(b));
            && t.pp != [] && ButLast(t.pp) == ButLast(s.pp) && Last(t.pp).beforeIf == Last(s.pp).beforeIf
            && Update(t, Endif).stack == Update(s, Endif).stack
    decreases b
  {
    match b
    case NoMore =>
    case Branch(body, more) =>
      var switched := Update(s, Else);
      var after := State(FirstBranches(act, switched.stack, body), switched.pp);
      RunConcat(act, s, [Hash(Else)] + Lines(body), BranchLines(more));
      RunConcat(act, s, [Hash(Else)], Lines(body));
      RunHash<B, E>(act, s, Else);
      RunText(act, switched, body);
      RunOthers(act, after, more);
  }

  lemma {:induction false} PruneKeepsFirst<B, E>(act: (E, seq<B>) -> seq<B>, stack: seq<B>, t: Items<E>)
    ensures FirstBranches(act, stack, Prune(t)) == FirstBranches(act, stack, t)
    decreases t
  {
    match t
    case Nothing =>
    case Ordinary(e, rest) => PruneKeepsFirst(act, act(e, stack), rest);
    case Conditional(first, _, rest) =>
      PruneKeepsFirst(act, stack, first);
      PruneKeepsFirst(act, FirstBranches(act, stack, first), rest);
  }

  /**
   Alternative branches are invisible: any well-nested text, run from any state, ends in the same state
   as the text with every branch but the first deleted.
   */
  lemma BranchesInvisible<B, E>(act: (E, seq<B>) -> seq<B>, s: State<B>, t: Items<E>)
    ensures Run(act, s, Lines(t)) == Run(act, s, Lines(Prune(t)))
  {
    RunText(act, s, t);
    RunText(act, s, Prune(t));
    PruneKeepsFirst(act, s.stack, t);
  }

  // ---------- in the middle of a text ----------

  /**
   A text cut off anywhere: complete items, then possibly an #if whose branches so far are complete
   (`earlier` is empty in the first branch), and so on inside the branch that is still open.
   */
  datatype Prefix<E> =
    | Here(items: Items<E>)
    | Within(before: Items<E>, earlier: Branches<E>, inner: Prefix<E>)

  /** The branches before the open one: the first has no #else in front of it. */
  function EarlierLines<E>(b: Branches<E>): seq<Line<E>> {
    match b
    case NoMore => []
    case Branch(first, more) => Lines(first) + BranchLines(more) + [Hash(Else)]
  }

  function PrefixLines<E>(p: Prefix<E>): seq<Line<E>> {
    match p
    case Here(items) => Lines(items)
    case Within(before, earlier, inner) =>
      Lines(before) + [Hash(If)] + EarlierLines(earlier) + PrefixLines(inner)
  }

  function Depth<E>(p: Prefix<E>): nat {
    match p
    case Here(_) => 0
    case Within(_, _, inner) => 1 + Depth(inner)
  }

  /** The nesting stack at the cut when every sibling of the open branches is ignored. */
  function OpenBranch<B, E>(act: (E, seq<B>) -> seq<B>, stack: seq<B>, p: Prefix<E>): seq<B>
    decreases p
  {
    match p
    case Here(items) => FirstBranches(act, stack, items)
    case Within(before, _, inner) => OpenBranch(act, FirstBranches(act, stack, before), inner)
  }

  lemma EnterBranch<B, E>(act: (E, seq<B>) -> seq<B>, s: State<B>, earlier: Branches<E>)
    ensures var t := Run(act, s, [Hash(If)] + EarlierLines(earlier));
            t.stack == s.stack && |t.pp| == |s.pp| + 1
  {
    var entered := Update(s, If);
    RunConcat(act, s, [Hash(If)], EarlierLines(earlier));
    RunHash<B, E>(act, s, If);
    match earlier
    case NoMore =>
    case Branch(first, more) =>
      var after := State(FirstBranches(act, s.stack, first), entered.pp);
      RunConcat(act, entered, Lines(first) + BranchLines(more), [Hash(Else)]);
      RunConcat(act, entered, Lines(first), BranchLines(more));
      RunText(act, entered, first);
      RunOthers(act, after, more);
      RunHash<B, E>(act, Run(act, after, BranchLines(more)), Else);
  }

  /** At every line of every branch the nesting stack depends only on the branches that contain it. */
  lemma {:induction false} BranchesIndependent<B, E>(act: (E, seq<B>) -> seq<B>, s: State<B>, p: Prefix<E>)
    ensures var t := Run(act, s, PrefixLines(p));
            t.stack == OpenBranch(act, s.stack, p) && |t.pp| == |s.pp| + Depth(p)
    decreases p
  {
    match p
    case Here(items) => RunText(act, s, items);
    case Within(before, earlier, inner) =>
      var s1 := State(FirstBranches(act, s.stack, before), s.pp);
      RunText(act, s, before);
      RunConcat(act, s, Lines(before) + [Hash(If)] + EarlierLines(earlier), PrefixLines(inner));
      assert Lines(before) + [Hash(If)] + EarlierLines(earlier) == Lines(before) + ([Hash(If)] + EarlierLines(earlier));
      RunConcat(act, s, Lines(before), [Hash(If)] + EarlierLines(earlier));
      EnterBranch(act, s1, earlier);
      BranchesIndependent(act, Run(act, s1, [Hash(If)] + EarlierLines(earlier)), inner);
  }
}
