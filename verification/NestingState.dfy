/** `NestingState` as the object it is in cpplint. */
module NestingStates {
  // The stack holds block objects that ordinary lines change in place, and the preprocessor checkpoints hold
  // copies of such stacks.  Proved: the copies share no object with the live stack, so the object behaves as
  // the value model of the preprocessor stack, and the one checkpoint that is handed back without copying, at
  // #endif, is safe to hand back.

  import P = Preprocessor

  /** The mutable part of a `_BlockInfo`. */
  class Block {
    var openParentheses: int
    var seenOpenBrace: bool

    constructor (openParentheses: int, seenOpenBrace: bool)
      ensures this.openParentheses == openParentheses && this.seenOpenBrace == seenOpenBrace
    {
      this.openParentheses, this.seenOpenBrace := openParentheses, seenOpenBrace;
    }
  }

  datatype Info = Info(openParentheses: int, seenOpenBrace: bool)

  ghost predicate Distinct(stack: seq<Block>) {
    forall i, j :: 0 <= i < j < |stack| ==> stack[i] != stack[j]
  }

  /** What a stack of objects says at the moment. */
  ghost predicate Says(stack: seq<Block>, v: seq<Info>)
    reads stack
  {
    |v| == |stack| &&
    forall i :: 0 <= i < |stack| ==>
      stack[i].openParentheses == v[i].openParentheses && stack[i].seenOpenBrace == v[i].seenOpenBrace
  }

  /** copy.deepcopy of a stack. */
  method DeepCopy(stack: seq<Block>, ghost v: seq<Info>) returns (copy: seq<Block>)
    requires Says(stack, v)
    ensures Says(copy, v) && Distinct(copy)
    ensures forall b :: b in copy ==> fresh(b)
  {
    copy := [];
    for k := 0 to |stack|
      invariant |copy| == k && Distinct(copy)
      invariant forall i :: 0 <= i < k ==> fresh(copy[i])
      invariant Says(copy, v[..k])
    {
      var b := new Block(stack[k].openParentheses, stack[k].seenOpenBrace);
      copy := copy + [b];
    }
  }

  datatype Checkpoint = Checkpoint(beforeIf: seq<Block>, beforeElse: seq<Block>, seenElse: bool)

  ghost predicate NoneShared(s: seq<Block>, t: seq<Block>) {
    forall b :: b in s ==> b !in t
  }

  ghost predicate NoneHeld(s: seq<Block>, c: Checkpoint) {
    NoneShared(s, c.beforeIf) && NoneShared(s, c.beforeElse)
  }

  /** Nothing is shared: not inside a stack, not between the stack and a checkpoint, not between checkpoints. */
  ghost predicate Apart(stack: seq<Block>, pp: seq<Checkpoint>) {
    && Distinct(stack)
    && (forall i :: 0 <= i < |pp| ==> Distinct(pp[i].beforeElse) && NoneHeld(stack, pp[i]))
    && (forall i, j :: 0 <= i < j < |pp| ==> NoneHeld(pp[i].beforeElse, pp[j]) && NoneHeld(pp[j].beforeElse, pp[i]))
  }

  /** A checkpoint may be added, or get its second stack, as long as that stack is made of new blocks. */
  lemma ApartWith(stack: seq<Block>, pp: seq<Checkpoint>, c: Checkpoint)
    requires Apart(stack, pp) && Distinct(c.beforeElse) && NoneHeld(stack, c)
    requires forall i :: 0 <= i < |pp| ==> NoneHeld(pp[i].beforeElse, c) && NoneHeld(c.beforeElse, pp[i])
    ensures Apart(stack, pp + [c])
  {
  }

  lemma ApartWithout(stack: seq<Block>, pp: seq<Checkpoint>)
    requires Apart(stack, pp) && pp != []
    ensures Apart(stack, P.ButLast(pp))
  {
  }

  class NestingState {
    var stack: seq<Block>
    var ppStack: seq<Checkpoint>
    ghost var contents: P.State<Info>   // the value the objects add up to
    ghost var blocks: set<Block>        // every block in use

    ghost predicate Within(s: seq<Block>)
      reads this
    {
      forall b :: b in s ==> b in blocks
    }

    ghost predicate Saved(c: Checkpoint, v: P.Checkpoint<Info>)
      reads this, blocks
    {
      && Within(c.beforeIf) && Within(c.beforeElse)
      && Says(c.beforeIf, v.beforeIf) && Says(c.beforeElse, v.beforeElse) && c.seenElse == v.seenElse
    }

    ghost predicate Valid()
      reads this, blocks
    {
      && Within(stack) && Says(stack, contents.stack)
      && |ppStack| == |contents.pp|
      && (forall i :: 0 <= i < |ppStack| ==> Saved(ppStack[i], contents.pp[i]))
      && Apart(stack, ppStack)
    }

    constructor ()
      ensures Valid() && contents == P.State([], [])
    {
      stack, ppStack := [], [];
      contents, blocks := P.State([], []), {};
    }

    method BeginIf()
      requires Valid()
      modifies this
      ensures Valid() && contents == P.Update(old(contents), P.If)
    {
      var copy := DeepCopy(stack, contents.stack);
      var c := Checkpoint(copy, [], false);
      forall i | 0 <= i < |ppStack| ensures NoneHeld(ppStack[i].beforeElse, c) {
        assert Saved(ppStack[i], contents.pp[i]);
      }
      ApartWith(stack, ppStack, c);
      ppStack := ppStack + [c];
      contents := P.Update(contents, P.If);
      blocks := blocks + set b | b in copy;
    }

    /** At the first #else or #elif: a copy of the whole stack so far is what stays after #endif. */
    method SaveBeforeElse()
      requires Valid() && ppStack != []
      modifies this
      ensures Valid() && ppStack != []
      ensures var v := old(contents);
              var top := P.Last(v.pp);
              contents == v.(pp := P.ButLast(v.pp) +
                [if top.seenElse then top else P.Checkpoint(top.beforeIf, v.stack, true)])
    {
      var n := |ppStack| - 1;
      var top := ppStack[n];
      if !top.seenElse {
        var copy := DeepCopy(stack, contents.stack);
        ghost var v := P.Checkpoint(contents.pp[n].beforeIf, contents.stack, true);
        var c := Checkpoint(top.beforeIf, copy, true);
        var rest := ppStack[..n];
        ApartWithout(stack, ppStack);
        assert NoneHeld(stack, ppStack[n]);
        forall i | 0 <= i < n ensures NoneHeld(rest[i].beforeElse, c) && NoneHeld(c.beforeElse, rest[i]) {
          assert NoneHeld(ppStack[i].beforeElse, ppStack[n]);
          assert Saved(ppStack[i], contents.pp[i]);
        }
        ApartWith(stack, rest, c);
        ppStack := rest + [c];
        contents := contents.(pp := contents.pp[..n] + [v]);
        blocks := blocks + set b | b in copy;
      }
    }

    method RestoreBeforeIf()
      requires Valid() && ppStack != []
      modifies this
      ensures Valid() && ppStack == old(ppStack)
      ensures contents == old(contents).(stack := P.Last(old(contents).pp).beforeIf)
    {
      ghost var v := P.Last(contents.pp);
      stack := DeepCopy(ppStack[|ppStack| - 1].beforeIf, v.beforeIf);
      blocks := blocks + set b | b in stack;
      contents := contents.(stack := v.beforeIf);
    }

    method BeginElse()
      requires Valid()
      modifies this
      ensures Valid() && contents == P.Update(old(contents), P.Else)
    {
      if ppStack != [] {
        SaveBeforeElse();
        RestoreBeforeIf();
      }
    }

    /** The stack before #else is handed back as it is: no one else refers to it any more. */
    method EndIf()
      requires Valid()
      modifies this
      ensures Valid() && contents == P.Update(old(contents), P.Endif)
    {
      if ppStack != [] {
        var top := ppStack[|ppStack| - 1];
        if top.seenElse {
          stack := top.beforeElse;
        }
        ppStack := ppStack[..|ppStack| - 1];
        contents := P.Update(contents, P.Endif);
      }
    }

    method UpdatePreprocessor(d: P.Directive)
      requires Valid()
      modifies this
      ensures Valid() && contents == P.Update(old(contents), d)
    {
      match d {
        case If => BeginIf();
        case Else => BeginElse();
        case Endif => EndIf();
      }
    }

    /** Ordinary lines push a new block ... */
    method Push(openParentheses: int, seenOpenBrace: bool)
      requires Valid()
      modifies this
      ensures Valid() && ppStack == old(ppStack)
      ensures contents == old(contents).(stack := old(contents).stack + [Info(openParentheses, seenOpenBrace)])
    {
      var b := new Block(openParentheses, seenOpenBrace);
      stack := stack + [b];
      contents := contents.(stack := contents.stack + [Info(openParentheses, seenOpenBrace)]);
      blocks := blocks + {b};
    }

    /** ... pop the innermost one ... */
    method Pop()
      requires Valid() && stack != []
      modifies this
      ensures Valid() && ppStack == old(ppStack)
      ensures contents == old(contents).(stack := P.ButLast(old(contents).stack))
    {
      stack := stack[..|stack| - 1];
      contents := contents.(stack := P.ButLast(contents.stack));
    }

    /** ... and change the innermost one in place, which no checkpoint notices. */
    method CountOpenParentheses(depthChange: int)
      requires Valid()
      modifies this`contents, stack
      ensures Valid() && stack == old(stack) && ppStack == old(ppStack)
      ensures contents ==
              if stack == [] then old(contents)
              else
                var v := old(contents).stack;
                old(contents).(
                  stack := P.ButLast(v) + [P.Last(v).(openParentheses := P.Last(v).openParentheses + depthChange)])
    {
      if stack != [] {
        var inner := stack[|stack| - 1];
        assert forall i :: 0 <= i < |ppStack| ==> NoneHeld(stack, ppStack[i]);
        forall i | 0 <= i < |ppStack| ensures inner !in ppStack[i].beforeIf && inner !in ppStack[i].beforeElse {
          assert NoneHeld(stack, ppStack[i]);
        }
        inner.openParentheses := inner.openParentheses + depthChange;
        ghost var v := contents.stack;
        contents := contents.(
          stack := P.ButLast(v) + [P.Last(v).(openParentheses := P.Last(v).openParentheses + depthChange)]);
      }
    }
  }
}
