/** cpplint's table of NOLINT suppressions, as the objects it is made of. */
module Suppressions {
  // The range of an open block is shared by all its categories and shrinks in place at NOLINTEND.  The ghost
  // field `table` is the same as a value; what the table means for the directives is proved in Nolint.

  import opened Nolint

  class LineRange {
    const begin: nat
    var end: Bound

    constructor (begin: nat, end: Bound)
      ensures this.begin == begin && this.end == end
    {
      this.begin, this.end := begin, end;
    }

    predicate Contains(n: nat)
      reads this
    {
      begin <= n && UpTo(n, end)
    }

    predicate ContainsRange(other: LineRange)
      reads this, other
    {
      begin <= other.begin && NoLater(other.end, end)
    }
  }

  ghost function EntryOf(r: LineRange, open: LineRange?): Entry
    reads r
  {
    Entry(r.begin, r.end, r == open)
  }

  ghost function Says(list: seq<LineRange>, open: LineRange?): (es: seq<Entry>)
    reads list
    ensures |es| == |list| && forall i :: 0 <= i < |es| ==> es[i] == EntryOf(list[i], open)
  {
    seq(|list|, i requires 0 <= i < |list| reads list => EntryOf(list[i], open))
  }

  ghost predicate SomeContains(list: seq<LineRange>, line: nat)
    reads list
  {
    exists k :: 0 <= k < |list| && list[k].Contains(line)
  }

  lemma SomeContainsConcat(own: seq<LineRange>, general: seq<LineRange>, line: nat)
    ensures SomeContains(own + general, line) <==> SomeContains(own, line) || SomeContains(general, line)
  {
    var all := own + general;
    assert forall k :: 0 <= k < |own| ==> all[k] == own[k];
    assert forall k :: 0 <= k < |general| ==> all[|own| + k] == general[k];
  }

  method AnyContains(list: seq<LineRange>, line: nat) returns (found: bool)
    ensures found <==> SomeContains(list, line)
  {
    found := false;
    for i := 0 to |list|
      invariant found <==> exists k :: 0 <= k < i && list[k].Contains(line)
    {
      if list[i].Contains(line) {
        found := true;
      }
    }
  }

  class ErrorSuppressions {
    var suppressions: map<Category, seq<LineRange>>
    var openBlock: LineRange?
    ghost var ranges: set<LineRange>   // every range in the table, and the open one
    ghost var table: Table             // what the fields say

    function List(c: Category): seq<LineRange>
      reads `suppressions
    {
      if c in suppressions then suppressions[c] else []
    }

    ghost predicate Stored()
      reads `suppressions, `ranges
    {
      forall c, i :: 0 <= i < |List(c)| ==> List(c)[i] in ranges
    }

    ghost function Entries(c: Category): (es: seq<Entry>)
      reads `suppressions, `openBlock, List(c)
    {
      Says(List(c), openBlock)
    }

    ghost predicate Valid()
      reads this, ranges
    {
      && Stored()
      && (openBlock == null <==> table.start.Never?)
      && (openBlock != null ==> openBlock in ranges && openBlock.end.Never? && table.start == At(openBlock.begin))
      && forall c :: Entries(c) == table.Of(c)
    }

    constructor ()
      ensures Valid() && table == EMPTY && ranges == {}
    {
      suppressions, openBlock := map[], null;
      ranges, table := {}, EMPTY;
    }

    /** Appends the range unless the last one of the category contains it. */
    method AddSuppression(c: Category, r: LineRange)
      modifies this`suppressions
      ensures List(c) ==
              if old(List(c) != [] && List(c)[|List(c)| - 1].ContainsRange(r)) then old(List(c)) else old(List(c)) + [r]
      ensures forall d :: d != c ==> List(d) == old(List(d))
    {
      var suppressed := List(c);
      if !(suppressed != [] && suppressed[|suppressed| - 1].ContainsRange(r)) {
        suppressed := suppressed + [r];
      }
      suppressions := suppressions[c := suppressed];
    }

    /** The same, in terms of what the lists say. */
    method StoreRange(c: Category, r: LineRange)
      requires Stored()
      modifies this`suppressions, this`ranges
      ensures ranges == old(ranges) + {r} && Stored()
      ensures Entries(c) == Store(old(Entries(c)), EntryOf(r, openBlock))
      ensures forall d :: d != c ==> Entries(d) == old(Entries(d))
    {
      ghost var es := Entries(c);
      AddSuppression(c, r);
      ranges := ranges + {r};
      if List(c) == old(List(c)) {
        assert Entries(c) == es;
      } else {
        assert Entries(c) == es + [EntryOf(r, openBlock)];
      }
      forall d | d != c ensures Entries(d) == old(Entries(d)) {
        assert List(d) == old(List(d));
      }
      forall d, i | 0 <= i < |List(d)| ensures List(d)[i] in ranges {
        assert d != c ==> List(d) == old(List(d));
      }
    }

    /** The same, in terms of the whole table. */
    method PutRange(c: Category, r: LineRange)
      requires Valid()
      modifies this`suppressions, this`ranges, this`table
      ensures Valid() && ranges == old(ranges) + {r}
      ensures table == Put(old(table), c, EntryOf(r, openBlock))
    {
      ghost var before, e := table, EntryOf(r, openBlock);
      StoreRange(c, r);
      table := Put(before, c, e);
      forall d ensures Entries(d) == table.Of(d) {
        PutOf(before, c, e, d);
        assert old(Entries(d)) == before.Of(d);
      }
    }

    method AddGlobalSuppression(c: Category)
      requires Valid()
      modifies this
      ensures Valid() && fresh(ranges - old(ranges))
      ensures table == Put(old(table), c, Entry(0, Never, false))
    {
      var r := new LineRange(0, Never);
      PutRange(c, r);
    }

    method AddLineSuppression(c: Category, line: nat)
      requires Valid()
      modifies this
      ensures Valid() && fresh(ranges - old(ranges))
      ensures table == Put(old(table), c, Entry(line, At(line), false))
    {
      var r := new LineRange(line, At(line));
      PutRange(c, r);
    }

    /** Opens a block, or joins the open one: its range is shared between the categories. */
    method StartBlockSuppression(c: Category, line: nat)
      requires Valid()
      modifies this
      ensures Valid() && fresh(ranges - old(ranges)) && openBlock != null
      ensures var begun := OpenAt(old(table), line);
              table == Put(begun, c, Entry(begun.start.line, Never, true))
    {
      if openBlock == null {
        openBlock := new LineRange(line, Never);
        ranges := ranges + {openBlock};
        table := OpenAt(table, line);
        forall d ensures Entries(d) == table.Of(d) {
          assert Entries(d) == old(Entries(d));
        }
      }
      PutRange(c, openBlock);
    }

    /** Shrinks the shared range in place: at once for every category that has it. */
    method EndBlockSuppression(line: nat)
      requires Valid()
      modifies this`openBlock, this`table, ranges
      ensures Valid() && openBlock == null && table == Close(old(table), line)
    {
      if openBlock != null {
        openBlock.end := At(line);
        openBlock := null;
        table := Close(table, line);
        forall d ensures Entries(d) == table.Of(d) {
          CloseOf(old(table), line, d);
          assert old(Entries(d)) == old(table).Of(d);
        }
      }
    }

    predicate HasOpenBlock()
      reads `openBlock
    {
      openBlock != null
    }

    function GetOpenBlockStart(): int
      reads `openBlock
    {
      if openBlock != null then openBlock.begin else -1
    }

    method Clear()
      modifies this
      ensures Valid() && table == EMPTY && ranges == {}
    {
      suppressions, openBlock := map[], null;
      ranges, table := {}, EMPTY;
    }

    /** Looking up a category that is not there yet stores an empty list for it. */
    method Lookup(c: Category) returns (list: seq<LineRange>)
      requires Valid()
      modifies this`suppressions
      ensures Valid() && list == List(c) && forall d :: List(d) == old(List(d))
    {
      if c !in suppressions {
        suppressions := suppressions[c := []];
      }
      list := suppressions[c];
      assert forall d :: List(d) == old(List(d));
      assert forall d :: Entries(d) == old(Entries(d));
    }

    method IsSuppressed(c: Category, line: nat) returns (suppressed: bool)
      requires Valid()
      modifies this`suppressions
      ensures Valid()
      ensures suppressed <==> ListCovers(table.Of(c), line, Never) || ListCovers(table.Of(All), line, Never)
    {
      var own := Lookup(c);
      var general := Lookup(All);
      suppressed := AnyContains(own + general, line);
      SomeContainsConcat(own, general, line);
      NowCovers(c, line);
      NowCovers(All, line);
    }

    /** At present the open block runs to the end of the file. */
    lemma NowCovers(c: Category, line: nat)
      requires Valid()
      ensures SomeContains(List(c), line) <==> ListCovers(table.Of(c), line, Never)
    {
      assert Entries(c) == table.Of(c);
      forall k | 0 <= k < |List(c)|
        ensures List(c)[k].Contains(line) <==> EntryCovers(Entries(c)[k], line, Never)
      {
        assert List(c)[k] in ranges;
      }
    }

    method ProcessCategory(d: Directive, c: Category)
      requires Valid() && d.categories != []
      modifies this, ranges
      ensures Valid() && fresh(ranges - old(ranges)) && table == Note(old(table), d, c)
    {
      match d {
        case Global(_) => AddGlobalSuppression(c);
        case Nolint(kind, _, line) =>
          match kind {
            case ThisLine => AddLineSuppression(c, line);
            case NextLine => AddLineSuppression(c, line + 1);
            case Begin => StartBlockSuppression(c, line);
            case End => EndBlockSuppression(line);
          }
      }
    }

    /**
     One directive; `complains` is the report of a BEGIN inside a block or of an END outside one, which
     does not keep the directive from acting.
     */
    method Process(d: Directive) returns (complains: bool)
      requires Valid()
      modifies this, ranges
      ensures Valid() && fresh(ranges - old(ranges)) && table == Record(old(table), d)
      ensures complains <==>
              d.Nolint? && ((d.kind.Begin? && old(table).start.At?) || (d.kind.End? && old(table).start.Never?))
    {
      complains := d.Nolint? && ((d.kind.Begin? && HasOpenBlock()) || (d.kind.End? && !HasOpenBlock()));
      ghost var before := table;
      for k := 0 to |d.categories|
        invariant Valid() && fresh(ranges - old(ranges)) && table == NoteAll(before, d, k)
      {
        ProcessCategory(d, d.categories[k]);
      }
    }
  }

  /**
   The whole life of the table, for any history of directives: what it answers is what the value model
   reports, and that is what the directives mean wherever those past an END are met again.  `unclosed`
   is the start of a block that was never ended.
   */
  method Check(h: seq<Directive>, c: Category, line: nat) returns (suppressed: bool, unclosed: int)
    ensures suppressed <==> Reported(h, c, line)
    ensures MetAgain(h, line) ==> (suppressed <==> Covered(h, c, line) || Covered(h, All, line))
    ensures unclosed == if OpenSince(h).At? then OpenSince(h).line else -1
  {
    var t := new ErrorSuppressions();
    for i := 0 to |h|
      invariant t.Valid() && fresh(t) && fresh(t.ranges) && t.table == TableOf(h[..i])
    {
      var _ := t.Process(h[i]);
      assert h[..i + 1][..i] == h[..i];
    }
    assert h[..|h|] == h;
    unclosed := t.GetOpenBlockStart();
    TableStart(h);
    suppressed := t.IsSuppressed(c, line);
    if MetAgain(h, line) {
      MetAgainExact(h, c, line);
    }
  }
}
