/** NOLINT directives: what a history of them means, and what cpplint's table makes of it. */
module Nolint {
  // The table drops a range that the last one stored for the category contains, and an END shrinks the range of
  // the open block in place; together the two can lose a line.  Proved for every history, in whatever order
  // the lines come: exactly which lines are lost, and when the table is exact nevertheless.

  /** `All` is Python's None: every category. */
  datatype Category = All | Named(name: string)

  /** The last line of a range, possibly math.inf. */
  datatype Bound = At(line: nat) | Never

  predicate UpTo(n: nat, b: Bound) {
    b.Never? || n <= b.line
  }

  predicate NoLater(a: Bound, b: Bound) {
    b.Never? || (a.At? && a.line <= b.line)
  }

  // ---------- what the directives mean ----------

  datatype Kind = ThisLine | NextLine | Begin | End

  /** `categories` are those the directive really acts on; a directive for other tools has none. */
  datatype Directive =
    | Global(categories: seq<Category>)
    | Nolint(kind: Kind, categories: seq<Category>, line: nat)

  predicate Closes(d: Directive) {
    d.Nolint? && d.kind.End? && d.categories != []
  }

  predicate Opens(d: Directive) {
    d.Nolint? && d.kind.Begin? && d.categories != []
  }

  /** The start of the block that is open after `h`: a BEGIN inside an open block joins it. */
  function OpenSince(h: seq<Directive>): (start: Bound) {
    if h == [] then Never
    else
      var d, before := h[|h| - 1], h[..|h| - 1];
      if Closes(d) then Never
      else if Opens(d) && OpenSince(before).Never? then At(d.line)
      else OpenSince(before)
  }

  /** The line of the first END from index `j` on, or `x` if there is none. */
  function EndFrom(h: seq<Directive>, j: nat, x: Bound): Bound
    requires j <= |h|
    decreases |h| - j
  {
    if j == |h| then x else if Closes(h[j]) then At(h[j].line) else EndFrom(h, j + 1, x)
  }

  ghost predicate CoversAt(h: seq<Directive>, i: nat, c: Category, n: nat, x: Bound)
    requires i < |h|
  {
    c in h[i].categories &&
    match h[i]
    case Global(_) => true
    case Nolint(kind, _, line) =>
      match kind
      case ThisLine => n == line
      case NextLine => n == line + 1
      case Begin => OpenSince(h[..i + 1]).At? && OpenSince(h[..i + 1]).line <= n && UpTo(n, EndFrom(h, i + 1, x))
      case End => false
  }

  ghost predicate CoveredUntil(h: seq<Directive>, c: Category, n: nat, x: Bound) {
    exists i :: 0 <= i < |h| && CoversAt(h, i, c, n, x)
  }

  /** Some directive for category `c` covers line `n`; a block without an END runs to the end of the file. */
  ghost predicate Covered(h: seq<Directive>, c: Category, n: nat) {
    CoveredUntil(h, c, n, Never)
  }

  /** Directives are on lines 1, 2, ... in increasing order, at most one a line. */
  ghost predicate InOrder(h: seq<Directive>) {
    && (forall i :: 0 <= i < |h| && h[i].Nolint? ==> h[i].line >= 1)
    && (forall i, j :: 0 <= i < j < |h| && h[i].Nolint? && h[j].Nolint? ==> h[i].line < h[j].line)
  }

  // ---------- the table, as values ----------

  /** A stored range; `open` marks the range of the block that is not closed yet. */
  datatype Entry = Entry(begin: nat, end: Bound, open: bool)

  /** Does the entry cover `n` when the open block is taken to end at `x`? */
  predicate EntryCovers(e: Entry, n: nat, x: Bound) {
    e.begin <= n && UpTo(n, if e.open then x else e.end)
  }

  ghost predicate ListCovers(es: seq<Entry>, n: nat, x: Bound) {
    exists i :: 0 <= i < |es| && EntryCovers(es[i], n, x)
  }

  predicate Inside(e: Entry, outer: Entry) {
    outer.begin <= e.begin && NoLater(e.end, outer.end)
  }

  predicate Drops(es: seq<Entry>, e: Entry) {
    es != [] && Inside(e, es[|es| - 1])
  }

  /** Appends the entry unless the last one contains it. */
  function Store(es: seq<Entry>, e: Entry): seq<Entry> {
    if Drops(es, e) then es else es + [e]
  }

  function Settle(e: Entry, line: nat): Entry {
    if e.open then Entry(e.begin, At(line), false) else e
  }

  function SettleAll(es: seq<Entry>, line: nat): (fs: seq<Entry>)
    ensures |fs| == |es| && forall i :: 0 <= i < |es| ==> fs[i] == Settle(es[i], line)
  {
    seq(|es|, i requires 0 <= i < |es| => Settle(es[i], line))
  }

  /** The list of each category, and where the open block starts. */
  datatype Table = Table(lists: map<Category, seq<Entry>>, start: Bound)
  {
    function Of(c: Category): seq<Entry> { if c in lists then lists[c] else [] }
  }

  const EMPTY := Table(map[], Never)

  function Put(t: Table, c: Category, e: Entry): Table {
    t.(lists := t.lists[c := Store(t.Of(c), e)])
  }

  function OpenAt(t: Table, line: nat): Table {
    if t.start.Never? then t.(start := At(line)) else t
  }

  function Close(t: Table, line: nat): Table {
    if t.start.Never? then t else Table(map c | c in t.lists :: SettleAll(t.lists[c], line), Never)
  }

  lemma PutOf(t: Table, c: Category, e: Entry, d: Category)
    ensures Put(t, c, e).start == t.start
    ensures Put(t, c, e).Of(d) == if d == c then Store(t.Of(c), e) else t.Of(d)
  {
  }

  lemma CloseOf(t: Table, line: nat, d: Category)
    ensures Close(t, line).start == Never
    ensures Close(t, line).Of(d) == if t.start.Never? then t.Of(d) else SettleAll(t.Of(d), line)
  {
  }

  /** The entry a directive stores; `start` is where the open block starts once it has acted. */
  function EntryFor(d: Directive, start: Bound): Entry {
    match d
    case Global(_) => Entry(0, Never, false)
    case Nolint(kind, _, line) =>
      match kind
      case ThisLine | End => Entry(line, At(line), false)
      case NextLine => Entry(line + 1, At(line + 1), false)
      case Begin => Entry(if start.At? then start.line else line, Never, true)
  }

  /** One call of ProcessCategory. */
  function Note(t: Table, d: Directive, c: Category): Table {
    if d.Nolint? && d.kind.End? then Close(t, d.line)
    else
      var u := if Opens(d) then OpenAt(t, d.line) else t;
      Put(u, c, EntryFor(d, u.start))
  }

  function NoteAll(t: Table, d: Directive, k: nat): Table
    requires k <= |d.categories|
  {
    if k == 0 then t else Note(NoteAll(t, d, k - 1), d, d.categories[k - 1])
  }

  function Record(t: Table, d: Directive): Table {
    NoteAll(t, d, |d.categories|)
  }

  function TableOf(h: seq<Directive>): Table {
    if h == [] then EMPTY else Record(TableOf(h[..|h| - 1]), h[|h| - 1])
  }

  // ---------- how a directive changes the list of one category ----------

  predicate IsEnd(d: Directive) { d.Nolint? && d.kind.End? }

  lemma {:induction false} EndOnce(t: Table, d: Directive, k: nat)
    requires IsEnd(d) && 0 < k <= |d.categories|
    ensures NoteAll(t, d, k) == Close(t, d.line)
  {
    if k > 1 {
      EndOnce(t, d, k - 1);
    }
  }

  lemma StoreTwice(es: seq<Entry>, e: Entry)
    ensures Store(Store(es, e), e) == Store(es, e)
  {
  }

  lemma {:induction false} StartAfter(t: Table, d: Directive, k: nat)
    requires !IsEnd(d) && k <= |d.categories|
    ensures NoteAll(t, d, k).start == if k > 0 && Opens(d) then OpenAt(t, d.line).start else t.start
  {
    if k > 0 {
      StartAfter(t, d, k - 1);
      var v := NoteAll(t, d, k - 1);
      var u := if Opens(d) then OpenAt(v, d.line) else v;
      PutOf(u, d.categories[k - 1], EntryFor(d, u.start), All);
    }
  }

  lemma NoteOne(t: Table, d: Directive, c': Category, c: Category, start: Bound)
    requires !IsEnd(d) && (Opens(d) ==> OpenAt(t, d.line).start == start) && (d.Nolint? && d.kind.Begin? ==> Opens(d))
    ensures Note(t, d, c').Of(c) == if c == c' then Store(t.Of(c), EntryFor(d, start)) else t.Of(c)
  {
    var u := if Opens(d) then OpenAt(t, d.line) else t;
    PutOf(u, c', EntryFor(d, u.start), c);
    assert EntryFor(d, u.start) == EntryFor(d, start);
  }

  lemma InPrefix(cs: seq<Category>, k: nat, c: Category)
    requires 0 < k <= |cs|
    ensures c in cs[..k] <==> c in cs[..k - 1] || c == cs[k - 1]
  {
    assert cs[..k] == cs[..k - 1] + [cs[k - 1]];
  }

  /** A category named twice changes nothing: what was stored or dropped once is dropped again. */
  lemma {:induction false} StoredOnce(t: Table, d: Directive, k: nat, c: Category, start: Bound)
    requires !IsEnd(d) && k <= |d.categories|
    requires start == if Opens(d) then OpenAt(t, d.line).start else t.start
    ensures NoteAll(t, d, k).Of(c) == if c in d.categories[..k] then Store(t.Of(c), EntryFor(d, start)) else t.Of(c)
  {
    if k > 0 {
      var u := NoteAll(t, d, k - 1);
      StoredOnce(t, d, k - 1, c, start);
      StartAfter(t, d, k - 1);
      NoteOne(u, d, d.categories[k - 1], c, start);
      StoreTwice(t.Of(c), EntryFor(d, start));
      InPrefix(d.categories, k, c);
    }
  }

  lemma {:induction false} TableStart(h: seq<Directive>)
    ensures TableOf(h).start == OpenSince(h)
  {
    if h != [] {
      var d, t := h[|h| - 1], TableOf(h[..|h| - 1]);
      TableStart(h[..|h| - 1]);
      if IsEnd(d) {
        if d.categories != [] {
          EndOnce(t, d, |d.categories|);
        }
      } else {
        StartAfter(t, d, |d.categories|);
      }
    }
  }

  /** The list of `c` after one more directive. */
  lemma ListAfter(h: seq<Directive>, d: Directive, c: Category)
    ensures var es, fs := TableOf(h).Of(c), TableOf(h + [d]).Of(c);
            fs == if Closes(d) && OpenSince(h).At? then SettleAll(es, d.line)
                  else if c in d.categories && !IsEnd(d) then Store(es, EntryFor(d, OpenSince(h + [d]))) else es
  {
    assert (h + [d])[..|h|] == h;
    TableStart(h);
    TableStart(h + [d]);
    if IsEnd(d) {
      if d.categories != [] {
        EndOnce(TableOf(h), d, |d.categories|);
        CloseOf(TableOf(h), d.line, c);
      }
    } else {
      StartAfter(TableOf(h), d, |d.categories|);
      StoredOnce(TableOf(h), d, |d.categories|, c, if Opens(d) then OpenAt(TableOf(h), d.line).start else OpenSince(h));
      assert d.categories[..|d.categories|] == d.categories;
    }
  }

  lemma StaysOpen(h: seq<Directive>, d: Directive, e: Entry)
    requires OpenSince(h) == At(e.begin) && !Closes(d)
    ensures OpenSince(h + [d]) == At(e.begin)
  {
    assert (h + [d])[..|h|] == h;
  }

  lemma OpenedNow(h: seq<Directive>, d: Directive, c: Category)
    requires c in d.categories && !IsEnd(d) && EntryFor(d, OpenSince(h + [d])).open
    ensures OpenSince(h + [d]) == At(EntryFor(d, OpenSince(h + [d])).begin)
  {
    assert (h + [d])[..|h|] == h;
  }

  /** Only the range of the block that is open now is marked open. */
  lemma {:induction false} OpenEntries(h: seq<Directive>, c: Category, k: nat)
    requires k < |TableOf(h).Of(c)| && TableOf(h).Of(c)[k].open
    ensures OpenSince(h) == At(TableOf(h).Of(c)[k].begin)
    decreases |h|
  {
    if h != [] {
      var before, d := h[..|h| - 1], h[|h| - 1];
      assert h == before + [d];
      ListAfter(before, d, c);
      var es := TableOf(before).Of(c);
      if k < |es| && es[k].open {
        OpenEntries(before, c, k);
        StaysOpen(before, d, es[k]);
      } else {
        OpenedNow(before, d, c);
      }
    }
  }

  // ---------- which directives are lost ----------

  /** Directive `i` stores nothing for `c`, because the open block's range is the last one and contains it. */
  ghost predicate Swallowed(h: seq<Directive>, i: nat, c: Category)
    requires i < |h|
  {
    var es := TableOf(h[..i]).Of(c);
    !IsEnd(h[i]) && c in h[i].categories && es != [] && es[|es| - 1].open
    && Drops(es, EntryFor(h[i], OpenSince(h[..i + 1])))
  }

  /** Line `n` was swallowed, and lies past the END that closes the block. */
  ghost predicate LostUntil(h: seq<Directive>, i: nat, c: Category, n: nat, x: Bound)
    requires i < |h|
  {
    Swallowed(h, i, c) && !UpTo(n, EndFrom(h, i + 1, x))
  }

  ghost predicate Keeps(h: seq<Directive>, i: nat, c: Category, n: nat, x: Bound)
    requires i < |h|
  {
    CoversAt(h, i, c, n, x) && !LostUntil(h, i, c, n, x)
  }

  ghost predicate KeptUntil(h: seq<Directive>, c: Category, n: nat, x: Bound) {
    exists i :: 0 <= i < |h| && Keeps(h, i, c, n, x)
  }

  lemma StoreCovers(es: seq<Entry>, e: Entry, n: nat, x: Bound)
    ensures ListCovers(Store(es, e), n, x) <==>
            ListCovers(es, n, x) || (!Drops(es, e) && EntryCovers(e, n, x))
  {
    var fs := es + [e];
    if ListCovers(es, n, x) {
      var i :| 0 <= i < |es| && EntryCovers(es[i], n, x);
      assert EntryCovers(fs[i], n, x);
    }
    if EntryCovers(e, n, x) {
      assert EntryCovers(fs[|es|], n, x);
    }
  }

  /** A dropped entry is missed only if the open block swallowed it and ends too early. */
  lemma DropLoses(es: seq<Entry>, e: Entry, n: nat, x: Bound)
    requires Drops(es, e) && EntryCovers(e, n, x) && (e.open ==> e.end.Never?)
    ensures ListCovers(es, n, x) || (es[|es| - 1].open && !UpTo(n, x))
  {
    var last := es[|es| - 1];
    if !(last.open && !UpTo(n, x)) {
      assert EntryCovers(last, n, x);
    }
  }

  /** Closing the block in place gives what was foreseen for this end. */
  lemma SettleCovers(es: seq<Entry>, line: nat, n: nat, x: Bound)
    ensures ListCovers(SettleAll(es, line), n, x) <==> ListCovers(es, n, At(line))
  {
    var fs := SettleAll(es, line);
    if ListCovers(fs, n, x) {
      var i :| 0 <= i < |fs| && EntryCovers(fs[i], n, x);
      assert EntryCovers(es[i], n, At(line));
    }
    if ListCovers(es, n, At(line)) {
      var i :| 0 <= i < |es| && EntryCovers(es[i], n, At(line));
      assert EntryCovers(fs[i], n, x);
    }
  }

  lemma {:induction false} EndFromSnoc(h: seq<Directive>, d: Directive, j: nat, x: Bound)
    requires j <= |h|
    ensures EndFrom(h + [d], j, x) == EndFrom(h, j, if Closes(d) then At(d.line) else x)
    decreases |h| - j
  {
    if j < |h| {
      EndFromSnoc(h, d, j + 1, x);
    }
  }

  lemma CoversAtSnoc(h: seq<Directive>, d: Directive, i: nat, c: Category, n: nat, x: Bound)
    requires i < |h|
    ensures CoversAt(h + [d], i, c, n, x) <==> CoversAt(h, i, c, n, if Closes(d) then At(d.line) else x)
  {
    assert (h + [d])[..i + 1] == h[..i + 1];
    EndFromSnoc(h, d, i + 1, x);
  }

  lemma KeepsSnoc(h: seq<Directive>, d: Directive, i: nat, c: Category, n: nat, x: Bound)
    requires i < |h|
    ensures Keeps(h + [d], i, c, n, x) <==> Keeps(h, i, c, n, if Closes(d) then At(d.line) else x)
  {
    CoversAtSnoc(h, d, i, c, n, x);
    EndFromSnoc(h, d, i + 1, x);
    assert (h + [d])[..i] == h[..i] && (h + [d])[..i + 1] == h[..i + 1];
  }

  lemma KeptSnoc(h: seq<Directive>, d: Directive, c: Category, n: nat, x: Bound)
    ensures KeptUntil(h + [d], c, n, x) <==>
            KeptUntil(h, c, n, if Closes(d) then At(d.line) else x) || Keeps(h + [d], |h|, c, n, x)
  {
    var all, x' := h + [d], if Closes(d) then At(d.line) else x;
    if KeptUntil(all, c, n, x) {
      var i :| 0 <= i < |all| && Keeps(all, i, c, n, x);
      if i < |h| {
        KeepsSnoc(h, d, i, c, n, x);
      }
    }
    if KeptUntil(h, c, n, x') {
      var i :| 0 <= i < |h| && Keeps(h, i, c, n, x');
      KeepsSnoc(h, d, i, c, n, x);
      assert Keeps(all, i, c, n, x);
    }
  }

  /** What the newest directive covers is what its entry covers. */
  lemma CoversLast(h: seq<Directive>, d: Directive, c: Category, n: nat, x: Bound)
    ensures CoversAt(h + [d], |h|, c, n, x) <==>
            !IsEnd(d) && c in d.categories && EntryCovers(EntryFor(d, OpenSince(h + [d])), n, x)
  {
    var all := h + [d];
    assert all[..|h| + 1] == all && all[..|all| - 1] == h;
    assert EndFrom(all, |h| + 1, x) == x;
  }

  lemma KeepsLast(h: seq<Directive>, d: Directive, c: Category, n: nat, x: Bound)
    ensures var es, e := TableOf(h).Of(c), EntryFor(d, OpenSince(h + [d]));
            Keeps(h + [d], |h|, c, n, x) <==>
            !IsEnd(d) && c in d.categories && EntryCovers(e, n, x)
            && !(Drops(es, e) && es[|es| - 1].open && !UpTo(n, x))
  {
    var all := h + [d];
    CoversLast(h, d, c, n, x);
    assert all[..|h|] == h && all[..|h| + 1] == all;
    assert EndFrom(all, |h| + 1, x) == x;
  }

  /** The table covers exactly the lines that some directive covers and does not lose: for every history. */
  lemma {:induction false} TableExact(h: seq<Directive>, c: Category, n: nat, x: Bound)
    ensures ListCovers(TableOf(h).Of(c), n, x) <==> KeptUntil(h, c, n, x)
    decreases |h|
  {
    if h != [] {
      var before, d := h[..|h| - 1], h[|h| - 1];
      assert h == before + [d];
      var es, e := TableOf(before).Of(c), EntryFor(d, OpenSince(h));
      ListAfter(before, d, c);
      KeptSnoc(before, d, c, n, x);
      KeepsLast(before, d, c, n, x);
      if Closes(d) {
        TableExact(before, c, n, At(d.line));
        SettleCovers(es, d.line, n, x);
        if OpenSince(before).Never? {
          NothingOpen(before, c, n, x, At(d.line));
        }
      } else {
        TableExact(before, c, n, x);
        if c in d.categories && !IsEnd(d) {
          StoreCovers(es, e, n, x);
          if Drops(es, e) && EntryCovers(e, n, x) {
            DropLoses(es, e, n, x);
          }
        }
      }
    }
  }

  lemma NothingOpen(h: seq<Directive>, c: Category, n: nat, x: Bound, y: Bound)
    requires OpenSince(h).Never?
    ensures ListCovers(TableOf(h).Of(c), n, x) <==> ListCovers(TableOf(h).Of(c), n, y)
  {
    var es := TableOf(h).Of(c);
    forall k | 0 <= k < |es| ensures EntryCovers(es[k], n, x) <==> EntryCovers(es[k], n, y) {
      if es[k].open {
        OpenEntries(h, c, k);
      }
    }
  }

  // ---------- when the table is exact ----------

  /** What the table answers, for a category and for all categories together. */
  ghost predicate Reported(h: seq<Directive>, c: Category, n: nat) {
    ListCovers(TableOf(h).Of(c), n, Never) || ListCovers(TableOf(h).Of(All), n, Never)
  }

  ghost predicate Meant(h: seq<Directive>, c: Category, n: nat) {
    Covered(h, c, n) || Covered(h, All, n)
  }

  ghost predicate Exact(h: seq<Directive>) {
    forall c, n :: Reported(h, c, n) <==> Meant(h, c, n)
  }

  /** Directive `i` covers the line and loses it. */
  ghost predicate Loses(h: seq<Directive>, i: nat, c: Category, n: nat)
    requires i < |h|
  {
    CoversAt(h, i, c, n, Never) && LostUntil(h, i, c, n, Never)
  }

  ghost predicate SomeLoses(h: seq<Directive>, c: Category, n: nat) {
    exists i :: 0 <= i < |h| && (Loses(h, i, c, n) || Loses(h, i, All, n))
  }

  ghost predicate SomeKeeps(h: seq<Directive>, c: Category, n: nat) {
    KeptUntil(h, c, n, Never) || KeptUntil(h, All, n, Never)
  }

  lemma CoveredSplits(h: seq<Directive>, c: Category, n: nat)
    ensures Covered(h, c, n) <==> KeptUntil(h, c, n, Never) || exists i :: 0 <= i < |h| && Loses(h, i, c, n)
  {
    if Covered(h, c, n) {
      var i :| 0 <= i < |h| && CoversAt(h, i, c, n, Never);
      assert Keeps(h, i, c, n, Never) || Loses(h, i, c, n);
    }
  }

  lemma ExactAt(h: seq<Directive>, c: Category, n: nat)
    ensures (Reported(h, c, n) <==> Meant(h, c, n)) <==> (SomeLoses(h, c, n) ==> SomeKeeps(h, c, n))
  {
    TableExact(h, c, n, Never);
    TableExact(h, All, n, Never);
    CoveredSplits(h, c, n);
    CoveredSplits(h, All, n);
    if i :| 0 <= i < |h| && Loses(h, i, c, n) {
      assert SomeLoses(h, c, n);
    }
    if i :| 0 <= i < |h| && Loses(h, i, All, n) {
      assert SomeLoses(h, c, n);
    }
  }

  /**
   For every history, the table is exact if and only if every line that the open block swallowed and that
   lies past the END of the block is covered by a directive that does not lose it.
   */
  lemma ExactIff(h: seq<Directive>)
    ensures Exact(h) <==> forall c, n :: SomeLoses(h, c, n) ==> SomeKeeps(h, c, n)
  {
    forall c, n ensures (Reported(h, c, n) <==> Meant(h, c, n)) <==> (SomeLoses(h, c, n) ==> SomeKeeps(h, c, n)) {
      ExactAt(h, c, n);
    }
  }

  // ---------- conditions on the directives alone ----------

  predicate Targets(d: Directive, n: nat) {
    d.Global? || (d.kind.ThisLine? && n == d.line) || (d.kind.NextLine? && n == d.line + 1)
  }

  /** The directive suppresses line `n`, and the next END is on an earlier line. */
  ghost predicate PastEnd(h: seq<Directive>, i: nat, n: nat)
    requires i < |h|
  {
    Targets(h[i], n) && !UpTo(n, EndFrom(h, i + 1, Never)) && (h[i].Global? ==> OpenSince(h[..i]) == At(0))
  }

  /** No END comes before a line suppressed since its BEGIN. */
  ghost predicate Tame(h: seq<Directive>) {
    forall i, n :: 0 <= i < |h| ==> !PastEnd(h, i, n)
  }

  /** A directive for line `n` that reaches past the next END is met again later. */
  ghost predicate MetAgain(h: seq<Directive>, n: nat) {
    forall i :: 0 <= i < |h| && PastEnd(h, i, n) ==> exists k :: i < k < |h| && h[k] == h[i]
  }

  lemma LostIsPastEnd(h: seq<Directive>, i: nat, c: Category, n: nat)
    requires i < |h| && Loses(h, i, c, n)
    ensures PastEnd(h, i, n)
  {
    var es := TableOf(h[..i]).Of(c);
    if h[i].Global? {
      OpenEntries(h[..i], c, |es| - 1);
    }
  }

  lemma {:induction false} LastOneKeeps(h: seq<Directive>, i: nat, c: Category, n: nat)
    requires i < |h| && MetAgain(h, n) && CoversAt(h, i, c, n, Never)
    ensures KeptUntil(h, c, n, Never)
    decreases |h| - i
  {
    if Loses(h, i, c, n) {
      LostIsPastEnd(h, i, c, n);
      var k :| i < k < |h| && h[k] == h[i];
      LastOneKeeps(h, k, c, n);
    } else {
      assert Keeps(h, i, c, n, Never);
    }
  }

  lemma MetAgainCovered(h: seq<Directive>, c: Category, n: nat)
    requires MetAgain(h, n) && Covered(h, c, n)
    ensures KeptUntil(h, c, n, Never)
  {
    var i :| 0 <= i < |h| && CoversAt(h, i, c, n, Never);
    LastOneKeeps(h, i, c, n);
  }

  /** A caller can check this before asking for line `n`. */
  lemma MetAgainExact(h: seq<Directive>, c: Category, n: nat)
    requires MetAgain(h, n)
    ensures Reported(h, c, n) <==> Meant(h, c, n)
  {
    ExactAt(h, c, n);
    if Meant(h, c, n) {
      MetAgainCovered(h, if Covered(h, c, n) then c else All, n);
    }
  }

  lemma TameExact(h: seq<Directive>)
    requires Tame(h)
    ensures Exact(h)
  {
    forall c, n ensures Reported(h, c, n) <==> Meant(h, c, n) {
      MetAgainExact(h, c, n);
    }
  }

  lemma {:induction false} EndLater(h: seq<Directive>, j: nat)
    requires j <= |h| && EndFrom(h, j, Never).At?
    ensures exists k :: j <= k < |h| && Closes(h[k]) && h[k].line == EndFrom(h, j, Never).line
    decreases |h| - j
  {
    if !Closes(h[j]) {
      EndLater(h, j + 1);
    }
  }

  lemma {:induction false} OpenedSomewhere(h: seq<Directive>)
    requires OpenSince(h).At?
    ensures exists k :: 0 <= k < |h| && Opens(h[k]) && h[k].line == OpenSince(h).line
  {
    var before, d := h[..|h| - 1], h[|h| - 1];
    if Opens(d) && OpenSince(before).Never? {
      assert Opens(h[|h| - 1]);
    } else {
      OpenedSomewhere(before);
      var k :| 0 <= k < |before| && Opens(before[k]) && before[k].line == OpenSince(before).line;
      assert h[k] == before[k];
    }
  }

  /** Directives in increasing order of lines, at most one a line, are tame; nested BEGINs are allowed. */
  lemma InOrderExact(h: seq<Directive>)
    requires InOrder(h)
    ensures Tame(h) && Exact(h)
  {
    forall i, n | 0 <= i < |h| ensures !PastEnd(h, i, n) {
      if PastEnd(h, i, n) {
        EndLater(h, i + 1);
        if h[i].Global? {
          OpenedSomewhere(h[..i]);
        }
      }
    }
    TameExact(h);
  }

  /** Without nesting, a block starts on the line of its own BEGIN. */
  lemma UnnestedStart(h: seq<Directive>, i: nat)
    requires i < |h| && Opens(h[i]) && OpenSince(h[..i]).Never?
    ensures OpenSince(h[..i + 1]) == At(h[i].line)
  {
    assert h[..i + 1][..i] == h[..i];
  }

  const AHEAD: seq<Directive> := [Nolint(Begin, [All], 1), Nolint(ThisLine, [All], 4), Nolint(End, [All], 2)]

  lemma TableAhead()
    ensures TableOf(AHEAD).Of(All) == [Entry(1, At(2), false)]
  {
    var h1, h2 := AHEAD[..1], AHEAD[..2];
    assert h1 == [] + [AHEAD[0]] && h2 == h1 + [AHEAD[1]] && AHEAD == h2 + [AHEAD[2]];
    assert h1[..0] == [] && h2[..1] == h1;
    assert OpenSince(h1) == At(1) && OpenSince(h2) == At(1);
    assert TableOf(h1).Of(All) == [Entry(1, Never, true)] by {
      ListAfter([], AHEAD[0], All);
    }
    assert TableOf(h2).Of(All) == [Entry(1, Never, true)] by {
      ListAfter(h1, AHEAD[1], All);
    }
    ListAfter(h2, AHEAD[2], All);
  }

  /** A line can be lost: line 4 is met ahead inside the block of line 1, which then ends on line 2. */
  lemma OutOfOrderLoses()
    ensures Meant(AHEAD, All, 4) && !Reported(AHEAD, All, 4)
  {
    TableAhead();
    assert CoversAt(AHEAD, 1, All, 4, Never);
  }
}
