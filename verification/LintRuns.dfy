/** The order in which cpplint really meets the directives of a file. */
module LintRuns {
  // Whole-file suppressions come first, then the lines of the header guard, then every line in turn; after a line,
  // CheckTrailingSemicolon may parse the line of a closing brace further on, and the one before it, which the
  // main loop parses again later.  Here the order of parsing also says what the directives mean: what is proved
  // is that the table loses nothing for a line that the main loop has reached, nor for the closing brace itself.
  // When that is also what the file says line by line is the subject of LineOrder and LookAheads.

  import opened Nolint

  /** What NOLINT comment a line carries; at most one is looked at. */
  datatype Mark = Plain | Marked(kind: Kind, categories: seq<Category>)

  /** One call of ParseNolintSuppressions. */
  function Parse(file: seq<Mark>, k: int): (h: seq<Directive>)
    ensures |h| <= 1
  {
    if 0 <= k < |file| && file[k].Marked? then [Nolint(file[k].kind, file[k].categories, k)] else []
  }

  /** For a closing brace looked at: the line before it and its own line. */
  function Pair(file: seq<Mark>, end: int): seq<Directive> { Parse(file, end - 1) + Parse(file, end) }

  function Ahead(file: seq<Mark>, ends: seq<nat>): seq<Directive> {
    if ends == [] then [] else Pair(file, ends[0]) + Ahead(file, ends[1..])
  }

  /** What the main loop meets while it is at line `k`. */
  function Turn(file: seq<Mark>, looks: seq<seq<nat>>, k: nat): seq<Directive>
    requires k < |looks|
  {
    Parse(file, k) + Ahead(file, looks[k])
  }

  /** The main loop over the lines from `lo` up to `hi`; `looks[k]` are the closing braces met from line `k`. */
  function MainLoop(file: seq<Mark>, looks: seq<seq<nat>>, lo: nat, hi: nat): seq<Directive>
    requires lo <= hi <= |file| == |looks|
    decreases hi - lo
  {
    if lo == hi then [] else Turn(file, looks, lo) + MainLoop(file, looks, lo + 1, hi)
  }

  function HeaderGuard(file: seq<Mark>, guard: seq<nat>): seq<Directive> {
    if guard == [] then [] else Parse(file, guard[0]) + HeaderGuard(file, guard[1..])
  }

  function WholeFile(globals: seq<Category>): (h: seq<Directive>)
    ensures |h| == |globals| && forall i :: 0 <= i < |h| ==> h[i] == Global([globals[i]])
  {
    seq(|globals|, i requires 0 <= i < |globals| => Global([globals[i]]))
  }

  /** All directives met once the main loop has done the lines before `hi`. */
  function History(globals: seq<Category>, guard: seq<nat>, file: seq<Mark>, looks: seq<seq<nat>>,
                   hi: nat): seq<Directive>
    requires hi <= |file| == |looks|
  {
    WholeFile(globals) + (HeaderGuard(file, guard) + MainLoop(file, looks, 0, hi))
  }

  /** A closing brace is never before its opening brace. */
  ghost predicate Forwards(looks: seq<seq<nat>>) {
    forall k, i :: 0 <= k < |looks| && 0 <= i < |looks[k]| ==> looks[k][i] >= k
  }

  // ---------- where the directives come from ----------

  /** Every directive is the one its line carries, and no line is before `lo`. */
  ghost predicate From(file: seq<Mark>, h: seq<Directive>, lo: int) {
    forall i :: 0 <= i < |h| ==> h[i].Nolint? && lo <= h[i].line < |file| && Parse(file, h[i].line) == [h[i]]
  }

  lemma FromConcat(file: seq<Mark>, u: seq<Directive>, v: seq<Directive>, lo: int)
    requires From(file, u, lo) && From(file, v, lo)
    ensures From(file, u + v, lo)
  {
  }

  lemma {:induction false} AheadFrom(file: seq<Mark>, ends: seq<nat>, lo: int)
    requires forall i :: 0 <= i < |ends| ==> ends[i] > lo
    ensures From(file, Ahead(file, ends), lo)
  {
    if ends != [] {
      AheadFrom(file, ends[1..], lo);
      FromConcat(file, Pair(file, ends[0]), Ahead(file, ends[1..]), lo);
    }
  }

  lemma TurnFrom(file: seq<Mark>, looks: seq<seq<nat>>, k: nat)
    requires k < |looks| && Forwards(looks)
    ensures From(file, Turn(file, looks, k), k - 1)
  {
    AheadFrom(file, looks[k], k - 1);
    FromConcat(file, Parse(file, k), Ahead(file, looks[k]), k - 1);
  }

  lemma {:induction false} MainLoopFrom(file: seq<Mark>, looks: seq<seq<nat>>, lo: nat, hi: nat)
    requires lo <= hi <= |file| == |looks| && Forwards(looks)
    ensures From(file, MainLoop(file, looks, lo, hi), lo - 1)
    decreases hi - lo
  {
    if lo < hi {
      var turn, rest := Turn(file, looks, lo), MainLoop(file, looks, lo + 1, hi);
      assert From(file, turn, lo - 1) by {
        TurnFrom(file, looks, lo);
      }
      assert From(file, rest, lo - 1) by {
        MainLoopFrom(file, looks, lo + 1, hi);
      }
      FromConcat(file, turn, rest, lo - 1);
      assert MainLoop(file, looks, lo, hi) == turn + rest;
    }
  }

  lemma {:induction false} GuardFrom(file: seq<Mark>, guard: seq<nat>)
    ensures From(file, HeaderGuard(file, guard), 0)
  {
    if guard != [] {
      GuardFrom(file, guard[1..]);
      FromConcat(file, Parse(file, guard[0]), HeaderGuard(file, guard[1..]), 0);
    }
  }

  /** `d` comes again, from index `i` on. */
  ghost predicate Later(h: seq<Directive>, i: nat, d: Directive) {
    exists k :: i <= k < |h| && h[k] == d
  }

  lemma LaterInSecond(u: seq<Directive>, v: seq<Directive>, i: nat, d: Directive)
    requires Later(v, i, d)
    ensures Later(u + v, |u| + i, d)
  {
    var k :| i <= k < |v| && v[k] == d;
    assert (u + v)[|u| + k] == d;
  }

  lemma LaterInFirst(u: seq<Directive>, v: seq<Directive>, i: nat, d: Directive)
    requires Later(u, i, d)
    ensures Later(u + v, i, d)
  {
    var k :| i <= k < |u| && u[k] == d;
    assert (u + v)[k] == d;
  }

  lemma LaterEarlier(h: seq<Directive>, i: nat, j: nat, d: Directive)
    requires Later(h, j, d) && i <= j
    ensures Later(h, i, d)
  {
  }

  /** The main loop meets the directive of each of its lines. */
  lemma {:induction false} MetInLoop(file: seq<Mark>, looks: seq<seq<nat>>, lo: nat, hi: nat, d: Directive)
    requires lo <= hi <= |file| == |looks| && d.Nolint? && lo <= d.line < hi && Parse(file, d.line) == [d]
    ensures Later(MainLoop(file, looks, lo, hi), 0, d)
    decreases hi - lo
  {
    var first, rest := Turn(file, looks, lo), MainLoop(file, looks, lo + 1, hi);
    if d.line == lo {
      assert first[0] == d;
      LaterInFirst(first, rest, 0, d);
    } else {
      MetInLoop(file, looks, lo + 1, hi, d);
      LaterInSecond(first, rest, 0, d);
      LaterEarlier(first + rest, 0, |first|, d);
    }
  }

  /** The line before a closing brace is parsed right before the line of the brace. */
  lemma {:induction false} MetInPair(file: seq<Mark>, ends: seq<nat>, j: nat, d: Directive)
    requires d.Nolint? && Parse(file, d.line) == [d] && forall i :: 0 <= i < |ends| ==> ends[i] >= d.line
    requires j < |Ahead(file, ends)| && Ahead(file, ends)[j].Nolint? && Ahead(file, ends)[j].line == d.line - 1
    ensures Later(Ahead(file, ends), j + 1, d)
  {
    var pair, rest := Pair(file, ends[0]), Ahead(file, ends[1..]);
    if j < |pair| {
      assert ends[0] == d.line && pair[1] == d;
      LaterInFirst(pair, rest, j + 1, d);
    } else {
      MetInPair(file, ends[1..], j - |pair|, d);
      LaterInSecond(pair, rest, j - |pair| + 1, d);
    }
  }

  // ---------- every lost directive is met again ----------

  lemma {:induction false} EndFromConcat(u: seq<Directive>, v: seq<Directive>, j: nat, x: Bound)
    requires j <= |v|
    ensures EndFrom(u + v, |u| + j, x) == EndFrom(v, j, x)
    decreases |v| - j
  {
    if j < |v| {
      EndFromConcat(u, v, j + 1, x);
    }
  }

  /** Whether a line directive reaches past its END depends only on what follows it. */
  lemma MetAgainConcat(u: seq<Directive>, v: seq<Directive>, n: nat)
    requires MetAgain(v, n) && forall i :: 0 <= i < |v| ==> v[i].Nolint?
    requires forall i :: 0 <= i < |u| && PastEnd(u + v, i, n) ==> Later(u + v, i + 1, u[i])
    ensures MetAgain(u + v, n)
  {
    var h := u + v;
    forall i | 0 <= i < |h| && PastEnd(h, i, n) ensures Later(h, i + 1, h[i]) {
      if i >= |u| {
        EndFromConcat(u, v, i + 1 - |u|, Never);
        assert PastEnd(v, i - |u|, n);
        var k :| i - |u| < k < |v| && v[k] == v[i - |u|];
        LaterInSecond(u, v, i - |u| + 1, v[i - |u|]);
      }
    }
  }

  /** The END that comes too early, and where it is. */
  lemma EarlyEnd(file: seq<Mark>, h: seq<Directive>, i: nat, n: nat, lo: int) returns (j: nat)
    requires From(file, h, lo) && i < |h| && PastEnd(h, i, n)
    ensures i < j < |h| && Closes(h[j]) && lo <= h[j].line < h[i].line <= n
  {
    EndLater(h, i + 1);
    j :| i + 1 <= j < |h| && Closes(h[j]) && h[j].line == EndFrom(h, i + 1, Never).line;
    if h[j].line == h[i].line {
      assert Parse(file, h[i].line) == [h[i]] && Parse(file, h[j].line) == [h[j]];
    }
  }

  lemma NotInRest(file: seq<Mark>, u: seq<Directive>, v: seq<Directive>, j: nat, lo: nat)
    requires From(file, v, lo) && j < |u + v| && (u + v)[j].Nolint? && (u + v)[j].line < lo
    ensures j < |u| && u[j] == (u + v)[j]
  {
  }

  /** One turn of the main loop: what it meets too far ahead comes again, in this turn or in a later one. */
  lemma TurnMeetsAgain(file: seq<Mark>, looks: seq<seq<nat>>, lo: nat, hi: nat, i: nat, n: nat,
                       u: seq<Directive>, v: seq<Directive>)
    requires lo < hi <= |file| == |looks| && Forwards(looks) && n < hi
    requires u == Turn(file, looks, lo) && v == MainLoop(file, looks, lo + 1, hi)
    requires i < |u| && PastEnd(u + v, i, n)
    ensures Later(u + v, i + 1, u[i])
  {
    TurnFrom(file, looks, lo);
    MainLoopFrom(file, looks, lo + 1, hi);
    FromConcat(file, u, v, lo - 1);
    var d := u[i];
    var j := EarlyEnd(file, u + v, i, n, lo - 1);
    if d.line > lo {
      MetInLoop(file, looks, lo + 1, hi, d);
      LaterInSecond(u, v, 0, d);
      LaterEarlier(u + v, i + 1, |u|, d);
    } else {
      NotInRest(file, u, v, j, lo);
      EndInTurn(file, looks, lo, j, d);
      LaterInFirst(u, v, j + 1, d);
      LaterEarlier(u + v, i + 1, j + 1, d);
    }
  }

  lemma EndInTurn(file: seq<Mark>, looks: seq<seq<nat>>, lo: nat, j: nat, d: Directive)
    requires lo < |looks| && Forwards(looks) && d.Nolint? && d.line == lo && Parse(file, lo) == [d]
    requires j < |Turn(file, looks, lo)| && Turn(file, looks, lo)[j].Nolint? && Turn(file, looks, lo)[j].line == lo - 1
    ensures Later(Turn(file, looks, lo), j + 1, d)
  {
    MetInPair(file, looks[lo], j - 1, d);
    LaterInSecond(Parse(file, lo), Ahead(file, looks[lo]), j, d);
  }

  lemma {:induction false} LoopMeetsAgain(file: seq<Mark>, looks: seq<seq<nat>>, lo: nat, hi: nat, n: nat)
    requires lo <= hi <= |file| == |looks| && Forwards(looks) && n < hi
    ensures MetAgain(MainLoop(file, looks, lo, hi), n)
    decreases hi - lo
  {
    if lo < hi {
      var u, v := Turn(file, looks, lo), MainLoop(file, looks, lo + 1, hi);
      LoopMeetsAgain(file, looks, lo + 1, hi, n);
      MainLoopFrom(file, looks, lo + 1, hi);
      forall i | 0 <= i < |u| && PastEnd(u + v, i, n) ensures Later(u + v, i + 1, u[i]) {
        TurnMeetsAgain(file, looks, lo, hi, i, n, u, v);
      }
      MetAgainConcat(u, v, n);
    }
  }

  lemma GuardMeetsAgain(file: seq<Mark>, looks: seq<seq<nat>>, guard: seq<nat>, hi: nat, n: nat)
    requires hi <= |file| == |looks| && Forwards(looks) && n < hi
    ensures MetAgain(HeaderGuard(file, guard) + MainLoop(file, looks, 0, hi), n)
  {
    var u, v := HeaderGuard(file, guard), MainLoop(file, looks, 0, hi);
    GuardFrom(file, guard);
    MainLoopFrom(file, looks, 0, hi);
    LoopMeetsAgain(file, looks, 0, hi, n);
    forall i | 0 <= i < |u| && PastEnd(u + v, i, n) ensures Later(u + v, i + 1, u[i]) {
      MetInLoop(file, looks, 0, hi, u[i]);
      LaterInSecond(u, v, 0, u[i]);
      LaterEarlier(u + v, i + 1, |u|, u[i]);
    }
    MetAgainConcat(u, v, n);
  }

  lemma {:induction false} NoBlockOpen(globals: seq<Category>, i: nat)
    requires i <= |globals|
    ensures OpenSince(WholeFile(globals)[..i]) == Never
  {
    if i > 0 {
      NoBlockOpen(globals, i - 1);
      assert WholeFile(globals)[..i][..i - 1] == WholeFile(globals)[..i - 1];
    }
  }

  lemma HistoryMeetsAgain(globals: seq<Category>, guard: seq<nat>, file: seq<Mark>, looks: seq<seq<nat>>,
                          hi: nat, n: nat)
    requires hi <= |file| == |looks| && Forwards(looks) && n < hi
    ensures MetAgain(History(globals, guard, file, looks, hi), n)
  {
    var u, v := WholeFile(globals), HeaderGuard(file, guard) + MainLoop(file, looks, 0, hi);
    GuardMeetsAgain(file, looks, guard, hi, n);
    GuardFrom(file, guard);
    MainLoopFrom(file, looks, 0, hi);
    forall i | 0 <= i < |u| ensures !PastEnd(u + v, i, n) {
      NoBlockOpen(globals, i);
      assert (u + v)[..i] == u[..i];
    }
    assert forall i :: 0 <= i < |v| ==> v[i].Nolint?;
    MetAgainConcat(u, v, n);
  }

  /**
   For every file and whatever lines are looked at ahead: once the main loop has done the lines before `hi`,
   the table answers for each of them what the directives say in the order in which they were parsed.
   */
  lemma RunIsExact(globals: seq<Category>, guard: seq<nat>, file: seq<Mark>, looks: seq<seq<nat>>,
                   hi: nat, c: Category, n: nat)
    requires hi <= |file| == |looks| && Forwards(looks) && n < hi
    ensures var h := History(globals, guard, file, looks, hi); Reported(h, c, n) <==> Meant(h, c, n)
  {
    HistoryMeetsAgain(globals, guard, file, looks, hi, n);
    MetAgainExact(History(globals, guard, file, looks, hi), c, n);
  }

  /** A line is suppressed as its own directive says once the main loop has met it. */
  lemma FoundWhenReached(globals: seq<Category>, guard: seq<nat>, file: seq<Mark>, looks: seq<seq<nat>>, hi: nat,
                         d: Directive, c: Category)
    requires hi <= |file| == |looks| && Forwards(looks)
    requires d.Nolint? && d.kind.ThisLine? && d.line < hi && Parse(file, d.line) == [d] && c in d.categories
    ensures Reported(History(globals, guard, file, looks, hi), c, d.line)
  {
    var h := History(globals, guard, file, looks, hi);
    var early, loop := HeaderGuard(file, guard), MainLoop(file, looks, 0, hi);
    MetInLoop(file, looks, 0, hi, d);
    LaterInSecond(early, loop, 0, d);
    LaterEarlier(early + loop, 0, |early|, d);
    LaterInSecond(WholeFile(globals), early + loop, 0, d);
    var k :| |WholeFile(globals)| <= k < |h| && h[k] == d;
    assert CoversAt(h, k, c, d.line, Never);
    RunIsExact(globals, guard, file, looks, hi, c, d.line);
  }

  // ---------- the line that is looked at ahead is asked about at once ----------

  lemma PairLast(file: seq<Mark>, w: seq<Directive>, end: nat, i: nat)
    requires i < |w| && w[i].Nolint? && Parse(file, w[i].line) == [w[i]] && end - 1 <= w[i].line <= end
    ensures Later(w + Pair(file, end), i + 1, w[i])
  {
    var pair := Pair(file, end);
    assert w[i] in pair;
    var k :| 0 <= k < |pair| && pair[k] == w[i];
    assert (w + pair)[|w| + k] == w[i];
  }

  lemma PairNotPast(file: seq<Mark>, w: seq<Directive>, end: nat, i: nat)
    requires |w| <= i < |w + Pair(file, end)|
    ensures !PastEnd(w + Pair(file, end), i, end)
  {
    var h := w + Pair(file, end);
    assert h[i] == Pair(file, end)[i - |w|];
    assert EndFrom(h, |h|, Never) == Never;
    if i + 1 < |h| {
      assert h[|h| - 1].line == end;
    }
  }

  /** Whatever was met before, in whatever order: nothing for the line is lost when its own pair is met last. */
  lemma PairMeetsAgain(file: seq<Mark>, globals: seq<Category>, w: seq<Directive>, end: nat)
    requires From(file, w, -1)
    ensures MetAgain(WholeFile(globals) + w + Pair(file, end), end)
  {
    var u := WholeFile(globals) + w;
    var h := u + Pair(file, end);
    forall i | 0 <= i < |globals| ensures !PastEnd(h, i, end) {
      NoBlockOpen(globals, i);
      assert h[..i] == WholeFile(globals)[..i];
    }
    forall i | 0 <= i < |h| && PastEnd(h, i, end) ensures Later(h, i + 1, h[i]) {
      if i < |u| {
        assert u[i] == w[i - |globals|];
        PairLast(file, u, end, i);
      } else {
        PairNotPast(file, u, end, i);
      }
    }
  }

  /** The question of CheckTrailingSemicolon, asked from line `k` about line `end`, is answered exactly. */
  lemma AskedAheadExact(globals: seq<Category>, guard: seq<nat>, file: seq<Mark>, looks: seq<seq<nat>>,
                        k: nat, end: nat, c: Category)
    requires k < |file| == |looks| && Forwards(looks)
    ensures var h := History(globals, guard, file, looks, k) + Parse(file, k) + Pair(file, end);
            Reported(h, c, end) <==> Meant(h, c, end)
  {
    var u, early, loop := WholeFile(globals), HeaderGuard(file, guard), MainLoop(file, looks, 0, k);
    var w := early + loop + Parse(file, k);
    assert From(file, w, -1) by {
      GuardFrom(file, guard);
      MainLoopFrom(file, looks, 0, k);
      FromConcat(file, early, loop, -1);
      FromConcat(file, early + loop, Parse(file, k), -1);
    }
    assert u + (early + loop) + Parse(file, k) == u + w;
    PairMeetsAgain(file, globals, w, end);
    MetAgainExact(u + w + Pair(file, end), c, end);
  }

  // ---------- other lines ahead are not answered exactly ----------

  const SAMPLE: seq<Mark> :=
    [Plain, Marked(Begin, [All]), Marked(End, [All]), Plain, Marked(ThisLine, [All])]

  /** The brace of line 1 closes on line 4. */
  const BRACES: seq<seq<nat>> := [[], [4], [], [], []]

  lemma SampleRun()
    ensures History([], [], SAMPLE, BRACES, 3) == AHEAD
  {
    var f, b := SAMPLE, BRACES;
    assert Ahead(f, []) == [] && Ahead(f, [4]) == Pair(f, 4) + Ahead(f, []);
    assert Turn(f, b, 0) == [] && Turn(f, b, 1) == [AHEAD[0], AHEAD[1]] && Turn(f, b, 2) == [AHEAD[2]];
    assert MainLoop(f, b, 3, 3) == [];
    assert MainLoop(f, b, 2, 3) == [AHEAD[2]];
    assert MainLoop(f, b, 1, 3) == AHEAD;
    assert MainLoop(f, b, 0, 3) == AHEAD;
    assert WholeFile([]) == [] && HeaderGuard(f, []) == [];
  }

  lemma SampleFound()
    ensures Reported(History([], [], SAMPLE, BRACES, 5), All, 4)
  {
    FoundWhenReached([], [], SAMPLE, BRACES, 5, Nolint(ThisLine, [All], 4), All);
  }

  /** A run that really happens: line 4 is lost once line 2 is done, and found again once line 4 is. */
  lemma LostAndFound()
    ensures !Reported(History([], [], SAMPLE, BRACES, 3), All, 4)
    ensures Reported(History([], [], SAMPLE, BRACES, 5), All, 4)
  {
    SampleFound();
    SampleRun();
    OutOfOrderLoses();
  }
}
