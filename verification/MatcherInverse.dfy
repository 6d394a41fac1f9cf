/** The matchers over whole files: what they find, that they invert each other, what cannot matter. */
module MatcherInverse {
  import opened Brackets
  import opened Matchers
  import opened MatcherTheorems

  // ---------- the file as one text ----------

  /** The lines from `k` on, run together. */
  function Tail(lines: seq<string>, k: nat): string
    decreases |lines| - k
  {
    if k >= |lines| then "" else lines[k] + Tail(lines, k + 1)
  }

  function Text(lines: seq<string>): string { Tail(lines, 0) }

  /** Where line `k` starts in the text. */
  function Offset(lines: seq<string>, k: nat): nat
    requires k <= |lines|
  {
    if k == 0 then 0 else Offset(lines, k - 1) + |lines[k - 1]|
  }

  lemma {:induction false} TailOfText(lines: seq<string>, k: nat)
    requires k <= |lines|
    ensures Offset(lines, k) <= |Text(lines)| && Text(lines)[Offset(lines, k)..] == Tail(lines, k)
  {
    if k > 0 {
      TailOfText(lines, k - 1);
      var t, o := Text(lines), Offset(lines, k - 1);
      assert t[o..] == lines[k - 1] + Tail(lines, k);
      assert t[o..][|lines[k - 1]|..] == Tail(lines, k);
    }
  }

  lemma LineOfText(lines: seq<string>, k: nat)
    requires k < |lines|
    ensures var o := Offset(lines, k);
            o + |lines[k]| == Offset(lines, k + 1) <= |Text(lines)| && Text(lines)[o..o + |lines[k]|] == lines[k]
  {
    TailOfText(lines, k);
    TailOfText(lines, k + 1);
    assert Text(lines)[Offset(lines, k)..] == lines[k] + Tail(lines, k + 1);
  }

  lemma {:induction false} OffsetGrows(lines: seq<string>, j: nat, k: nat)
    requires j <= k <= |lines|
    ensures Offset(lines, j) <= Offset(lines, k)
  {
    if j < k {
      OffsetGrows(lines, j, k - 1);
    }
  }

  /** A character of the file is at one place only. */
  lemma PlaceUnique(lines: seq<string>, j: nat, p: nat, k: nat, q: nat)
    requires j < |lines| && p < |lines[j]| && k < |lines| && q < |lines[k]|
    requires Offset(lines, j) + p == Offset(lines, k) + q
    ensures j == k && p == q
  {
    if j < k {
      OffsetGrows(lines, j + 1, k);
    } else if k < j {
      OffsetGrows(lines, k + 1, j);
    }
  }

  lemma CharAt(lines: seq<string>, k: nat, p: nat)
    requires k < |lines| && p < |lines[k]|
    ensures Offset(lines, k) + p < |Text(lines)| && Text(lines)[Offset(lines, k) + p] == lines[k][p]
  {
    LineOfText(lines, k);
  }

  // ---------- forwards over lines ----------

  /** The result of the forward matcher says where a scan of the text from `from` closes, if it does. */
  ghost predicate EndsAt(lines: seq<string>, place: Place, from: nat, o: Outcome) {
    match place
    case Found(l, e) => l < |lines| && 1 <= e <= |lines[l]| && Offset(lines, l) + e >= from
                        && o == Closed(Offset(lines, l) + e - from)
    case Missing => !o.Closed?
  }

  lemma TextFrom(lines: seq<string>, k: nat, i: nat)
    requires k < |lines| && i <= |lines[k]|
    ensures var from := Offset(lines, k) + i;
            from <= |Text(lines)| && Text(lines)[from..] == lines[k][i..] + Tail(lines, k + 1)
  {
    TailOfText(lines, k);
    assert Text(lines)[Offset(lines, k) + i..] == Text(lines)[Offset(lines, k)..][i..];
  }

  lemma ShiftEnds(lines: seq<string>, place: Place, from: nat, o: Outcome, n: nat)
    requires EndsAt(lines, place, from + n, o)
    ensures EndsAt(lines, place, from, Shift(n, o))
  {
  }

  lemma {:induction false} CloseFromScans(rx: Regexes, lines: seq<string>, k: nat, i: nat, stack: string)
    requires k < |lines| && i <= |lines[k]| && Forward(stack)
    ensures EndsAt(lines, CloseFrom(rx, lines, k, EndInLine(rx, lines[k], i, stack)), Offset(lines, k) + i,
                   Scan(lines[k][i..] + Tail(lines, k + 1), Erase(stack)))
    decreases |lines| - k
  {
    var line, rest := lines[k][i..], Tail(lines, k + 1);
    ScanConcat(line, rest, Erase(stack));
    EndInLineScans(rx, lines[k], i, stack);
    match EndInLine(rx, lines[k], i, stack)
    case At(e) =>
      ClosedInRange(line, Erase(stack));
      assert EndsAt(lines, Found(k, e), Offset(lines, k) + i, Scan(line + rest, Erase(stack)));
    case Failed =>
    case Open(stack') =>
      if k + 1 < |lines| {
        CloseFromScans(rx, lines, k + 1, 0, stack');
        assert lines[k + 1][0..] == lines[k + 1];
        var place := CloseFrom(rx, lines, k + 1, EndInLine(rx, lines[k + 1], 0, stack'));
        assert EndsAt(lines, place, Offset(lines, k) + i + |line|, Scan(rest, Erase(stack')));
        ShiftEnds(lines, place, Offset(lines, k) + i, Scan(rest, Erase(stack')), |line|);
      } else {
        assert rest == "" && line + rest == line;
      }
  }

  /** A primitive word from the opener at `a` to the closer just before `b`. */
  ghost predicate Pair(t: string, a: nat, b: nat) {
    a + 2 <= b <= |t| && Opener(t[a]) && Closer(t[b - 1]) && Primitive(Keep(t[a..b]))
  }

  lemma ScanFirst(t: string)
    requires t != "" && Opener(t[0])
    ensures Scan(t, "") == Shift(1, Scan(t[1..], [t[0]]))
  {
    assert "" + [t[0]] == [t[0]];
  }

  lemma FirstStep(rx: Regexes, line: string, p: nat)
    requires p < |line| && Opener(line[p])
    ensures Forward([line[p]]) && Erase([line[p]]) == [line[p]]
    ensures EndInLine(rx, line, p, "") == EndInLine(rx, line, p + 1, [line[p]])
  {
    assert "" + [line[p]] == [line[p]];
    ErasePush("", line[p]);
  }

  lemma CloseScans(rx: Regexes, lines: seq<string>, l: nat, p: nat)
    requires l < |lines| && p < |lines[l]| && Opener(lines[l][p])
    ensures var a := Offset(lines, l) + p;
            a < |Text(lines)| && EndsAt(lines, Close(rx, lines, l, p), a, Scan(Text(lines)[a..], ""))
  {
    TextFrom(lines, l, p);
    CloseScansRest(rx, lines, l, p);
  }

  lemma DropFirst(line: string, p: nat, rest: string)
    requires p < |line|
    ensures var t := line[p..] + rest; t[0] == line[p] && t[1..] == line[p + 1..] + rest
  {
  }

  lemma CloseScansRest(rx: Regexes, lines: seq<string>, l: nat, p: nat)
    requires l < |lines| && p < |lines[l]| && Opener(lines[l][p])
    ensures EndsAt(lines, Close(rx, lines, l, p), Offset(lines, l) + p, Scan(lines[l][p..] + Tail(lines, l + 1), ""))
  {
    var c, t := lines[l][p], lines[l][p..] + Tail(lines, l + 1);
    FirstStep(rx, lines[l], p);
    CloseFromScans(rx, lines, l, p + 1, [c]);
    DropFirst(lines[l], p, Tail(lines, l + 1));
    ScanFirst(t);
    ShiftEnds(lines, Close(rx, lines, l, p), Offset(lines, l) + p, Scan(t[1..], [c]), 1);
  }

  lemma PairCloses(t: string, a: nat, b: nat)
    requires a < b <= |t| && Opener(t[a])
    ensures Scan(t[a..], "") == Closed(b - a) <==> Pair(t, a, b)
  {
    ScanFindsPrimitive(t[a..], b - a);
    assert t[a..][..b - a] == t[a..b];
  }

  /**
   From an opener in ( [ {, the forward matcher returns the place just past a closer exactly when the
   brackets in between form one primitive balanced word.
   */
  lemma CloseFindsPairs(rx: Regexes, lines: seq<string>, l: nat, p: nat, l': nat, e: nat)
    requires l < |lines| && p < |lines[l]| && Opener(lines[l][p])
    requires l' < |lines| && 1 <= e <= |lines[l']|
    ensures Close(rx, lines, l, p) == Found(l', e) <==>
            Pair(Text(lines), Offset(lines, l) + p, Offset(lines, l') + e)
  {
    var t, a, b := Text(lines), Offset(lines, l) + p, Offset(lines, l') + e;
    CloseScans(rx, lines, l, p);
    CharAt(lines, l, p);
    CharAt(lines, l', e - 1);
    if a < b {
      PairCloses(t, a, b);
    }
    match Close(rx, lines, l, p)
    case Found(l1, e1) =>
      if Offset(lines, l1) + e1 == b {
        PlaceUnique(lines, l1, e1 - 1, l', e - 1);
      }
    case Missing =>
  }

  /** What the forward matcher returns is always a place in the file. */
  lemma CloseInFile(rx: Regexes, lines: seq<string>, l: nat, p: nat)
    requires l < |lines| && p < |lines[l]| && Opener(lines[l][p])
    ensures match Close(rx, lines, l, p)
            case Found(l', e) => l' < |lines| && 1 <= e <= |lines[l']|
            case Missing => true
  {
    CloseScans(rx, lines, l, p);
  }

  // ---------- backwards over lines ----------

  ghost predicate StartsAt(lines: seq<string>, place: Place, to: nat, o: Outcome) {
    match place
    case Found(l, p) => l < |lines| && p < |lines[l]| && Offset(lines, l) + p <= to
                        && o == Closed(to - (Offset(lines, l) + p))
    case Missing => !o.Closed?
  }

  /** The lines before `k`, run together and mirrored. */
  function Head(lines: seq<string>, k: nat): string
    requires k <= |lines|
  {
    if k == 0 then "" else Mirror(lines[k - 1]) + Head(lines, k - 1)
  }

  lemma {:induction false} HeadOfText(lines: seq<string>, k: nat)
    requires k <= |lines|
    ensures Offset(lines, k) <= |Text(lines)| && Head(lines, k) == Mirror(Text(lines)[..Offset(lines, k)])
  {
    TailOfText(lines, k);
    if k > 0 {
      HeadOfText(lines, k - 1);
      TextUpTo(lines, k - 1, |lines[k - 1]|);
      assert lines[k - 1][..|lines[k - 1]|] == lines[k - 1];
    }
  }

  lemma PrefixSplits(t: string, a: nat, b: nat)
    requires a <= b <= |t|
    ensures t[..b] == t[..a] + t[a..b]
  {
  }

  lemma SliceOfSlice(t: string, from: nat, n: nat, i: nat)
    requires from + n <= |t| && i <= n
    ensures t[from..from + n][..i] == t[from..from + i]
  {
  }

  lemma TextUpTo(lines: seq<string>, k: nat, i: nat)
    requires k < |lines| && i <= |lines[k]|
    ensures var from := Offset(lines, k);
            from + i <= |Text(lines)| &&
            Mirror(Text(lines)[..from + i]) == Mirror(lines[k][..i]) + Mirror(Text(lines)[..from])
  {
    var t, from := Text(lines), Offset(lines, k);
    LineOfText(lines, k);
    SliceOfSlice(t, from, |lines[k]|, i);
    PrefixSplits(t, from, from + i);
    MirrorConcat(t[..from], lines[k][..i]);
  }

  lemma ShiftStarts(lines: seq<string>, place: Place, to: nat, o: Outcome, n: nat)
    requires n <= to && StartsAt(lines, place, to - n, o)
    ensures StartsAt(lines, place, to, Shift(n, o))
  {
  }

  lemma {:induction false} OpenFromScans(rx: Regexes, lines: seq<string>, k: nat, i: int, stack: string)
    requires rx.Sound() && k < |lines| && -1 <= i < |lines[k]| && Backward(stack)
    ensures StartsAt(lines, OpenFrom(rx, lines, k, StartInLine(rx, lines[k], i, stack)), Offset(lines, k) + i + 1,
                     Scan(Mirror(lines[k][..i + 1]) + Head(lines, k), Awaited(stack)))
    decreases k
  {
    var line, before := Mirror(lines[k][..i + 1]), Head(lines, k);
    var to := Offset(lines, k) + i + 1;
    ScanConcat(line, before, Awaited(stack));
    StartInLineScans(rx, lines[k], i, stack);
    match StartInLine(rx, lines[k], i, stack)
    case At(p) =>
      ClosedInRange(line, Awaited(stack));
      assert StartsAt(lines, Found(k, p), to, Scan(line + before, Awaited(stack)));
    case Failed =>
    case Open(stack') =>
      if k > 0 {
        var last := |lines[k - 1]| - 1;
        OpenFromScans(rx, lines, k - 1, last, stack');
        assert lines[k - 1][..last + 1] == lines[k - 1];
        var place := OpenFrom(rx, lines, k - 1, StartInLine(rx, lines[k - 1], last, stack'));
        assert StartsAt(lines, place, to - |line|, Scan(before, Awaited(stack')));
        ShiftStarts(lines, place, to, Scan(before, Awaited(stack')), |line|);
      }
  }

  lemma LastStep(rx: Regexes, line: string, q: nat)
    requires q < |line| && Closer(line[q])
    ensures Backward([line[q]]) && Awaited([line[q]]) == [Flip(line[q])]
    ensures StartInLine(rx, line, q, "") == StartInLine(rx, line, q - 1, [line[q]])
  {
    var c := line[q];
    assert "" + [c] == [c];
    StartTurnCloser(rx, line, q, "");
    assert Awaited("") + [Flip(c)] == [Flip(c)];
  }

  lemma ReverseScans(rx: Regexes, lines: seq<string>, l: nat, q: nat)
    requires rx.Sound() && l < |lines| && q < |lines[l]| && Closer(lines[l][q])
    ensures var b := Offset(lines, l) + q + 1;
            b <= |Text(lines)| &&
            StartsAt(lines, ReverseClose(rx, lines, l, q), b, Scan(Mirror(Text(lines)[..b]), ""))
  {
    TextUpTo(lines, l, q + 1);
    HeadOfText(lines, l);
    ReverseScansRest(rx, lines, l, q);
  }

  lemma MirrorFirst(line: string, q: nat, before: string)
    requires q < |line|
    ensures var m := Mirror(line[..q + 1]) + before; m[0] == Flip(line[q]) && m[1..] == Mirror(line[..q]) + before
  {
    MirrorStep(line, q);
  }

  lemma ReverseScansRest(rx: Regexes, lines: seq<string>, l: nat, q: nat)
    requires rx.Sound() && l < |lines| && q < |lines[l]| && Closer(lines[l][q])
    ensures StartsAt(lines, ReverseClose(rx, lines, l, q), Offset(lines, l) + q + 1,
                     Scan(Mirror(lines[l][..q + 1]) + Head(lines, l), ""))
  {
    var c, line := lines[l][q], lines[l];
    var m := Mirror(line[..q + 1]) + Head(lines, l);
    LastStep(rx, line, q);
    OpenFromScans(rx, lines, l, q - 1, [c]);
    MirrorFirst(line, q, Head(lines, l));
    ScanFirst(m);
    ShiftStarts(lines, ReverseClose(rx, lines, l, q), Offset(lines, l) + q + 1, Scan(m[1..], [Flip(c)]), 1);
  }

  /** The word from `a` to `b` is the first part of the text mirrored at `b`. */
  lemma MirroredWord(t: string, a: nat, b: nat)
    requires a < b <= |t|
    ensures Mirror(t[..b])[..b - a] == Mirror(t[a..b])
    ensures Mirror(t[..b])[b - a - 1] == Flip(t[a]) && Mirror(t[..b])[0] == Flip(t[b - 1])
  {
    MirrorSlice(t[..b], 0, b - a);
    assert t[..b][a..b] == t[a..b];
  }

  /** Mirrored, a pair is what the scanner closes on. */
  lemma PairMirrored(t: string, a: nat, b: nat)
    requires a < b <= |t| && Closer(t[b - 1])
    ensures Scan(Mirror(t[..b]), "") == Closed(b - a) <==> Pair(t, a, b)
  {
    MirroredWord(t, a, b);
    ScanFindsPrimitive(Mirror(t[..b]), b - a);
    KeepMirror(t[a..b]);
    PrimitiveMirror(Keep(t[a..b]));
  }

  /** From a closer in ) ] }, the backward matcher returns an opener exactly when the two form a pair. */
  lemma ReverseFindsPairs(rx: Regexes, lines: seq<string>, l: nat, p: nat, l': nat, e: nat)
    requires rx.Sound() && l < |lines| && p < |lines[l]|
    requires l' < |lines| && 1 <= e <= |lines[l']| && Closer(lines[l'][e - 1])
    ensures ReverseClose(rx, lines, l', e - 1) == Found(l, p) <==>
            Pair(Text(lines), Offset(lines, l) + p, Offset(lines, l') + e)
  {
    var t, a, b := Text(lines), Offset(lines, l) + p, Offset(lines, l') + e;
    ReverseScans(rx, lines, l', e - 1);
    CharAt(lines, l, p);
    CharAt(lines, l', e - 1);
    if a < b {
      PairMirrored(t, a, b);
    }
    match ReverseClose(rx, lines, l', e - 1)
    case Found(l1, p1) =>
      ClosedInRange(Mirror(t[..b]), "");
      if Offset(lines, l1) + p1 == a {
        PlaceUnique(lines, l1, p1, l, p);
      }
    case Missing =>
  }

  lemma ReverseInFile(rx: Regexes, lines: seq<string>, l: nat, q: nat)
    requires rx.Sound() && l < |lines| && q < |lines[l]| && Closer(lines[l][q])
    ensures match ReverseClose(rx, lines, l, q)
            case Found(k, p) => k < |lines| && p < |lines[k]|
            case Missing => true
  {
    ReverseScans(rx, lines, l, q);
  }

  /** The two matchers are inverse to each other, on every file and from every bracket in ( [ {. */
  lemma MatchersAreInverse(rx: Regexes, lines: seq<string>, l: nat, p: nat, l': nat, e: nat)
    requires rx.Sound() && l < |lines| && p < |lines[l]| && Opener(lines[l][p])
    requires l' < |lines| && 1 <= e <= |lines[l']|
    ensures Close(rx, lines, l, p) == Found(l', e) <==>
            Closer(lines[l'][e - 1]) && ReverseClose(rx, lines, l', e - 1) == Found(l, p)
  {
    CloseFindsPairs(rx, lines, l, p, l', e);
    CharAt(lines, l', e - 1);
    if Closer(lines[l'][e - 1]) {
      ReverseFindsPairs(rx, lines, l, p, l', e);
    }
  }
}
