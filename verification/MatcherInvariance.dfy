/** What cannot change the outcome of the bracket matchers, and why the two kinds of matcher agree. */
module MatcherInvariance {
  import opened Brackets
  import opened Matchers
  import opened MatcherTheorems
  import opened MatcherInverse

  // ---------- only brackets matter ----------

  /** The line with everything but its brackets blanked. */
  function Skeleton(line: string): (r: string)
    ensures |r| == |line|
    ensures forall i :: 0 <= i < |line| ==> r[i] == if Bracket(line[i]) then line[i] else ' '
  {
    seq(|line|, i requires 0 <= i < |line| => if Bracket(line[i]) then line[i] else ' ')
  }

  function Skeletons(lines: seq<string>): (r: seq<string>)
    ensures |r| == |lines|
    ensures forall k :: 0 <= k < |lines| ==> r[k] == Skeleton(lines[k])
  {
    seq(|lines|, k requires 0 <= k < |lines| => Skeleton(lines[k]))
  }

  lemma {:induction false} ScanSkeleton(t: string, st: string)
    ensures Scan(Skeleton(t), st) == Scan(t, st)
    decreases |t|
  {
    if t != "" {
      var bare := Skeleton(t);
      assert bare[1..] == Skeleton(t[1..]);
      if Opener(t[0]) {
        ScanSkeleton(t[1..], st + [t[0]]);
      } else if !Closer(t[0]) {
        ScanSkeleton(t[1..], st);
      } else if |st| > 1 {
        ScanSkeleton(t[1..], st[..|st| - 1]);
      }
    }
  }

  lemma {:induction false} TailSkeleton(lines: seq<string>, k: nat)
    requires k <= |lines|
    ensures Tail(Skeletons(lines), k) == Skeleton(Tail(lines, k))
    decreases |lines| - k
  {
    if k < |lines| {
      TailSkeleton(lines, k + 1);
    }
  }

  lemma {:induction false} OffsetSkeleton(lines: seq<string>, k: nat)
    requires k <= |lines|
    ensures Offset(Skeletons(lines), k) == Offset(lines, k)
  {
    if k > 0 {
      OffsetSkeleton(lines, k - 1);
    }
  }

  lemma SkeletonSlice(t: string, a: nat, b: nat)
    requires a <= b <= |t|
    ensures Skeleton(t)[a..b] == Skeleton(t[a..b])
  {
  }

  /** An outcome of the scan is reached at one place of the file. */
  lemma EndsAtOnce(lines: seq<string>, x: Place, y: Place, from: nat, o: Outcome)
    requires EndsAt(lines, x, from, o) && EndsAt(Skeletons(lines), y, from, o)
    ensures x == y
  {
    if x.Found? && y.Found? {
      OffsetSkeleton(lines, y.linenum);
      PlaceUnique(lines, x.linenum, x.pos - 1, y.linenum, y.pos - 1);
    }
  }

  /** Blanking everything else leaves the forward matcher's answer alone. */
  lemma CloseOnSkeleton(rx: Regexes, rx': Regexes, lines: seq<string>, l: nat, p: nat)
    requires l < |lines| && p < |lines[l]| && Opener(lines[l][p])
    ensures Close(rx', Skeletons(lines), l, p) == Close(rx, lines, l, p)
  {
    var bare, a := Skeletons(lines), Offset(lines, l) + p;
    CloseScans(rx, lines, l, p);
    CloseScans(rx', bare, l, p);
    OffsetSkeleton(lines, l);
    TailSkeleton(lines, 0);
    SkeletonSlice(Text(lines), a, |Text(lines)|);
    assert Text(bare)[a..] == Skeleton(Text(lines)[a..]);
    ScanSkeleton(Text(lines)[a..], "");
    EndsAtOnce(lines, Close(rx, lines, l, p), Close(rx', bare, l, p), a, Scan(Text(lines)[a..], ""));
  }

  /**
   Two files that agree on their brackets get the same answer from the forward matcher, whatever their
   other characters are and however the regular expressions judge them.
   */
  lemma CloseSeesBracketsOnly(rx: Regexes, rx': Regexes, lines: seq<string>, lines': seq<string>, l: nat, p: nat)
    requires Skeletons(lines) == Skeletons(lines') && l < |lines| && p < |lines[l]| && Opener(lines[l][p])
    ensures l < |lines'| && p < |lines'[l]| && Close(rx, lines, l, p) == Close(rx', lines', l, p)
  {
    assert Skeleton(lines[l]) == Skeletons(lines')[l] == Skeleton(lines'[l]);
    assert Skeleton(lines'[l])[p] == lines[l][p];
    CloseOnSkeleton(rx, rx, lines, l, p);
    CloseOnSkeleton(rx', rx, lines', l, p);
  }

  lemma StartsAtOnce(lines: seq<string>, x: Place, y: Place, to: nat, o: Outcome)
    requires StartsAt(lines, x, to, o) && StartsAt(Skeletons(lines), y, to, o)
    ensures x == y
  {
    if x.Found? && y.Found? {
      OffsetSkeleton(lines, y.linenum);
      PlaceUnique(lines, x.linenum, x.pos, y.linenum, y.pos);
    }
  }

  lemma MirrorSkeleton(t: string)
    ensures Mirror(Skeleton(t)) == Skeleton(Mirror(t))
  {
  }

  lemma MirroredScanSkeleton(lines: seq<string>, b: nat)
    requires b <= |Text(lines)|
    ensures b <= |Text(Skeletons(lines))|
    ensures Scan(Mirror(Text(Skeletons(lines))[..b]), "") == Scan(Mirror(Text(lines)[..b]), "")
  {
    TailSkeleton(lines, 0);
    SkeletonSlice(Text(lines), 0, b);
    assert Text(Skeletons(lines))[..b] == Skeleton(Text(lines)[..b]);
    MirrorSkeleton(Text(lines)[..b]);
    ScanSkeleton(Mirror(Text(lines)[..b]), "");
  }

  lemma ReverseOnSkeleton(rx: Regexes, rx': Regexes, lines: seq<string>, l: nat, q: nat)
    requires rx.Sound() && rx'.Sound() && l < |lines| && q < |lines[l]| && Closer(lines[l][q])
    ensures ReverseClose(rx', Skeletons(lines), l, q) == ReverseClose(rx, lines, l, q)
  {
    var bare, b := Skeletons(lines), Offset(lines, l) + q + 1;
    ReverseScans(rx, lines, l, q);
    ReverseScans(rx', bare, l, q);
    OffsetSkeleton(lines, l);
    MirroredScanSkeleton(lines, b);
    StartsAtOnce(lines, ReverseClose(rx, lines, l, q), ReverseClose(rx', bare, l, q), b,
                 Scan(Mirror(Text(lines)[..b]), ""));
  }

  /** Likewise for the backward matcher. */
  lemma ReverseSeesBracketsOnly(rx: Regexes, rx': Regexes, lines: seq<string>, lines': seq<string>, l: nat, q: nat)
    requires rx.Sound() && rx'.Sound()
    requires Skeletons(lines) == Skeletons(lines') && l < |lines| && q < |lines[l]| && Closer(lines[l][q])
    ensures l < |lines'| && q < |lines'[l]| && ReverseClose(rx, lines, l, q) == ReverseClose(rx', lines', l, q)
  {
    assert Skeleton(lines[l]) == Skeletons(lines')[l] == Skeleton(lines'[l]);
    assert Skeleton(lines'[l])[q] == lines[l][q];
    ReverseOnSkeleton(rx, rx, lines, l, q);
    ReverseOnSkeleton(rx', rx, lines', l, q);
  }

  /** The line with every `<`, `>` and `;` replaced. */
  function Neutralise(line: string, neutral: char): (r: string)
    ensures |r| == |line|
  {
    seq(|line|, i requires 0 <= i < |line| =>
      if line[i] == '<' || line[i] == '>' || line[i] == ';' then neutral else line[i])
  }

  function NeutraliseAll(lines: seq<string>, neutral: char): (r: seq<string>)
    ensures |r| == |lines|
    ensures forall k :: 0 <= k < |lines| ==> r[k] == Neutralise(lines[k], neutral)
  {
    seq(|lines|, k requires 0 <= k < |lines| => Neutralise(lines[k], neutral))
  }

  /** From a bracket in ( [ { ) ] } the angle-bracket heuristics never move the answer. */
  lemma AngleErasure(rx: Regexes, lines: seq<string>, neutral: char, l: nat, p: nat)
    requires rx.Sound() && !Bracket(neutral) && l < |lines| && p < |lines[l]| && Bracket(lines[l][p])
    ensures var plain := NeutraliseAll(lines, neutral);
            && (Opener(lines[l][p]) ==> Close(rx, lines, l, p) == Close(rx, plain, l, p))
            && (Closer(lines[l][p]) ==> ReverseClose(rx, lines, l, p) == ReverseClose(rx, plain, l, p))
  {
    var plain := NeutraliseAll(lines, neutral);
    forall k | 0 <= k < |lines| ensures Skeletons(lines)[k] == Skeletons(plain)[k] {
      assert Skeleton(lines[k]) == Skeleton(plain[k]);
    }
    assert Skeletons(lines) == Skeletons(plain);
    if Opener(lines[l][p]) {
      CloseSeesBracketsOnly(rx, rx, lines, plain, l, p);
    } else {
      ReverseSeesBracketsOnly(rx, rx, lines, plain, l, p);
    }
  }

  // ---------- the two kinds of matcher ----------

  predicate Openers(st: string) {
    forall i :: 0 <= i < |st| ==> Opener(st[i])
  }

  function Expected(st: string): (e: string)
    requires Openers(st)
    ensures |e| == |st|
  {
    seq(|st|, i requires 0 <= i < |st| => CloserOf(st[i]))
  }

  lemma {:induction false} InsideScans(text: string, i: nat, st: string)
    requires i <= |text| && st != "" && Openers(st)
    ensures InsideFrom(text, i, Expected(st)) ==
            match Scan(text[i..], st)
            case Closed(n) => Some(i + n)
            case _ => None
    decreases |text| - i
  {
    if i < |text| {
      var c := text[i];
      assert text[i..][1..] == text[i + 1..];
      if Opener(c) {
        assert Expected(st + [c]) == Expected(st) + [CloserOf(c)];
        InsideScans(text, i + 1, st + [c]);
      } else if !Closer(c) {
        InsideScans(text, i + 1, st);
      } else if Match(Top(st), c) && |st| > 1 {
        assert Expected(Pop(st)) == Pop(Expected(st));
        InsideScans(text, i + 1, Pop(st));
      }
    }
  }

  /**
   `_GetTextInside` returns the interior exactly when the scanner returns the position just past the
   closer, and nothing exactly when the scanner reports a mismatch or an unclosed expression.
   */
  lemma MatchersAgree(rx: Regexes, text: string, start: nat)
    requires 1 <= start <= |text| && Opener(text[start - 1])
    ensures var end := InsideFrom(text, start, [CloserOf(text[start - 1])]);
            var r := EndInLine(rx, text, start - 1, "");
            && (forall p: nat :: end == Some(p) <==> r == At(p))
            && (end == None <==> r == Failed || r.Open?)
            && (end.Some? ==> end.value > start)
  {
    var o := text[start - 1];
    assert Expected([o]) == [CloserOf(o)];
    InsideScans(text, start, [o]);
    FirstStep(rx, text, start - 1);
    EndInLineScans(rx, text, start, [o]);
    if Scan(text[start..], [o]).Closed? {
      ClosedInRange(text[start..], [o]);
    }
  }
}
