/**
 What stands between `<` and the `>` that closes it: balanced brackets, outside of which the angle brackets nest
 and no statement ends.  The reading of the tokens stops at the first `>` with such a body before it, and a body
 read from right to left is a body again; so both matchers look for the same thing.
 */
module AngleWords {
  import opened Brackets
  import opened AngleTokens

  /** Openers enter, closers leave. */
  ghost predicate Proper(ts: seq<Token>) {
    forall i :: 0 <= i < |ts| ==> ProperAt(ts, i)
  }

  predicate ProperAt(ts: seq<Token>, i: nat)
    requires i < |ts|
  {
    (ts[i].Enter? ==> Opener(ts[i].c)) && (ts[i].Leave? ==> Closer(ts[i].c))
  }

  ghost predicate NoLess(ts: seq<Token>) {
    forall i :: 0 <= i < |ts| ==> NotLess(ts, i)
  }

  predicate NotLess(ts: seq<Token>, i: nat)
    requires i < |ts|
  {
    !ts[i].Less?
  }

  lemma ProperSlice(ts: seq<Token>, i: nat, j: nat)
    requires i <= j <= |ts|
    ensures Proper(ts) ==> Proper(ts[i..j])
    ensures NoLess(ts) ==> NoLess(ts[i..j])
  {
    if Proper(ts) {
      forall k | 0 <= k < j - i ensures ProperAt(ts[i..j], k) {
        assert ProperAt(ts, i + k);
      }
    }
    if NoLess(ts) {
      forall k | 0 <= k < j - i ensures NotLess(ts[i..j], k) {
        assert NotLess(ts, i + k);
      }
    }
  }

  lemma ProperPrefix(ts: seq<Token>, m: nat)
    requires m <= |ts| && Proper(ts)
    ensures Proper(ts[..m])
  {
    ProperSlice(ts, 0, m);
    assert ts[0..m] == ts[..m];
  }

  lemma ProperConcat(u: seq<Token>, v: seq<Token>)
    ensures Proper(u) && Proper(v) ==> Proper(u + v)
    ensures NoLess(u) && NoLess(v) ==> NoLess(u + v)
  {
    var w := u + v;
    if Proper(u) && Proper(v) {
      forall k | 0 <= k < |w| ensures ProperAt(w, k) {
        assert if k < |u| then ProperAt(u, k) else ProperAt(v, k - |u|);
      }
    }
    if NoLess(u) && NoLess(v) {
      forall k | 0 <= k < |w| ensures NotLess(w, k) {
        assert if k < |u| then NotLess(u, k) else NotLess(v, k - |u|);
      }
    }
  }

  function KeptOf(t: Token): string {
    match t
    case Enter(c) => [c]
    case Leave(c) => [c]
    case _ => ""
  }

  /** The brackets among the tokens. */
  function Kept(ts: seq<Token>): string {
    if ts == [] then "" else Kept(ts[..|ts| - 1]) + KeptOf(ts[|ts| - 1])
  }

  /** Before the next token no bracket is open. */
  ghost predicate Outside(ts: seq<Token>) { Balanced(Kept(ts)) }

  function Weight(t: Token): int {
    match t
    case Up => 1
    case Down | Less => -1
    case _ => 0
  }

  /** One pending `<`, and the angle brackets outside of all brackets. */
  ghost function Height(ts: seq<Token>): int {
    if ts == [] then 1
    else Height(ts[..|ts| - 1]) + if Outside(ts[..|ts| - 1]) then Weight(ts[|ts| - 1]) else 0
  }

  /** Balanced brackets, between which the angle brackets nest and no statement ends. */
  ghost predicate Body(u: seq<Token>) {
    Outside(u) && Height(u) == 1 && Nests(u) && Whole(u)
  }

  ghost function HeightAt(u: seq<Token>, m: nat): int
    requires m <= |u|
  {
    Height(u[..m])
  }

  ghost predicate OutsideAt(u: seq<Token>, m: nat)
    requires m <= |u|
  {
    Outside(u[..m])
  }

  ghost predicate Nests(u: seq<Token>) {
    forall m :: 0 <= m <= |u| ==> HeightAt(u, m) >= 1
  }

  ghost predicate Whole(u: seq<Token>) {
    forall m :: 0 <= m < |u| && OutsideAt(u, m) ==> !u[m].Semi?
  }

  /** The `n`-th token is a `>` with a body before it. */
  ghost predicate EndsBody(ts: seq<Token>, n: int) {
    1 <= n <= |ts| && ts[n - 1].Down? && Body(ts[..n - 1])
  }

  lemma {:induction false} KeptConcat(u: seq<Token>, v: seq<Token>)
    ensures Kept(u + v) == Kept(u) + Kept(v)
    decreases |v|
  {
    if v == [] {
      assert u + v == u;
    } else {
      var w := u + v;
      assert w[..|w| - 1] == u + v[..|v| - 1] && w[|w| - 1] == v[|v| - 1];
      KeptConcat(u, v[..|v| - 1]);
    }
  }

  lemma {:induction false} KeptIsBrackets(u: seq<Token>)
    requires Proper(u)
    ensures AllBrackets(Kept(u))
  {
    if u != [] {
      ProperPrefix(u, |u| - 1);
      assert ProperAt(u, |u| - 1);
      KeptIsBrackets(u[..|u| - 1]);
    }
  }

  lemma OneMore(u: seq<Token>, t: Token)
    ensures Kept(u + [t]) == Kept(u) + KeptOf(t)
    ensures Height(u + [t]) == Height(u) + if Outside(u) then Weight(t) else 0
  {
    assert (u + [t])[..|u|] == u;
  }

  // ---------- the reading of the tokens, and their brackets ----------

  ghost predicate Tells(u: seq<Token>, t: Track) {
    t.Going? && t.angles == Height(u) && Scan(Kept(u), "(") == Pending("(" + t.inner)
  }

  lemma TellsOutside(u: seq<Token>, t: Track)
    requires Proper(u) && Tells(u, t)
    ensures Outside(u) <==> t.inner == ""
  {
    KeptIsBrackets(u);
    if Outside(u) {
      BalancedScansThrough(Kept(u), "(");
      assert |"(" + t.inner| == |"("|;
    } else if t.inner == "" {
      assert "(" + t.inner == "(";
      ScansThroughBalanced(Kept(u), '(');
    }
  }

  lemma ScanOneMore(w: string, c: char, st: string)
    requires Scan(w, "(") == Pending("(" + st)
    ensures Scan(w + [c], "(") == Brackets.Shift(|w|, Scan([c], "(" + st))
  {
    ScanConcat(w, [c], "(");
  }

  lemma TellsEnter(u: seq<Token>, c: char, t: Track)
    requires Tells(u, t) && Opener(c)
    ensures Tells(u + [Enter(c)], Going(t.angles, t.inner + [c]))
  {
    OneMore(u, Enter(c));
    ScanOneMore(Kept(u), c, t.inner);
    assert [c][1..] == "" && "(" + t.inner + [c] == "(" + (t.inner + [c]);
  }

  lemma TellsLeave(u: seq<Token>, c: char, t: Track)
    requires Tells(u, t) && Closer(c)
    ensures if t.inner != "" && Match(t.inner[|t.inner| - 1], c)
            then Tells(u + [Leave(c)], Going(t.angles, t.inner[..|t.inner| - 1]))
            else !Scan(Kept(u + [Leave(c)]), "(").Pending?
  {
    var st := "(" + t.inner;
    OneMore(u, Leave(c));
    ScanOneMore(Kept(u), c, t.inner);
    assert [c][1..] == "";
    if t.inner != "" {
      assert st[|st| - 1] == t.inner[|t.inner| - 1];
      assert st[..|st| - 1] == "(" + t.inner[..|t.inner| - 1];
    }
  }

  lemma TellsOther(u: seq<Token>, x: Token, t: Track)
    requires Proper(u) && Tells(u, t) && !x.Enter? && !x.Leave?
    ensures Kept(u + [x]) == Kept(u)
    ensures Height(u + [x]) == t.angles + if t.inner == "" then Weight(x) else 0
  {
    OneMore(u, x);
    TellsOutside(u, t);
  }

  lemma LastProper(u: seq<Token>, x: Token)
    requires Proper(u + [x])
    ensures Proper(u) && (x.Enter? ==> Opener(x.c)) && (x.Leave? ==> Closer(x.c))
  {
    ProperPrefix(u + [x], |u|);
    assert (u + [x])[..|u|] == u && ProperAt(u + [x], |u|);
  }

  /** As long as the reading goes on, it tells the height and the open brackets. */
  lemma TellsNext(u: seq<Token>, x: Token, t: Track)
    requires Proper(u + [x]) && Tells(u, t) && t.angles >= 1 && OneToken(x, t.angles, t.inner).Going?
    ensures Tells(u + [x], OneToken(x, t.angles, t.inner))
  {
    LastProper(u, x);
    if x.Enter? {
      TellsEnter(u, x.c, t);
      assert t.inner == "" ==> t.inner + [x.c] == [x.c];
    } else if x.Leave? {
      TellsLeave(u, x.c, t);
    } else {
      TellsOther(u, x, t);
    }
  }

  lemma FollowNext(u: seq<Token>, x: Token)
    ensures var t := Follow(u, 1, "");
            Follow(u + [x], 1, "") == if t.Going? then Later(|u|, OneToken(x, t.angles, t.inner)) else t
  {
    FollowConcat(u, [x], 1, "");
    var t := Follow(u, 1, "");
    if t.Going? {
      FollowStep(x, [], t.angles, t.inner);
      assert [x] + [] == [x];
    }
  }

  lemma {:induction false} FollowTells(u: seq<Token>)
    requires Proper(u) && Follow(u, 1, "").Going?
    ensures Tells(u, Follow(u, 1, ""))
    decreases |u|
  {
    if u == [] {
      assert "(" + "" == "(";
    } else {
      var before, x := u[..|u| - 1], u[|u| - 1];
      assert u == before + [x];
      ProperPrefix(u, |u| - 1);
      FollowNext(before, x);
      FollowTells(before);
      TellsNext(before, x, Follow(before, 1, ""));
    }
  }

  // ---------- exactly the bodies ----------

  lemma PrefixGoes(ts: seq<Token>, m: nat)
    requires m <= |ts|
    requires Follow(ts, 1, "").Going? || (Follow(ts, 1, "").Partner? && m < Follow(ts, 1, "").n)
    ensures Follow(ts[..m], 1, "").Going?
  {
    assert ts == ts[..m] + ts[m..];
    FollowConcat(ts[..m], ts[m..], 1, "");
  }

  lemma PartnerStops(ts: seq<Token>, n: nat)
    requires Follow(ts, 1, "") == Partner(n)
    ensures 1 <= n <= |ts| && Follow(ts[..n - 1], 1, "").Going?
    ensures var t := Follow(ts[..n - 1], 1, ""); OneToken(ts[n - 1], t.angles, t.inner) == Partner(1)
  {
    PrefixGoes(ts, n - 1);
    var u, x, v := ts[..n - 1], ts[n - 1], ts[n..];
    assert ts == u + ([x] + v);
    FollowConcat(u, [x] + v, 1, "");
    var t := Follow(u, 1, "");
    FollowStep(x, v, t.angles, t.inner);
  }

  lemma GoingHeight(u: seq<Token>, m: nat)
    requires Proper(u) && Follow(u, 1, "").Going? && m <= |u|
    ensures HeightAt(u, m) >= 1
  {
    PrefixGoes(u, m);
    ProperPrefix(u, m);
    FollowTells(u[..m]);
  }

  lemma GoingWhole(u: seq<Token>, m: nat)
    requires Proper(u) && Follow(u, 1, "").Going? && m < |u| && OutsideAt(u, m)
    ensures !u[m].Semi?
  {
    var before := u[..m];
    ProperPrefix(u, m);
    PrefixGoes(u, m);
    PrefixGoes(u, m + 1);
    FollowTells(before);
    TellsOutside(before, Follow(before, 1, ""));
    assert u[..m + 1] == before + [u[m]];
    FollowNext(before, u[m]);
  }

  lemma PartnerAt(u: seq<Token>, x: Token)
    requires Proper(u) && Follow(u, 1, "").Going?
    requires var t := Follow(u, 1, ""); OneToken(x, t.angles, t.inner) == Partner(1)
    ensures x.Down? && Outside(u) && Height(u) == 1
  {
    FollowTells(u);
    TellsOutside(u, Follow(u, 1, ""));
  }

  lemma PartnerMeans(ts: seq<Token>, n: nat)
    requires Proper(ts) && Follow(ts, 1, "") == Partner(n)
    ensures EndsBody(ts, n)
  {
    PartnerStops(ts, n);
    var u := ts[..n - 1];
    ProperPrefix(ts, n - 1);
    PartnerAt(u, ts[n - 1]);
    assert Nests(u) by {
      forall m | 0 <= m <= |u| ensures HeightAt(u, m) >= 1 {
        GoingHeight(u, m);
      }
    }
    assert Whole(u) by {
      forall m | 0 <= m < |u| && OutsideAt(u, m) ensures !u[m].Semi? {
        GoingWhole(u, m);
      }
    }
  }

  lemma BodyPrefixScans(u: seq<Token>, m: nat)
    requires Body(u) && m <= |u|
    ensures Scan(Kept(u[..m]), "(").Pending?
  {
    assert u == u[..m] + u[m..];
    KeptConcat(u[..m], u[m..]);
    BalancedScansThrough(Kept(u), "(");
    ScanConcat(Kept(u[..m]), Kept(u[m..]), "(");
  }

  /** A body keeps the reading going. */
  lemma BodyStep(before: seq<Token>, x: Token, t: Track)
    requires Proper(before + [x]) && Tells(before, t) && t.angles >= 1
    requires Scan(Kept(before + [x]), "(").Pending? && Height(before + [x]) >= 1 && (Outside(before) ==> !x.Semi?)
    ensures OneToken(x, t.angles, t.inner).Going?
  {
    LastProper(before, x);
    TellsOutside(before, t);
    if x.Leave? {
      TellsLeave(before, x.c, t);
    } else if !x.Enter? {
      TellsOther(before, x, t);
    }
  }

  lemma {:induction false} BodyGoes(u: seq<Token>, m: nat)
    requires Proper(u) && Body(u) && m <= |u|
    ensures Follow(u[..m], 1, "").Going?
  {
    if m > 0 {
      var before, x := u[..m - 1], u[m - 1];
      var t := Follow(before, 1, "");
      assert u[..m] == before + [x];
      BodyGoes(u, m - 1);
      ProperPrefix(u, m - 1);
      ProperPrefix(u, m);
      FollowTells(before);
      BodyPrefixScans(u, m);
      assert HeightAt(u, m) >= 1 && (OutsideAt(u, m - 1) ==> !x.Semi?);
      BodyStep(before, x, t);
      FollowNext(before, x);
    } else {
      assert u[..0] == [];
    }
  }

  lemma BodyHasPartner(u: seq<Token>, v: seq<Token>)
    requires Proper(u) && Body(u)
    ensures Follow(u + ([Down] + v), 1, "") == Partner(|u| + 1)
  {
    var t := Follow(u, 1, "");
    assert t == Going(1, "") by {
      BodyGoes(u, |u|);
      assert u[..|u|] == u;
      FollowTells(u);
      TellsOutside(u, t);
    }
    FollowConcat(u, [Down] + v, 1, "");
    FollowStep(Down, v, 1, "");
  }

  lemma CutAt(ts: seq<Token>, n: nat)
    requires 1 <= n <= |ts|
    ensures ts == ts[..n - 1] + ([ts[n - 1]] + ts[n..])
  {
  }

  lemma DownEnds(ts: seq<Token>, n: nat)
    requires Proper(ts) && EndsBody(ts, n)
    ensures Follow(ts, 1, "") == Partner(n)
  {
    CutAt(ts, n);
    ProperPrefix(ts, n - 1);
    BodyHasPartner(ts[..n - 1], ts[n..]);
  }

  /** The partner of `<` is the first `>` that has a body before it. */
  lemma PartnerIff(ts: seq<Token>, n: nat)
    requires Proper(ts)
    ensures Follow(ts, 1, "") == Partner(n) <==> EndsBody(ts, n)
  {
    if Follow(ts, 1, "") == Partner(n) {
      PartnerMeans(ts, n);
    }
    if EndsBody(ts, n) {
      DownEnds(ts, n);
    }
  }

  // ---------- the mirror ----------

  function Opposite(t: Token): Token {
    match t
    case Enter(c) => Leave(Flip(c))
    case Leave(c) => Enter(Flip(c))
    case Up => Down
    case Down => Up
    case _ => t
  }

  /** Read from right to left. */
  function Turned(u: seq<Token>): (v: seq<Token>)
    ensures |v| == |u| && forall i :: 0 <= i < |u| ==> v[i] == Opposite(u[|u| - 1 - i])
  {
    seq(|u|, i requires 0 <= i < |u| => Opposite(u[|u| - 1 - i]))
  }

  lemma TurnedTwice(u: seq<Token>)
    requires Proper(u)
    ensures Turned(Turned(u)) == u
  {
    forall i | 0 <= i < |u| ensures Turned(Turned(u))[i] == u[i] {
      assert ProperAt(u, i);
    }
  }

  lemma TurnedProper(u: seq<Token>)
    requires Proper(u)
    ensures Proper(Turned(u)) && (NoLess(u) ==> NoLess(Turned(u)))
  {
    var v := Turned(u);
    forall i | 0 <= i < |v| ensures ProperAt(v, i) {
      assert ProperAt(u, |u| - 1 - i);
    }
    if NoLess(u) {
      forall i | 0 <= i < |v| ensures NotLess(v, i) {
        assert NotLess(u, |u| - 1 - i);
      }
    }
  }

  lemma {:induction false} TurnedKept(u: seq<Token>)
    ensures Kept(Turned(u)) == Mirror(Kept(u))
  {
    if u != [] {
      var before, x := u[..|u| - 1], u[|u| - 1];
      TurnedKept(before);
      assert Turned(u) == [Opposite(x)] + Turned(before);
      KeptConcat([Opposite(x)], Turned(before));
      assert [Opposite(x)][..0] == [] && Kept([Opposite(x)]) == KeptOf(Opposite(x));
      assert KeptOf(Opposite(x)) == Mirror(KeptOf(x));
      MirrorConcat(Kept(before), KeptOf(x));
    }
  }

  lemma BalancedMirrorIff(w: string)
    ensures Balanced(Mirror(w)) <==> Balanced(w)
  {
    if Balanced(w) {
      BalancedMirror(w);
    }
    if Balanced(Mirror(w)) {
      BalancedMirror(Mirror(w));
      MirrorTwice(w);
    }
  }

  lemma CancelLeft(x: string, y: string)
    requires Balanced(x + y) && Balanced(x) && AllBrackets(y)
    ensures Balanced(y)
  {
    BalancedScansThrough(x + y, "(");
    BalancedScansThrough(x, "(");
    ScanConcat(x, y, "(");
    ScansThroughBalanced(y, '(');
  }

  /** Of two parts of a balanced word, both are balanced or none is. */
  lemma Cancel(x: string, y: string)
    requires Balanced(x + y) && AllBrackets(x) && AllBrackets(y)
    ensures Balanced(x) <==> Balanced(y)
  {
    if Balanced(x) {
      CancelLeft(x, y);
    }
    if Balanced(y) {
      BalancedMirror(x + y);
      BalancedMirror(y);
      MirrorConcat(x, y);
      CancelLeft(Mirror(y), Mirror(x));
      BalancedMirrorIff(x);
    }
  }

  lemma TurnedPrefix(u: seq<Token>, m: nat)
    requires m <= |u|
    ensures Turned(u)[..m] == Turned(u[|u| - m..])
  {
  }

  lemma CancelAround(x: seq<Token>, t: Token, y: seq<Token>)
    requires Proper(x) && Proper(y) && Outside(x + [t] + y) && KeptOf(t) == ""
    ensures Outside(x) <==> Outside(Turned(y))
  {
    KeptConcat(x + [t], y);
    OneMore(x, t);
    assert Kept(x) + "" == Kept(x);
    KeptIsBrackets(x);
    KeptIsBrackets(y);
    Cancel(Kept(x), Kept(y));
    TurnedKept(y);
    BalancedMirrorIff(Kept(y));
  }

  /** At a token that is not a bracket, outside means the same from both sides. */
  lemma OutsideTurned(u: seq<Token>, j: nat)
    requires Proper(u) && Outside(u) && j < |u| && KeptOf(u[j]) == ""
    ensures OutsideAt(Turned(u), |u| - 1 - j) <==> OutsideAt(u, j)
  {
    var x, y := u[..j], u[j + 1..];
    assert u == x + [u[j]] + y;
    ProperSlice(u, 0, j);
    ProperSlice(u, j + 1, |u|);
    assert u[0..j] == x && u[j + 1..|u|] == y;
    CancelAround(x, u[j], y);
    TurnedPrefix(u, |u| - 1 - j);
  }

  lemma WeightTurned(u: seq<Token>, j: nat)
    requires Proper(u) && Outside(u) && j < |u| && !u[j].Less?
    ensures (if OutsideAt(Turned(u), |u| - 1 - j) then Weight(Opposite(u[j])) else 0) ==
            -(if OutsideAt(u, j) then Weight(u[j]) else 0)
  {
    if KeptOf(u[j]) == "" {
      OutsideTurned(u, j);
    }
  }

  lemma HeightNext(u: seq<Token>, m: nat)
    requires m < |u|
    ensures HeightAt(u, m + 1) == HeightAt(u, m) + if OutsideAt(u, m) then Weight(u[m]) else 0
  {
    assert u[..m + 1] == u[..m] + [u[m]];
    OneMore(u[..m], u[m]);
  }

  /** From the other end the heights are the same. */
  lemma {:induction false} HeightTurned(u: seq<Token>, m: nat)
    requires Proper(u) && Outside(u) && Height(u) == 1 && m <= |u| && NoLess(u)
    ensures HeightAt(Turned(u), m) == HeightAt(u, |u| - m)
  {
    if m == 0 {
      assert Turned(u)[..0] == [] && u[..|u|] == u;
    } else {
      var j := |u| - m;
      HeightTurned(u, m - 1);
      HeightNext(Turned(u), m - 1);
      HeightNext(u, j);
      assert NotLess(u, j);
      WeightTurned(u, j);
    }
  }

  lemma WholeTurned(u: seq<Token>, m: nat)
    requires Proper(u) && Outside(u) && Whole(u) && m < |u| && OutsideAt(Turned(u), m)
    ensures !Turned(u)[m].Semi?
  {
    var j := |u| - 1 - m;
    if u[j].Semi? {
      OutsideTurned(u, j);
    }
  }

  lemma BodyTurns(u: seq<Token>)
    requires Proper(u) && Body(u) && NoLess(u)
    ensures Body(Turned(u))
  {
    var v := Turned(u);
    assert Outside(v) by {
      TurnedKept(u);
      BalancedMirrorIff(Kept(u));
    }
    assert Height(v) == 1 by {
      HeightTurned(u, |u|);
      assert v[..|u|] == v && u[..0] == [];
    }
    assert Nests(v) by {
      forall m | 0 <= m <= |v| ensures HeightAt(v, m) >= 1 {
        HeightTurned(u, m);
      }
    }
    assert Whole(v) by {
      forall m | 0 <= m < |v| && OutsideAt(v, m) ensures !v[m].Semi? {
        WholeTurned(u, m);
      }
    }
  }

  /** A body, read from the other side, is a body. */
  lemma BodyMirror(u: seq<Token>)
    requires Proper(u) && NoLess(u)
    ensures Body(Turned(u)) <==> Body(u)
  {
    if Body(u) {
      BodyTurns(u);
    }
    if Body(Turned(u)) {
      TurnedProper(u);
      BodyTurns(Turned(u));
      TurnedTwice(u);
    }
  }
}
