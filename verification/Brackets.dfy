/**
 Bracket words: the grammar of balanced words, the stack scanner that recognises them in running
 text, and the mirror image under which scanning backwards becomes scanning forwards.
 */
module Brackets {

  predicate Opener(c: char) { c == '(' || c == '[' || c == '{' }

  predicate Closer(c: char) { c == ')' || c == ']' || c == '}' }

  predicate Bracket(c: char) { Opener(c) || Closer(c) }

  predicate Match(o: char, c: char) {
    (o == '(' && c == ')') || (o == '[' && c == ']') || (o == '{' && c == '}')
  }

  /** The text with everything but the brackets dropped. */
  function Keep(w: string): string {
    if w == "" then "" else (if Bracket(w[0]) then [w[0]] else "") + Keep(w[1..])
  }

  // ---------- the grammar ----------

  ghost predicate Balanced(w: string)
    decreases |w|
  {
    w == "" || exists k :: SplitsAt(w, k) && Balanced(w[1..k]) && Balanced(w[k + 1..])
  }

  ghost predicate SplitsAt(w: string, k: int) {
    0 < k < |w| && Match(w[0], w[k])
  }

  /** One bracket pair around a balanced word. */
  ghost predicate Primitive(w: string) {
    |w| >= 2 && Match(w[0], w[|w| - 1]) && Balanced(w[1..|w| - 1])
  }

  /** The first bracket of a balanced word, its partner, and what is inside and after them. */
  lemma FirstPair(w: string) returns (o: char, u: string, c: char, v: string)
    requires Balanced(w) && w != ""
    ensures w == [o] + u + [c] + v && Match(o, c) && Balanced(u) && Balanced(v)
  {
    var k :| SplitsAt(w, k) && Balanced(w[1..k]) && Balanced(w[k + 1..]);
    o, u, c, v := w[0], w[1..k], w[k], w[k + 1..];
    assert w == [o] + u + [c] + v;
  }

  lemma PairThen(o: char, u: string, c: char, v: string)
    requires Match(o, c) && Balanced(u) && Balanced(v)
    ensures Balanced([o] + u + [c] + v)
  {
    var w := [o] + u + [c] + v;
    assert SplitsAt(w, |u| + 1);
    assert w[1..|u| + 1] == u && w[|u| + 2..] == v;
  }

  lemma ConcatRight(x: string, y: string, z: string)
    ensures (x + y) + z == x + (y + z)
  {
  }

  lemma {:induction false} BalancedConcat(a: string, b: string)
    requires Balanced(a) && Balanced(b)
    ensures Balanced(a + b)
    decreases |a|
  {
    if a == "" {
      assert a + b == b;
    } else {
      var o, u, c, v := FirstPair(a);
      BalancedConcat(v, b);
      PairThen(o, u, c, v + b);
      ConcatRight([o] + u + [c], v, b);
    }
  }

  // ---------- the scanner ----------

  /** After `n` characters the stack became empty; or it is still `stack`; or a closer did not fit. */
  datatype Outcome = Closed(n: nat) | Pending(stack: string) | Broken

  function Shift(k: nat, o: Outcome): Outcome {
    match o
    case Closed(n) => Closed(n + k)
    case _ => o
  }

  function Scan(w: string, st: string): Outcome {
    if w == "" then Pending(st)
    else if Opener(w[0]) then Shift(1, Scan(w[1..], st + [w[0]]))
    else if !Closer(w[0]) then Shift(1, Scan(w[1..], st))
    else if st == "" || !Match(st[|st| - 1], w[0]) then Broken
    else if |st| == 1 then Closed(1)
    else Shift(1, Scan(w[1..], st[..|st| - 1]))
  }

  lemma {:induction false} ScanConcat(u: string, v: string, st: string)
    ensures Scan(u + v, st) ==
            match Scan(u, st)
            case Pending(st') => Shift(|u|, Scan(v, st'))
            case o => o
    decreases |u|
  {
    if u == "" {
      assert u + v == v;
    } else {
      assert (u + v)[1..] == u[1..] + v;
      if Opener(u[0]) {
        ScanConcat(u[1..], v, st + [u[0]]);
      } else if !Closer(u[0]) {
        ScanConcat(u[1..], v, st);
      } else if |st| > 1 {
        ScanConcat(u[1..], v, st[..|st| - 1]);
      }
    }
  }

  /** A scan that closes does so at a closer that fits the bottom of the stack, reached for the first time. */
  lemma {:induction false} ClosedMeans(w: string, st: string)
    requires st != "" && Scan(w, st).Closed?
    ensures var n := Scan(w, st).n;
            && 1 <= n <= |w| && Match(st[0], w[n - 1])
            && Scan(w[..n - 1], st) == Pending([st[0]])
    decreases |w|
  {
    var n := Scan(w, st).n;
    if Opener(w[0]) {
      ClosedMeans(w[1..], st + [w[0]]);
    } else if !Closer(w[0]) {
      ClosedMeans(w[1..], st);
    } else if |st| > 1 {
      ClosedMeans(w[1..], st[..|st| - 1]);
    }
    if n > 1 {
      assert w[..n - 1][1..] == w[1..][..n - 2];
    } else {
      assert st == [st[0]];
    }
  }

  lemma {:induction false} PendingKeepsBottom(w: string, st: string)
    requires st != "" && Scan(w, st).Pending?
    ensures Scan(w, st).stack != "" && Scan(w, st).stack[0] == st[0]
    decreases |w|
  {
    if w != "" {
      if Opener(w[0]) {
        PendingKeepsBottom(w[1..], st + [w[0]]);
      } else if !Closer(w[0]) {
        PendingKeepsBottom(w[1..], st);
      } else {
        PendingKeepsBottom(w[1..], st[..|st| - 1]);
      }
    }
  }

  /** What lies below the stack matters only once the stack has closed. */
  lemma {:induction false} ScanAbove(w: string, o: char, st: string)
    requires st != ""
    ensures Scan(w, [o] + st) ==
            match Scan(w, st)
            case Pending(st') => Pending([o] + st')
            case Broken => Broken
            case Closed(n) => if n <= |w| then Shift(n, Scan(w[n..], [o])) else Broken
    decreases |w|
  {
    if w != "" {
      var below := [o] + st;
      if Opener(w[0]) {
        assert below + [w[0]] == [o] + (st + [w[0]]);
        ScanAbove(w[1..], o, st + [w[0]]);
        Skip(w, o, Scan(w[1..], st + [w[0]]));
      } else if !Closer(w[0]) {
        ScanAbove(w[1..], o, st);
        Skip(w, o, Scan(w[1..], st));
      } else if Match(st[|st| - 1], w[0]) {
        assert below[..|below| - 1] == [o] + st[..|st| - 1];
        if |st| == 1 {
          assert below[..|below| - 1] == [o];
        } else {
          ScanAbove(w[1..], o, st[..|st| - 1]);
          Skip(w, o, Scan(w[1..], st[..|st| - 1]));
        }
      }
    }
  }

  lemma Skip(w: string, o: char, r: Outcome)
    requires w != ""
    ensures r.Closed? && r.n <= |w| - 1 ==> w[1..][r.n..] == w[r.n + 1..]
  {
  }

  // ---------- scanner against grammar ----------

  lemma {:induction false} BalancedScansThrough(w: string, st: string)
    requires Balanced(w) && st != ""
    ensures Scan(w, st) == Pending(st)
    decreases |w|
  {
    if w != "" {
      var k :| SplitsAt(w, k) && Balanced(w[1..k]) && Balanced(w[k + 1..]);
      var up := st + [w[0]];
      BalancedScansThrough(w[1..k], up);
      BalancedScansThrough(w[k + 1..], st);
      assert w[1..] == w[1..k] + w[k..];
      ScanConcat(w[1..k], w[k..], up);
      assert w[k..][1..] == w[k + 1..];
      assert up[..|up| - 1] == st;
    }
  }

  ghost predicate AllBrackets(w: string) {
    forall i :: 0 <= i < |w| ==> Bracket(w[i])
  }

  lemma {:induction false} ScansThroughBalanced(w: string, o: char)
    requires AllBrackets(w) && Scan(w, [o]) == Pending([o])
    ensures Balanced(w)
    decreases |w|
  {
    if w != "" {
      assert Bracket(w[0]);
      assert Opener(w[0]);
      var rest, o1 := w[1..], w[0];
      assert [o] + [o1] == [o, o1];
      ScanAbove(rest, o, [o1]);
      if Scan(rest, [o1]).Pending? {
        PendingKeepsBottom(rest, [o1]);
      }
      ClosedMeans(rest, [o1]);
      var n := Scan(rest, [o1]).n;
      ScansThroughBalanced(rest[..n - 1], o1);
      ScansThroughBalanced(rest[n..], o);
      assert SplitsAt(w, n);
      assert w[1..n] == rest[..n - 1] && w[n + 1..] == rest[n..];
    }
  }

  // ---------- dropping what is not a bracket ----------

  lemma {:induction false} KeepConcat(u: string, v: string)
    ensures Keep(u + v) == Keep(u) + Keep(v)
    decreases |u|
  {
    if u == "" {
      assert u + v == v;
    } else {
      var head := if Bracket(u[0]) then [u[0]] else "";
      assert (u + v)[1..] == u[1..] + v;
      KeepConcat(u[1..], v);
      assert Keep(u + v) == head + (Keep(u[1..]) + Keep(v));
      assert head + (Keep(u[1..]) + Keep(v)) == (head + Keep(u[1..])) + Keep(v);
    }
  }

  lemma {:induction false} KeepIsBrackets(w: string)
    ensures AllBrackets(Keep(w)) && |Keep(w)| <= |w|
  {
    if w != "" {
      KeepIsBrackets(w[1..]);
    }
  }

  lemma {:induction false} ScanKeep(w: string, st: string)
    ensures Scan(Keep(w), st) ==
            match Scan(w, st)
            case Closed(n) => if n <= |w| then Closed(|Keep(w[..n])|) else Broken
            case o => o
    decreases |w|
  {
    if w != "" {
      var rest := w[1..];
      if Opener(w[0]) {
        ScanKeep(rest, st + [w[0]]);
      } else if !Closer(w[0]) {
        ScanKeep(rest, st);
      } else if |st| > 1 {
        ScanKeep(rest, st[..|st| - 1]);
      }
      if Bracket(w[0]) {
        assert Keep(w)[1..] == Keep(rest);
      } else {
        assert Keep(w) == Keep(rest);
      }
      match Scan(w, st)
      case Closed(n) =>
        if 1 < n <= |w| {
          assert w[..n][1..] == rest[..n - 1];
        } else if n == 1 {
          assert w[..1][1..] == "";
        }
      case _ =>
    }
  }

  lemma {:induction false} ClosedInRange(w: string, st: string)
    requires Scan(w, st).Closed?
    ensures 1 <= Scan(w, st).n <= |w| && Closer(w[Scan(w, st).n - 1])
    decreases |w|
  {
    if Opener(w[0]) {
      ClosedInRange(w[1..], st + [w[0]]);
    } else if !Closer(w[0]) {
      ClosedInRange(w[1..], st);
    } else if |st| > 1 {
      ClosedInRange(w[1..], st[..|st| - 1]);
    }
  }

  /** Closing is decided by the characters read, and by no others. */
  lemma ScanPrefix(w: string, st: string, n: nat)
    requires n <= |w|
    ensures Scan(w, st) == Closed(n) <==> Scan(w[..n], st) == Closed(n)
  {
    assert w == w[..n] + w[n..];
    ScanConcat(w[..n], w[n..], st);
    match Scan(w[..n], st)
    case Closed(m) => ClosedInRange(w[..n], st);
    case Pending(st') => if Scan(w[n..], st').Closed? { ClosedInRange(w[n..], st'); }
    case Broken =>
  }

  /**
   The scanner, started on an opener, stops after `n` characters exactly when the n-th character is a
   closer and the brackets among those characters form one primitive word.
   */
  lemma ScanFindsPrimitive(t: string, n: nat)
    requires t != "" && Opener(t[0]) && n <= |t|
    ensures Scan(t, "") == Closed(n) <==> n >= 2 && Closer(t[n - 1]) && Primitive(Keep(t[..n]))
  {
    ScanPrefix(t, "", n);
    if Scan(t, "") == Closed(n) {
      ClosedInRange(t, "");
      ClosedIsPrimitive(t[..n]);
    } else if n >= 2 && Closer(t[n - 1]) && Primitive(Keep(t[..n])) {
      PrimitiveCloses(t[..n]);
    }
  }

  lemma ClosedWordIsPrimitive(b: string)
    requires b != "" && AllBrackets(b) && Opener(b[0]) && Scan(b, "") == Closed(|b|)
    ensures Primitive(b)
  {
    var o, rest := b[0], b[1..];
    assert "" + [o] == [o];
    ClosedMeans(rest, [o]);
    var mid := rest[..|rest| - 1];
    ScansThroughBalanced(mid, o);
    assert mid == b[1..|b| - 1];
  }

  lemma ClosedIsPrimitive(u: string)
    requires u != "" && Opener(u[0]) && Scan(u, "") == Closed(|u|)
    ensures |u| >= 2 && Primitive(Keep(u))
  {
    ScanKeep(u, "");
    assert u[..|u|] == u;
    KeepIsBrackets(u);
    assert Keep(u)[0] == u[0];
    ClosedWordIsPrimitive(Keep(u));
  }

  lemma PrimitiveScan(b: string)
    requires Primitive(b)
    ensures Scan(b, "") == Closed(|b|)
  {
    var o, mid, c := b[0], b[1..|b| - 1], b[|b| - 1];
    assert b[1..] == mid + [c];
    assert "" + [o] == [o];
    BalancedScansThrough(mid, [o]);
    ScanConcat(mid, [c], [o]);
    assert Scan([c], [o]) == Closed(1);
  }

  lemma PrimitiveCloses(u: string)
    requires u != "" && Closer(u[|u| - 1]) && Primitive(Keep(u))
    ensures Scan(u, "") == Closed(|u|)
  {
    PrimitiveScan(Keep(u));
    ScanKeep(u, "");
    ClosedInRange(u, "");
    var n := Scan(u, "").n;
    if n < |u| {
      KeepShorter(u, n);
    }
  }

  lemma KeepShorter(u: string, n: nat)
    requires n < |u| && Bracket(u[|u| - 1])
    ensures |Keep(u[..n])| < |Keep(u)|
  {
    var m := |u| - 1;
    assert u == u[..m] + [u[m]] && u[..m] == u[..n] + u[n..m];
    KeepConcat(u[..m], [u[m]]);
    KeepConcat(u[..n], u[n..m]);
  }

  // ---------- the mirror ----------

  function Flip(c: char): char {
    if c == '(' then ')' else if c == ')' then '('
    else if c == '[' then ']' else if c == ']' then '['
    else if c == '{' then '}' else if c == '}' then '{' else c
  }

  function Mirror(w: string): (m: string)
    ensures |m| == |w| && forall i :: 0 <= i < |w| ==> m[i] == Flip(w[|w| - 1 - i])
  {
    seq(|w|, i requires 0 <= i < |w| => Flip(w[|w| - 1 - i]))
  }

  lemma MirrorTwice(w: string)
    ensures Mirror(Mirror(w)) == w
  {
  }

  lemma MirrorConcat(u: string, v: string)
    ensures Mirror(u + v) == Mirror(v) + Mirror(u)
  {
  }

  lemma MirrorSlice(w: string, i: nat, j: nat)
    requires i <= j <= |w|
    ensures Mirror(w)[i..j] == Mirror(w[|w| - j..|w| - i])
  {
  }

  lemma {:induction false} KeepMirror(w: string)
    ensures Keep(Mirror(w)) == Mirror(Keep(w))
  {
    if w != "" {
      KeepMirror(w[1..]);
      assert Mirror(w) == Mirror(w[1..]) + [Flip(w[0])];
      KeepConcat(Mirror(w[1..]), [Flip(w[0])]);
      assert [Flip(w[0])][1..] == "";
      if Bracket(w[0]) {
        assert Mirror([w[0]] + Keep(w[1..])) == Mirror(Keep(w[1..])) + [Flip(w[0])];
      } else {
        assert Keep(w) == Keep(w[1..]);
      }
    }
  }

  lemma MirrorParts(o: char, u: string, c: char, v: string)
    ensures Mirror([o] + u + [c] + v) == Mirror(v) + ([Flip(c)] + Mirror(u) + [Flip(o)])
  {
    MirrorConcat([o] + u + [c], v);
    MirrorConcat([o] + u, [c]);
    MirrorConcat([o], u);
  }

  lemma {:induction false} BalancedMirror(w: string)
    requires Balanced(w)
    ensures Balanced(Mirror(w))
    decreases |w|
  {
    if w != "" {
      var o, u, c, v := FirstPair(w);
      BalancedMirror(u);
      BalancedMirror(v);
      var last := [Flip(c)] + Mirror(u) + [Flip(o)];
      PairThen(Flip(c), Mirror(u), Flip(o), "");
      assert last + "" == last;
      BalancedConcat(Mirror(v), last);
      MirrorParts(o, u, c, v);
    }
  }

  lemma PrimitiveMirror(w: string)
    ensures Primitive(Mirror(w)) <==> Primitive(w)
  {
    if Primitive(w) {
      MirrorKeepsPrimitive(w);
    }
    if Primitive(Mirror(w)) {
      MirrorKeepsPrimitive(Mirror(w));
      MirrorTwice(w);
    }
  }

  lemma MirrorKeepsPrimitive(w: string)
    requires Primitive(w)
    ensures Primitive(Mirror(w))
  {
    BalancedMirror(w[1..|w| - 1]);
    MirrorSlice(w, 1, |w| - 1);
  }
}
