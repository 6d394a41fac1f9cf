/** The run-length codec: a count from 1 to 255, and a byte. */
module Rle {
  // Proved: the encoder is inverted by the decoder, produces exactly the canonical pair strings, and no other
  // encoding is shorter.

  type Byte = b: int | 0 <= b < 256

  const MAX_RUN: Byte := 255

  function Repeat(b: Byte, n: nat): (r: seq<Byte>)
    ensures |r| == n && forall i :: 0 <= i < n ==> r[i] == b
  {
    if n == 0 then [] else [b] + Repeat(b, n - 1)
  }

  lemma {:induction false} RepeatSnoc(b: Byte, n: nat)
    ensures Repeat(b, n) + [b] == Repeat(b, n + 1)
  {
  }

  // ---------- the decoder ----------

  /** The decoded bytes; an odd byte at the end is not part of a pair and decodes to nothing. */
  function Decode(p: seq<Byte>): seq<Byte> {
    if |p| < 2 then [] else Repeat(p[1], p[0]) + Decode(p[2..])
  }

  lemma DecodePair(done: seq<Byte>, input: seq<Byte>, pos: nat)
    requires pos + 2 <= |input|
    ensures done + Decode(input[pos..]) == done + Repeat(input[pos + 1], input[pos]) + Decode(input[pos + 2..])
  {
    assert input[pos..][2..] == input[pos + 2..];
  }

  /** `size` is -1 when a count has no byte; what was written before stays written. */
  method DecompressRLE(input: seq<Byte>) returns (output: seq<Byte>, size: int)
    ensures output == Decode(input)
    ensures size == if |input| % 2 == 0 then |output| else -1
  {
    output := [];
    size := 0;
    var pos := 0;
    while pos < |input|
      invariant 0 <= pos <= |input| && pos % 2 == 0
      invariant output + Decode(input[pos..]) == Decode(input)
      invariant size == |output|
      decreases |input| - pos
    {
      var counter := input[pos];
      pos := pos + 1;
      if pos == |input| {
        return output, -1;
      }
      var data := input[pos];
      pos := pos + 1;
      ghost var before := output;
      DecodePair(before, input, pos - 2);
      for i := 0 to counter
        invariant output == before + Repeat(data, i) && size == |output|
      {
        RepeatSnoc(data, i);
        output := output + [data];
        size := size + 1;
      }
    }
  }

  // ---------- the encoder ----------

  /** What is still to be written after a run of `counter` bytes `current` and before `rest`. */
  function Emit(current: Byte, counter: Byte, rest: seq<Byte>): seq<Byte>
    decreases |rest|
  {
    if rest == [] then [counter, current]
    else if rest[0] == current && counter < MAX_RUN then Emit(current, counter + 1, rest[1..])
    else [counter, current] + Emit(rest[0], 1, rest[1..])
  }

  function Encode(x: seq<Byte>): seq<Byte> {
    if x == [] then [] else Emit(x[0], 1, x[1..])
  }

  /** The one-byte counter never wraps: it stays a `Byte` through every step. */
  method CompressRLE(input: seq<Byte>) returns (output: seq<Byte>, size: int)
    ensures output == Encode(input)
    ensures size == |output| <= 2 * |input|
  {
    output := [];
    size := 0;
    if input == [] {
      return;
    }
    var current := input[0];
    var counter: Byte := 1;
    var pos := 1;
    while pos < |input|
      invariant 1 <= pos <= |input| && counter >= 1
      invariant output + Emit(current, counter, input[pos..]) == Encode(input)
      invariant size == |output| <= 2 * (pos - counter)
    {
      var next := input[pos];
      assert input[pos..][1..] == input[pos + 1..];
      if next == current && counter < MAX_RUN {
        counter := counter + 1;
      } else {
        output := output + [counter] + [current];
        size := size + 2;
        current := next;
        counter := 1;
      }
      pos := pos + 1;
    }
    output := output + [counter] + [current];
    size := size + 2;
  }

  // ---------- round trip ----------

  lemma {:induction false} DecodeEmit(b: Byte, k: Byte, rest: seq<Byte>)
    requires k >= 1
    ensures Decode(Emit(b, k, rest)) == Repeat(b, k) + rest
    decreases |rest|
  {
    if rest == [] {
      assert Decode([k, b][2..]) == [];
    } else if rest[0] == b && k < MAX_RUN {
      DecodeEmit(b, k + 1, rest[1..]);
      RepeatSnoc(b, k);
      assert Repeat(b, k) + rest == Repeat(b, k) + [b] + rest[1..];
    } else {
      DecodeEmit(rest[0], 1, rest[1..]);
      assert Repeat(rest[0], 1) + rest[1..] == rest;
      assert ([k, b] + Emit(rest[0], 1, rest[1..]))[2..] == Emit(rest[0], 1, rest[1..]);
    }
  }

  /** Decompressing what was compressed gives the input back, for every input. */
  lemma RoundTrip(x: seq<Byte>)
    ensures Decode(Encode(x)) == x && |Encode(x)| % 2 == 0
  {
    if x != [] {
      DecodeEmit(x[0], 1, x[1..]);
      EmitCanonical(x[0], 1, x[1..]);
      assert Repeat(x[0], 1) + x[1..] == x;
    }
  }

  // ---------- canonical form ----------

  /** Whole pairs, no zero counts, and a pair followed by one of the same byte is full. */
  predicate Canonical(p: seq<Byte>) {
    p == [] ||
    (|p| >= 2 && p[0] >= 1 && Canonical(p[2..]) && (|p| >= 4 && p[1] == p[3] ==> p[0] == MAX_RUN))
  }

  lemma {:induction false} EmitCanonical(b: Byte, k: Byte, rest: seq<Byte>)
    requires k >= 1
    ensures var p := Emit(b, k, rest);
            Canonical(p) && |p| >= 2 && p[1] == b && |p| % 2 == 0
    decreases |rest|
  {
    if rest == [] {
      assert [k, b][2..] == [];
    } else if rest[0] == b && k < MAX_RUN {
      EmitCanonical(b, k + 1, rest[1..]);
    } else {
      EmitCanonical(rest[0], 1, rest[1..]);
      assert ([k, b] + Emit(rest[0], 1, rest[1..]))[2..] == Emit(rest[0], 1, rest[1..]);
    }
  }

  /** The encoder swallows as much of a run as the counter can take. */
  lemma {:induction false} EmitSwallows(b: Byte, k: Byte, n: Byte, rest: seq<Byte>)
    requires 1 <= k <= n
    ensures Emit(b, k, Repeat(b, n - k) + rest) == Emit(b, n, rest)
    decreases n - k
  {
    var all := Repeat(b, n - k) + rest;
    if k < n {
      assert all[0] == b && all[1..] == Repeat(b, n - k - 1) + rest;
      EmitSwallows(b, k + 1, n, rest);
    } else {
      assert all == rest;
    }
  }

  lemma {:induction false} EncodeDecode(p: seq<Byte>)
    requires Canonical(p)
    ensures Encode(Decode(p)) == p
    decreases |p|
  {
    if p != [] {
      var n, b, q := p[0], p[1], p[2..];
      var rest := Decode(q);
      EncodeDecode(q);
      var x := Decode(p);
      assert x == Repeat(b, n) + rest;
      assert x[0] == b && x[1..] == Repeat(b, n - 1) + rest;
      EmitSwallows(b, 1, n, rest);
      if q == [] {
        assert p == [n, b];
      } else {
        assert rest == Repeat(q[1], q[0]) + Decode(q[2..]);
        assert rest[0] == q[1];
        assert p == [n, b] + q;
      }
    }
  }

  /** A byte string is an output of the encoder exactly when it is canonical. */
  lemma OutputsAreCanonical(p: seq<Byte>)
    ensures Canonical(p) <==> exists x :: Encode(x) == p
  {
    if Canonical(p) {
      EncodeDecode(p);
    }
    forall x | Encode(x) == p ensures Canonical(p) {
      if x != [] {
        EmitCanonical(x[0], 1, x[1..]);
      }
    }
  }

  // ---------- length ----------

  function Ceil255(n: nat): nat { (n + 254) / 255 }

  /** The length of the maximal run at the front. */
  function FirstRun(x: seq<Byte>): (n: nat)
    ensures n <= |x| && (x != [] ==> n >= 1)
    ensures forall i :: 0 <= i < n ==> x[i] == x[0]
    ensures n < |x| ==> x[n] != x[0]
  {
    if |x| < 2 then |x| else if x[1] == x[0] then 1 + FirstRun(x[1..]) else 1
  }

  /** The sum over the maximal runs of ceil(length / 255). */
  function Pairs(x: seq<Byte>): nat
    decreases |x|
  {
    if x == [] then 0 else Ceil255(FirstRun(x)) + Pairs(x[FirstRun(x)..])
  }

  lemma {:induction false} FirstRunOf(b: Byte, n: nat, x: seq<Byte>)
    requires n >= 1
    ensures var m := if x != [] && x[0] == b then FirstRun(x) else 0;
            var y := Repeat(b, n) + x;
            FirstRun(y) == n + m && y[n + m..] == x[m..]
    decreases n
  {
    var y := Repeat(b, n) + x;
    if n == 1 {
      assert y == [b] + x;
      assert y[1..] == x;
    } else {
      assert y[1..] == Repeat(b, n - 1) + x;
      FirstRunOf(b, n - 1, x);
      assert y[1] == b;
    }
  }

  /** Up to 255 equal bytes in front cost at most one pair more. */
  lemma PairsOfPrefix(b: Byte, n: Byte, x: seq<Byte>)
    ensures Pairs(Repeat(b, n) + x) <= 1 + Pairs(x)
  {
    var y := Repeat(b, n) + x;
    if n == 0 {
      assert y == x;
    } else {
      FirstRunOf(b, n, x);
      var m := if x != [] && x[0] == b then FirstRun(x) else 0;
      assert Pairs(y) == Ceil255(n + m) + Pairs(x[m..]);
      if m == 0 {
        assert x[0..] == x;
      }
    }
  }

  /** Where the encoder starts a new pair, the count of pairs goes up by one. */
  lemma PairsBreak(b: Byte, k: Byte, rest: seq<Byte>)
    requires k >= 1 && rest != [] && (rest[0] != b || k == MAX_RUN)
    ensures Pairs(Repeat(b, k) + rest) == 1 + Pairs(rest)
  {
    FirstRunOf(b, k, rest);
    var m := if rest[0] == b then FirstRun(rest) else 0;
    assert Pairs(Repeat(b, k) + rest) == Ceil255(k + m) + Pairs(rest[m..]);
    if m == 0 {
      assert rest[0..] == rest;
    }
  }

  lemma {:induction false} EmitLength(b: Byte, k: Byte, rest: seq<Byte>)
    requires k >= 1
    ensures |Emit(b, k, rest)| == 2 * Pairs(Repeat(b, k) + rest)
    decreases |rest|
  {
    if rest == [] {
      FirstRunOf(b, k, rest);
    } else if rest[0] == b && k < MAX_RUN {
      EmitLength(b, k + 1, rest[1..]);
      RepeatSnoc(b, k);
      assert Repeat(b, k) + rest == Repeat(b, k + 1) + rest[1..];
    } else {
      EmitLength(rest[0], 1, rest[1..]);
      assert Repeat(rest[0], 1) + rest[1..] == rest;
      PairsBreak(b, k, rest);
    }
  }

  /** The compressed length is twice the sum over maximal runs of ceil(length / 255). */
  lemma EncodedLength(x: seq<Byte>)
    ensures |Encode(x)| == 2 * Pairs(x)
  {
    if x != [] {
      EmitLength(x[0], 1, x[1..]);
      assert Repeat(x[0], 1) + x[1..] == x;
    }
  }

  lemma {:induction false} NoFewerPairs(q: seq<Byte>)
    ensures 2 * Pairs(Decode(q)) <= |q|
    decreases |q|
  {
    if |q| >= 2 {
      NoFewerPairs(q[2..]);
      PairsOfPrefix(q[1], q[0], Decode(q[2..]));
    }
  }

  /** Among all pair strings that decode to `x`, zero counts and split runs included, the encoder's is shortest. */
  lemma Optimal(x: seq<Byte>, q: seq<Byte>)
    requires Decode(q) == x
    ensures |Encode(x)| <= |q|
  {
    EncodedLength(x);
    NoFewerPairs(q);
  }
}
