/** How every run of the prime work queue ends, whatever the interleaving. */
module PrimeQueueOutcomes {
  import opened Primality
  import opened PrimeQueue

  // ---------- every run ends ----------

  /** Each message costs a send, a receive and a test; a pill is never tested. */
  function Work(s: State): nat {
    3 * |s.unsent| + 2 * |s.queue| + CountTesting(s.workers) + CountStopped(s.workers)
  }

  lemma StepDoesWork(c: Config, s: State, a: Action)
    requires Enabled(c, s, a)
    ensures Work(Step(c, s, a)) + 1 == Work(s)
  {
    match a
    case Send =>
    case Receive(w) => WorkerChanges(s.workers, w, if s.queue[0] == PILL then Stopped else Testing(s.queue[0]));
    case Test(w) => WorkerChanges(s.workers, w, Receiving);
  }

  lemma {:induction false} RunDoesWork(c: Config, s: State, run: seq<Action>, t: State)
    requires Leads(c, s, run, t)
    ensures |run| + Work(t) == Work(s)
    decreases |run|
  {
    if run != [] {
      StepDoesWork(c, s, run[0]);
      RunDoesWork(c, Step(c, s, run[0]), run[1..], t);
    }
  }

  /** No run is longer than this; a finished one has sent and taken every message and tested every number. */
  lemma EveryRunEnds(c: Config, run: seq<Action>, t: State)
    requires Leads(c, Init(c), run, t)
    ensures |run| <= 3 * (|c.input| + c.workers)
    ensures Finished(t) ==> |run| == 3 * |c.input| + 2 * c.workers
  {
    NobodyStarted(c.workers);
    RunDoesWork(c, Init(c), run, t);
    if Finished(t) {
      InitInv(c);
      RunKeepsInv(c, Init(c), run, t);
      StoppedIsAll(t.workers);
      AllStoppedNotTesting(t.workers);
    }
  }

  lemma {:induction false} AllStoppedNotTesting(ws: seq<Pc>)
    requires forall w :: 0 <= w < |ws| ==> ws[w].Stopped?
    ensures CountTesting(ws) == 0 && PrimesUnderTest(ws) == multiset{}
  {
    if ws != [] {
      AllStoppedNotTesting(ws[1..]);
    }
  }

  // ---------- where a run gets stuck ----------

  lemma AllTaken(c: Config, s: State)
    requires Inv(c, s) && s.queue == [] && s.unsent == []
    ensures AllStopped(s) && PillsIn(c.input) == 0
  {
    assert Messages(s.received) + s.queue + s.unsent == Messages(s.received);
    PillsOfStream(c);
    StoppedIsAll(s.workers);
  }

  /** The processes block each other only when every worker has stopped. */
  lemma StuckMeansStopped(c: Config, s: State)
    requires c.Valid() && Reachable(c, s)
    ensures Stuck(c, s) <==> AllStopped(s) && (s.unsent == [] || |s.queue| == c.capacity)
  {
    ReachableInv(c, s);
    if Stuck(c, s) {
      assert !Enabled(c, s, Send);
      forall w | 0 <= w < |s.workers| ensures s.workers[w].Stopped? {
        assert !Enabled(c, s, Receive(w)) && !Enabled(c, s, Test(w));
        if s.workers[w].Receiving? {
          AllTaken(c, s);
        }
      }
    }
  }

  lemma RestOfStream(taken: seq<int>, queue: seq<int>, unsent: seq<int>, whole: seq<int>)
    requires taken + queue + unsent == whole && whole != [] && whole[|whole| - 1] == PILL
    ensures PillsIn(taken) + PillsIn(queue + unsent) == PillsIn(whole)
    ensures queue + unsent != [] ==> PillsIn(queue + unsent) > 0
  {
    var rest := queue + unsent;
    assert taken + queue + unsent == taken + rest;
    if rest != [] {
      assert rest[|rest| - 1] == (taken + rest)[|whole| - 1];
      assert PILL in rest;
    }
  }

  /** What is left behind once all workers stopped: exactly as many pills as the input had. */
  lemma LeftBehind(c: Config, s: State)
    requires c.Valid() && Inv(c, s) && AllStopped(s)
    ensures PillsIn(s.queue + s.unsent) == PillsIn(c.input)
    ensures PILL !in c.input <==> s.queue == [] && s.unsent == []
  {
    RestOfStream(Messages(s.received), s.queue, s.unsent, Stream(c));
    PillsOfStream(c);
    StoppedIsAll(s.workers);
    assert PILL in c.input <==> PillsIn(c.input) > 0;
  }

  lemma LastTakenIsPill(c: Config, s: State)
    requires c.Valid() && Inv(c, s) && AllStopped(s)
    ensures var m := Messages(s.received); m != [] && m[|m| - 1] == PILL && PillsIn(m) == c.workers
  {
    StoppedIsAll(s.workers);
    var r := s.received;
    assert Fits(s.workers[0], TakenBy(r, 0));
    var x := r[|r| - 1];
    assert Fits(s.workers[x.worker], TakenBy(r, x.worker));
    assert r == r[..|r| - 1] + [x];
    TakenOfNext(r[..|r| - 1], x, x.worker);
  }

  lemma SamePrefix(whole: seq<int>, a: seq<int>, b: seq<int>)
    requires a <= whole && b <= whole && |a| <= |b|
    requires b != [] && b[|b| - 1] == PILL && PillsIn(a) == PillsIn(b)
    ensures a == b
  {
    assert a <= b;
    if |a| < |b| {
      Longer(a, b);
    }
  }

  lemma Longer(a: seq<int>, b: seq<int>)
    requires a <= b && |a| < |b| && b[|b| - 1] == PILL
    ensures PillsIn(a) < PillsIn(b)
  {
    assert b == a + b[|a|..];
    assert b[|a|..][|b| - |a| - 1] == PILL;
    assert PillsIn(b[|a|..]) > 0;
  }

  lemma StuckTakes(c: Config, s: State)
    requires c.Valid() && Reachable(c, s) && Stuck(c, s)
    ensures var m := Messages(s.received);
            m <= Stream(c) && m != [] && m[|m| - 1] == PILL && PillsIn(m) == c.workers
    ensures multiset(s.reported) == PrimesOf(Messages(s.received))
  {
    ReachableInv(c, s);
    StuckMeansStopped(c, s);
    LastTakenIsPill(c, s);
    AllStoppedNotTesting(s.workers);
    assert Messages(s.received) + s.queue + s.unsent == Messages(s.received) + (s.queue + s.unsent);
  }

  /**
   The interleaving does not matter: whoever moved when, all runs that get stuck have taken the same messages
   in the same order and reported the same numbers.
   */
  lemma OneOutcome(c: Config, s: State, t: State)
    requires c.Valid() && Reachable(c, s) && Stuck(c, s) && Reachable(c, t) && Stuck(c, t)
    ensures Messages(s.received) == Messages(t.received)
    ensures multiset(s.reported) == multiset(t.reported) == PrimesOf(Messages(s.received))
  {
    StuckTakes(c, s);
    StuckTakes(c, t);
    var a, b := Messages(s.received), Messages(t.received);
    if |a| <= |b| {
      SamePrefix(Stream(c), a, b);
    } else {
      SamePrefix(Stream(c), b, a);
    }
  }

  // ---------- a finished run ----------

  /** How often the first `n` workers, together, took `m`. */
  function TimesTaken(r: seq<Receipt>, n: nat, m: int): nat {
    if n == 0 then 0 else TimesTaken(r, n - 1, m) + multiset(TakenBy(r, n - 1))[m]
  }

  lemma {:induction false} TimesTakenOfNext(r: seq<Receipt>, x: Receipt, n: nat, m: int)
    ensures TimesTaken(r + [x], n, m) == TimesTaken(r, n, m) + if x.worker < n && x.message == m then 1 else 0
  {
    if n > 0 {
      TimesTakenOfNext(r, x, n - 1, m);
      TakenOfNext(r, x, n - 1);
      CountOfNext(TakenBy(r, n - 1), x.message, m);
    }
  }

  lemma {:induction false} NothingTaken(n: nat, m: int)
    ensures TimesTaken([], n, m) == 0
  {
    if n > 0 {
      NothingTaken(n - 1, m);
    }
  }

  /** No message is shared between two workers, and none is taken by nobody. */
  lemma {:induction false} WorkersShareOut(r: seq<Receipt>, n: nat, m: int)
    requires forall i :: 0 <= i < |r| ==> r[i].worker < n
    ensures TimesTaken(r, n, m) == multiset(Messages(r))[m]
  {
    if r == [] {
      NothingTaken(n, m);
    } else {
      var k := |r| - 1;
      WorkersShareOut(r[..k], n, m);
      assert r == r[..k] + [r[k]];
      TimesTakenOfNext(r[..k], r[k], n, m);
      MessagesOfNext(r[..k], r[k]);
    }
  }

  lemma OnePillFewer(m: seq<int>, n: nat)
    requires n > 0
    ensures var w := m + Pills(n); w[..|w| - 1] == m + Pills(n - 1) && w[|w| - 1] == PILL
  {
  }

  lemma {:induction false} PrimesOfPills(m: seq<int>, n: nat)
    ensures PrimesOf(m + Pills(n)) == PrimesOf(m)
  {
    if n == 0 {
      assert m + Pills(0) == m;
    } else {
      PrimesOfPills(m, n - 1);
      OnePillFewer(m, n);
    }
  }

  /** Exactly once: every message sent is taken once, by one worker, and the primes of the input are reported. */
  lemma ExactlyOnce(c: Config, s: State)
    requires c.Valid() && Reachable(c, s) && Finished(s)
    ensures Messages(s.received) == Stream(c)
    ensures forall m :: TimesTaken(s.received, c.workers, m) == multiset(Stream(c))[m]
    ensures forall w :: 0 <= w < c.workers ==>
              var m := TakenBy(s.received, w); m != [] && m[|m| - 1] == PILL && PILL !in m[..|m| - 1]
    ensures forall n :: multiset(s.reported)[n] == if Prime(n) then multiset(c.input)[n] else 0
  {
    ReachableInv(c, s);
    assert Messages(s.received) + s.queue + s.unsent == Messages(s.received);
    forall m ensures TimesTaken(s.received, c.workers, m) == multiset(Stream(c))[m] {
      WorkersShareOut(s.received, c.workers, m);
    }
    AllStoppedNotTesting(s.workers);
    PrimesOfPills(c.input, c.workers);
    forall n ensures multiset(s.reported)[n] == if Prime(n) then multiset(c.input)[n] else 0 {
      PrimesOfExact(c.input, n);
    }
    forall w | 0 <= w < c.workers
      ensures var m := TakenBy(s.received, w); m != [] && m[|m| - 1] == PILL && PILL !in m[..|m| - 1]
    {
      assert Fits(s.workers[w], TakenBy(s.received, w));
    }
  }

  /** Without -1 in the input, a run that can go no further has finished. */
  lemma StuckIsFinished(c: Config, s: State)
    requires c.Valid() && Reachable(c, s) && Stuck(c, s)
    ensures Finished(s) <==> PILL !in c.input
  {
    ReachableInv(c, s);
    StuckMeansStopped(c, s);
    LeftBehind(c, s);
  }

  lemma {:induction false} Extend(c: Config, s: State, run: seq<Action>, t: State, a: Action)
    requires Leads(c, s, run, t) && Enabled(c, t, a)
    ensures Leads(c, s, run + [a], Step(c, t, a))
    decreases |run|
  {
    if run == [] {
      assert (run + [a])[1..] == [];
    } else {
      Extend(c, Step(c, s, run[0]), run[1..], t, a);
      assert (run + [a])[1..] == run[1..] + [a];
    }
  }

  lemma StepReachable(c: Config, s: State, a: Action)
    requires Reachable(c, s) && Enabled(c, s, a)
    ensures Reachable(c, Step(c, s, a))
  {
    var run :| Leads(c, Init(c), run, s);
    Extend(c, Init(c), run, s, a);
  }

  /** From everywhere some schedule goes on until nobody can move. */
  lemma {:induction false} RunToTheEnd(c: Config, s: State) returns (run: seq<Action>, t: State)
    requires Reachable(c, s)
    ensures Leads(c, s, run, t) && Reachable(c, t) && Stuck(c, t)
    decreases Work(s)
  {
    if Stuck(c, s) {
      run, t := [], s;
    } else {
      var a :| Enabled(c, s, a);
      StepDoesWork(c, s, a);
      StepReachable(c, s, a);
      run, t := RunToTheEnd(c, Step(c, s, a));
      run := [a] + run;
    }
  }

  /** The work can be finished exactly when no number in the input is itself a pill. */
  lemma CanFinishIff(c: Config)
    requires c.Valid()
    ensures (exists s :: Reachable(c, s) && Finished(s)) <==> PILL !in c.input
  {
    if s :| Reachable(c, s) && Finished(s) {
      StuckMeansStopped(c, s);
      StuckIsFinished(c, s);
    }
    if PILL !in c.input {
      assert Leads(c, Init(c), [], Init(c));
      var run, t := RunToTheEnd(c, Init(c));
      StuckIsFinished(c, t);
    }
  }
}
