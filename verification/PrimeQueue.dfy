/**
 The prime work queue: a producer sends the numbers and then one pill (-1) per worker through a bounded
 FIFO queue; each worker takes messages until it takes a pill.  A run is any interleaving of the steps.
 */
module PrimeQueue {
  import opened Primality

  const PILL: int := -1

  datatype Config = Config(workers: nat, capacity: nat, input: seq<int>)
  {
    ghost predicate Valid() { workers >= 1 && capacity >= 1 }
  }

  datatype Pc = Receiving | Testing(number: int) | Stopped

  /** A message and the worker that took it. */
  datatype Receipt = Receipt(worker: nat, message: int)

  /** `received` and `reported` record what happened; no step looks at them. */
  datatype State = State(unsent: seq<int>, queue: seq<int>, workers: seq<Pc>,
                         received: seq<Receipt>, reported: seq<int>)

  function Pills(n: nat): (p: seq<int>)
    ensures |p| == n && forall i :: 0 <= i < n ==> p[i] == PILL
  {
    seq(n, i => PILL)
  }

  function Stream(c: Config): seq<int> { c.input + Pills(c.workers) }

  function Init(c: Config): State {
    State(Stream(c), [], seq(c.workers, i => Receiving), [], [])
  }

  datatype Action = Send | Receive(w: nat) | Test(w: nat)

  /** `mq_send` blocks on a full queue, `mq_receive` on an empty one. */
  predicate Enabled(c: Config, s: State, a: Action) {
    match a
    case Send => s.unsent != [] && |s.queue| < c.capacity
    case Receive(w) => w < |s.workers| && s.workers[w].Receiving? && s.queue != []
    case Test(w) => w < |s.workers| && s.workers[w].Testing?
  }

  function Step(c: Config, s: State, a: Action): State
    requires Enabled(c, s, a)
  {
    match a
    case Send => s.(unsent := s.unsent[1..], queue := s.queue + [s.unsent[0]])
    case Receive(w) =>
      var m := s.queue[0];
      s.(queue := s.queue[1..],
         workers := s.workers[w := if m == PILL then Stopped else Testing(m)],
         received := s.received + [Receipt(w, m)])
    case Test(w) =>
      var n := s.workers[w].number;
      s.(workers := s.workers[w := Receiving],
         reported := if Prime(n) then s.reported + [n] else s.reported)
  }

  ghost predicate Leads(c: Config, s: State, run: seq<Action>, t: State)
    decreases |run|
  {
    if run == [] then s == t
    else Enabled(c, s, run[0]) && Leads(c, Step(c, s, run[0]), run[1..], t)
  }

  ghost predicate Reachable(c: Config, s: State) {
    exists run :: Leads(c, Init(c), run, s)
  }

  /** No process can move. */
  ghost predicate Stuck(c: Config, s: State) {
    forall a :: !Enabled(c, s, a)
  }

  predicate AllStopped(s: State) {
    forall w :: 0 <= w < |s.workers| ==> s.workers[w].Stopped?
  }

  /** Nothing is left to send or to receive, and every process has ended. */
  predicate Finished(s: State) {
    s.unsent == [] && s.queue == [] && AllStopped(s)
  }

  // ---------- what the processes have done so far ----------

  function Messages(r: seq<Receipt>): (m: seq<int>)
    ensures |m| == |r| && forall i :: 0 <= i < |r| ==> m[i] == r[i].message
  {
    seq(|r|, i requires 0 <= i < |r| => r[i].message)
  }

  /** The messages worker `w` took. */
  function TakenBy(r: seq<Receipt>, w: nat): seq<int> {
    if r == [] then []
    else
      var last := r[|r| - 1];
      TakenBy(r[..|r| - 1], w) + if last.worker == w then [last.message] else []
  }

  function PillsIn(m: seq<int>): nat { multiset(m)[PILL] }

  function CountStopped(ws: seq<Pc>): nat {
    if ws == [] then 0 else (if ws[0].Stopped? then 1 else 0) + CountStopped(ws[1..])
  }

  function CountTesting(ws: seq<Pc>): nat {
    if ws == [] then 0 else (if ws[0].Testing? then 1 else 0) + CountTesting(ws[1..])
  }

  function IfPrime(n: int): multiset<int> { if Prime(n) then multiset{n} else multiset{} }

  function PrimesOf(m: seq<int>): multiset<int> {
    if m == [] then multiset{} else PrimesOf(m[..|m| - 1]) + IfPrime(m[|m| - 1])
  }

  function PrimeUnderTest(pc: Pc): multiset<int> {
    if pc.Testing? then IfPrime(pc.number) else multiset{}
  }

  function PrimesUnderTest(ws: seq<Pc>): multiset<int> {
    if ws == [] then multiset{} else PrimeUnderTest(ws[0]) + PrimesUnderTest(ws[1..])
  }

  lemma CountOfNext(s: seq<int>, x: int, n: int)
    ensures multiset(s + [x])[n] == multiset(s)[n] + if x == n then 1 else 0
  {
  }

  lemma {:induction false} PrimesOfExact(m: seq<int>, n: int)
    ensures PrimesOf(m)[n] == if Prime(n) then multiset(m)[n] else 0
  {
    if m != [] {
      var k := |m| - 1;
      PrimesOfExact(m[..k], n);
      CountOfNext(m[..k], m[k], n);
      assert m == m[..k] + [m[k]];
    }
  }

  lemma MessagesOfNext(r: seq<Receipt>, x: Receipt)
    ensures Messages(r + [x]) == Messages(r) + [x.message]
    ensures PrimesOf(Messages(r + [x])) == PrimesOf(Messages(r)) + IfPrime(x.message)
  {
    var m := Messages(r);
    assert Messages(r + [x]) == m + [x.message];
    assert (m + [x.message])[..|m|] == m;
  }

  lemma TakenOfNext(r: seq<Receipt>, x: Receipt, w: nat)
    ensures TakenBy(r + [x], w) == if x.worker == w then TakenBy(r, w) + [x.message] else TakenBy(r, w)
  {
    assert (r + [x])[..|r|] == r;
  }

  lemma {:induction false} PillsOfPills(n: nat)
    ensures PillsIn(Pills(n)) == n
  {
    if n > 0 {
      PillsOfPills(n - 1);
      assert Pills(n) == Pills(n - 1) + [PILL];
    } else {
      assert Pills(0) == [];
    }
  }

  lemma PillsOfStream(c: Config)
    ensures PillsIn(Stream(c)) == PillsIn(c.input) + c.workers
  {
    PillsOfPills(c.workers);
  }

  lemma {:induction false} WorkerChanges(ws: seq<Pc>, w: nat, pc: Pc)
    requires w < |ws|
    ensures CountStopped(ws[w := pc]) ==
            CountStopped(ws) - (if ws[w].Stopped? then 1 else 0) + (if pc.Stopped? then 1 else 0)
    ensures CountTesting(ws[w := pc]) ==
            CountTesting(ws) - (if ws[w].Testing? then 1 else 0) + (if pc.Testing? then 1 else 0)
  {
    if w == 0 {
      assert ws[w := pc][1..] == ws[1..];
    } else {
      assert ws[w := pc][1..] == ws[1..][w - 1 := pc];
      WorkerChanges(ws[1..], w - 1, pc);
    }
  }

  lemma Shift(h: multiset<int>, a: multiset<int>, b: multiset<int>, x: multiset<int>, y: multiset<int>)
    requires a + x == b + y
    ensures (h + a) + x == (h + b) + y
  {
    assert (h + a) + x == h + (a + x);
    assert (h + b) + y == h + (b + y);
  }

  lemma {:induction false} UnderTestChanges(ws: seq<Pc>, w: nat, pc: Pc)
    requires w < |ws|
    ensures PrimesUnderTest(ws[w := pc]) + PrimeUnderTest(ws[w]) == PrimesUnderTest(ws) + PrimeUnderTest(pc)
  {
    var vs := ws[w := pc];
    if w == 0 {
      assert vs[1..] == ws[1..];
    } else {
      assert vs[1..] == ws[1..][w - 1 := pc];
      UnderTestChanges(ws[1..], w - 1, pc);
      Shift(PrimeUnderTest(ws[0]), PrimesUnderTest(vs[1..]), PrimesUnderTest(ws[1..]),
            PrimeUnderTest(ws[w]), PrimeUnderTest(pc));
    }
  }

  lemma {:induction false} StoppedIsAll(ws: seq<Pc>)
    ensures CountStopped(ws) <= |ws|
    ensures CountStopped(ws) == |ws| <==> forall w :: 0 <= w < |ws| ==> ws[w].Stopped?
  {
    if ws != [] {
      StoppedIsAll(ws[1..]);
      assert forall w :: 0 < w < |ws| ==> ws[w] == ws[1..][w - 1];
    }
  }

  lemma {:induction false} NobodyStarted(n: nat)
    ensures var ws := seq(n, i => Receiving);
            CountStopped(ws) == 0 && CountTesting(ws) == 0 && PrimesUnderTest(ws) == multiset{}
  {
    if n > 0 {
      NobodyStarted(n - 1);
      assert seq(n, i => Receiving)[1..] == seq(n - 1, i => Receiving);
    }
  }

  // ---------- invariant ----------

  ghost predicate Sized(c: Config, s: State) {
    && |s.workers| == c.workers && |s.queue| <= c.capacity
    && forall i :: 0 <= i < |s.received| ==> s.received[i].worker < c.workers
  }

  /** Messages leave the queue in the order they were sent; none is lost, added or duplicated. */
  ghost predicate Fifo(c: Config, s: State) {
    Messages(s.received) + s.queue + s.unsent == Stream(c)
  }

  ghost predicate PillsCounted(s: State) {
    CountStopped(s.workers) == PillsIn(Messages(s.received))
  }

  /** What a worker's program counter says about the messages it took. */
  ghost predicate Fits(pc: Pc, taken: seq<int>) {
    match pc
    case Receiving => PILL !in taken
    case Testing(n) => PILL !in taken && taken != [] && taken[|taken| - 1] == n
    case Stopped => taken != [] && taken[|taken| - 1] == PILL && PILL !in taken[..|taken| - 1]
  }

  ghost predicate AllFit(s: State) {
    forall w :: 0 <= w < |s.workers| ==> Fits(s.workers[w], TakenBy(s.received, w))
  }

  ghost predicate PrimesReported(s: State) {
    multiset(s.reported) + PrimesUnderTest(s.workers) == PrimesOf(Messages(s.received))
  }

  ghost predicate Inv(c: Config, s: State) {
    Sized(c, s) && Fifo(c, s) && PillsCounted(s) && AllFit(s) && PrimesReported(s)
  }

  lemma InitInv(c: Config)
    ensures Inv(c, Init(c))
  {
    NobodyStarted(c.workers);
    var s := Init(c);
    assert Messages(s.received) == [];
    assert Messages(s.received) + s.queue + s.unsent == s.unsent;
  }

  lemma SendKeepsInv(c: Config, s: State)
    requires Inv(c, s) && Enabled(c, s, Send)
    ensures Inv(c, Step(c, s, Send))
  {
    assert s.unsent == [s.unsent[0]] + s.unsent[1..];
    assert (Messages(s.received) + (s.queue + [s.unsent[0]])) + s.unsent[1..]
        == Messages(s.received) + s.queue + ([s.unsent[0]] + s.unsent[1..]);
  }

  lemma MoveOver(a: seq<int>, q: seq<int>, b: seq<int>)
    requires q != []
    ensures (a + [q[0]]) + q[1..] + b == a + q + b
  {
  }

  lemma ReceiveKeepsFifo(c: Config, s: State, w: nat)
    requires Sized(c, s) && Fifo(c, s) && Enabled(c, s, Receive(w))
    ensures Sized(c, Step(c, s, Receive(w))) && Fifo(c, Step(c, s, Receive(w)))
  {
    MessagesOfNext(s.received, Receipt(w, s.queue[0]));
    MoveOver(Messages(s.received), s.queue, s.unsent);
  }

  lemma ReceiveKeepsFit(c: Config, s: State, w: nat)
    requires Sized(c, s) && AllFit(s) && Enabled(c, s, Receive(w))
    ensures AllFit(Step(c, s, Receive(w)))
  {
    var t, m := Step(c, s, Receive(w)), s.queue[0];
    forall v | 0 <= v < |t.workers| ensures Fits(t.workers[v], TakenBy(t.received, v)) {
      TakenOfNext(s.received, Receipt(w, m), v);
      assert Fits(s.workers[v], TakenBy(s.received, v));
      var taken := TakenBy(s.received, v);
      assert (taken + [m])[..|taken|] == taken;
    }
  }

  lemma ReceiveKeepsPills(c: Config, s: State, w: nat)
    requires PillsCounted(s) && Enabled(c, s, Receive(w))
    ensures PillsCounted(Step(c, s, Receive(w)))
  {
    var m := s.queue[0];
    MessagesOfNext(s.received, Receipt(w, m));
    WorkerChanges(s.workers, w, if m == PILL then Stopped else Testing(m));
    PillsOfNext(Messages(s.received), m);
  }

  lemma PillsOfNext(m: seq<int>, x: int)
    ensures PillsIn(m + [x]) == PillsIn(m) + if x == PILL then 1 else 0
  {
  }

  lemma ReceiveKeepsReports(c: Config, s: State, w: nat)
    requires PrimesReported(s) && Enabled(c, s, Receive(w))
    ensures PrimesReported(Step(c, s, Receive(w)))
  {
    var m := s.queue[0];
    var pc := if m == PILL then Stopped else Testing(m);
    var t := Step(c, s, Receive(w));
    MessagesOfNext(s.received, Receipt(w, m));
    UnderTestChanges(s.workers, w, pc);
    assert PrimeUnderTest(pc) == IfPrime(m) && PrimeUnderTest(s.workers[w]) == multiset{};
    assert PrimesUnderTest(t.workers) == PrimesUnderTest(s.workers) + IfPrime(m);
    Join(multiset(s.reported), PrimesUnderTest(s.workers), IfPrime(m));
  }

  lemma Join(a: multiset<int>, b: multiset<int>, x: multiset<int>)
    ensures a + (b + x) == (a + b) + x == (a + x) + b
  {
  }

  lemma ReceiveKeepsInv(c: Config, s: State, w: nat)
    requires Inv(c, s) && Enabled(c, s, Receive(w))
    ensures Inv(c, Step(c, s, Receive(w)))
  {
    ReceiveKeepsFifo(c, s, w);
    ReceiveKeepsFit(c, s, w);
    ReceiveKeepsPills(c, s, w);
    ReceiveKeepsReports(c, s, w);
  }

  lemma TestKeepsReports(c: Config, s: State, w: nat)
    requires PillsCounted(s) && PrimesReported(s) && Enabled(c, s, Test(w))
    ensures PillsCounted(Step(c, s, Test(w))) && PrimesReported(Step(c, s, Test(w)))
  {
    var t, n := Step(c, s, Test(w)), s.workers[w].number;
    WorkerChanges(s.workers, w, Receiving);
    UnderTestChanges(s.workers, w, Receiving);
    assert PrimesUnderTest(t.workers) + IfPrime(n) == PrimesUnderTest(s.workers);
    assert multiset(t.reported) == multiset(s.reported) + IfPrime(n);
    Join(multiset(s.reported), PrimesUnderTest(t.workers), IfPrime(n));
  }

  lemma TestKeepsInv(c: Config, s: State, w: nat)
    requires Inv(c, s) && Enabled(c, s, Test(w))
    ensures Inv(c, Step(c, s, Test(w)))
  {
    var t := Step(c, s, Test(w));
    TestKeepsReports(c, s, w);
    forall v | 0 <= v < |t.workers| ensures Fits(t.workers[v], TakenBy(t.received, v)) {
      assert Fits(s.workers[v], TakenBy(s.received, v));
    }
  }

  lemma StepKeepsInv(c: Config, s: State, a: Action)
    requires Inv(c, s) && Enabled(c, s, a)
    ensures Inv(c, Step(c, s, a))
  {
    match a
    case Send => SendKeepsInv(c, s);
    case Receive(w) => ReceiveKeepsInv(c, s, w);
    case Test(w) => TestKeepsInv(c, s, w);
  }

  lemma {:induction false} RunKeepsInv(c: Config, s: State, run: seq<Action>, t: State)
    requires Inv(c, s) && Leads(c, s, run, t)
    ensures Inv(c, t)
    decreases |run|
  {
    if run != [] {
      StepKeepsInv(c, s, run[0]);
      RunKeepsInv(c, Step(c, s, run[0]), run[1..], t);
    }
  }

  lemma ReachableInv(c: Config, s: State)
    requires Reachable(c, s)
    ensures Inv(c, s)
  {
    var run :| Leads(c, Init(c), run, s);
    InitInv(c);
    RunKeepsInv(c, Init(c), run, s);
  }
}
