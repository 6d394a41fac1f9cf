/** Supplies that are not a whole number of batches. */
module AirportRounding {
  // Ground control tests `planes` before it adds a whole batch, so it runs as if the supply were rounded up;
  // everything proved for valid configurations holds for that one.

  import opened AirportRing
  import opened AirportInvariants
  import opened AirportSafety
  import opened Division

  /** A configuration with any supply at all. */
  ghost predicate AnySupply(c: Config) {
    c.threads >= 1 && c.limit >= 1 && c.batch >= 1
  }

  function Rounded(c: Config): Config
    requires c.batch >= 1
  {
    c.(supply := c.batch * ((c.supply + c.batch - 1) / c.batch))
  }

  lemma RoundedUp(c: Config)
    requires AnySupply(c)
    ensures Rounded(c).Valid() && c.supply <= Rounded(c).supply < c.supply + c.batch
    ensures c.supply % c.batch == 0 <==> Rounded(c).supply == c.supply
  {
    var b, q := c.batch, (c.supply + c.batch - 1) / c.batch;
    assert c.supply + b - 1 == b * q + (c.supply + b - 1) % b;
    DivideUnique(b, q, 0, b * q);
    if c.supply % b == 0 {
      var k := c.supply / b;
      assert c.supply == b * k;
      DivideUnique(b, k, b - 1, c.supply + b - 1);
    }
  }

  lemma SmallMultiple(n: int, b: nat)
    requires Multiple(n, b) && n < b
    ensures n == 0
  {
  }

  /** The test `planes < supply` cannot tell the two supplies apart. */
  lemma SameTest(c: Config, s: State)
    requires AnySupply(c) && Inv(Rounded(c), s)
    ensures s.ground.planes < c.supply <==> s.ground.planes < Rounded(c).supply
  {
    RoundedUp(c);
    if s.ground.planes >= c.supply {
      SmallMultiple(Rounded(c).supply - s.ground.planes, c.batch);
    }
  }

  lemma WorkerBlind(c: Config, c': Config, s: State, i: nat)
    requires WorkerEnabled(s, i) && c' == c.(supply := c'.supply)
    ensures WorkerStep(c, s, i) == WorkerStep(c', s, i)
  {
    assert NextPc(c, s, s.workers[i]) == NextPc(c', s, s.workers[i]);
    assert Effect(c, s, i, s.workers[i]) == Effect(c', s, i, s.workers[i]);
  }

  lemma SameStep(c: Config, s: State, a: Action)
    requires AnySupply(c) && Inv(Rounded(c), s) && Enabled(s, a)
    ensures Step(c, s, a) == Step(Rounded(c), s, a)
  {
    if a.Work? {
      WorkerBlind(c, Rounded(c), s, a.i);
    } else {
      SameTest(c, s);
    }
  }

  lemma {:induction false} SameRun(c: Config, s: State, run: seq<Action>, t: State)
    requires AnySupply(c) && Inv(Rounded(c), s)
    ensures Leads(c, s, run, t) <==> Leads(Rounded(c), s, run, t)
    decreases |run|
  {
    if run != [] && Enabled(s, run[0]) {
      RoundedUp(c);
      SameStep(c, s, run[0]);
      StepKeepsInv(Rounded(c), s, run[0]);
      SameRun(c, Step(c, s, run[0]), run[1..], t);
    }
  }

  /** Any supply is as good as the supply rounded up to whole batches: the same states are reached. */
  lemma RunsAsRounded(c: Config, s: State)
    requires AnySupply(c)
    ensures Rounded(c).Valid() && (Reachable(c, s) <==> Reachable(Rounded(c), s))
  {
    RoundedUp(c);
    InitInv(Rounded(c));
    assert Init(c) == Init(Rounded(c));
    if Reachable(c, s) {
      var run :| Leads(c, Init(c), run, s);
      SameRun(c, Init(c), run, s);
      assert CanReach(Rounded(c), Init(c), s);
    }
    if Reachable(Rounded(c), s) {
      var run :| Leads(Rounded(c), Init(c), run, s);
      SameRun(c, Init(c), run, s);
      assert CanReach(c, Init(c), s);
    }
  }

  /** One round of the timer that finds room. */
  lemma OneRound(c: Config, r: State) returns (s: State)
    requires Reachable(c, r) && r.ground.pc.Waiting? && r.ground.alive && r.ground.planes < c.supply
    ensures Reachable(c, s) && s.ground.planes == r.ground.planes + c.batch && s.ground.pc.Waiting? && s.ground.alive
  {
    var t := Tick(r);
    var u := AdmitBatch(c, t);
    s := Dispatch(c, u);
    assert Leads(c, s, [], s);
    assert Leads(c, u, [Announce], s);
    assert Leads(c, t, [Admit, Announce], s);
    assert Leads(c, r, [Timer, Admit, Announce], s);
    assert CanReach(c, r, s);
    ReachOn(c, r, s);
  }

  /** `k` rounds, as long as the last of them still finds room. */
  lemma {:induction false} Fills(c: Config, k: nat) returns (s: State)
    requires k == 0 || c.batch * (k - 1) < c.supply
    ensures Reachable(c, s) && s.ground.planes == c.batch * k && s.ground.pc.Waiting? && s.ground.alive
  {
    if k == 0 {
      s := Init(c);
      assert Leads(c, s, [], s);
      assert c.batch * 0 == 0;
    } else {
      assert c.batch * (k - 1) + c.batch == c.batch * k;
      assert k > 1 ==> c.batch * (k - 2) + c.batch == c.batch * (k - 1);
      s := Fills(c, k - 1);
      s := OneRound(c, s);
    }
  }

  /** Ground control releases less than a batch too much, and keeps to the supply exactly when it is whole batches. */
  lemma SupplyIsKeptIff(c: Config)
    requires AnySupply(c)
    ensures forall s :: Reachable(c, s) ==> s.ground.planes < c.supply + c.batch
    ensures (forall s :: Reachable(c, s) ==> s.ground.planes <= c.supply) <==> c.supply % c.batch == 0
  {
    RoundedUp(c);
    forall s | Reachable(c, s) ensures s.ground.planes <= Rounded(c).supply {
      RunsAsRounded(c, s);
      ReachableInv(Rounded(c), s);
    }
    if c.supply % c.batch != 0 {
      var k := c.supply / c.batch;
      assert c.supply == c.batch * k + c.supply % c.batch;
      assert c.batch * (k + 1) == c.batch * k + c.batch;
      var s := Fills(c, k + 1);
    }
  }
}
