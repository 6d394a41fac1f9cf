/** What merged signals can cost the airport ring, and when it can finish whatever happens. */
module AirportLosses {
  import opened Division
  import opened AirportRing
  import opened AirportInvariants
  import opened AirportSafety
  import opened AirportProgress

  // ---------- one batch always survives ----------

  ghost predicate Survives(c: Config, s: State) {
    PlanesLost(s) == 0 || PlanesLost(s) + c.batch <= s.ground.planes
  }

  lemma OneDelivered(c: Config, s: State)
    requires c.Valid() && Inv(c, s) && !s.radio.alive
    ensures s.history.planesDelivered >= c.batch
  {
    assert s.total >= c.limit;
    assert s.history.handlerRuns > 0;
  }

  /** The signal that a lost one merges into still brings its own batch. */
  lemma StepSurvives(c: Config, s: State, a: Action)
    requires c.Valid() && Inv(c, s) && Survives(c, s) && Enabled(s, a)
    ensures Survives(c, Step(c, s, a))
  {
    var t := Step(c, s, a);
    StepKeepsInv(c, s, a);
    Bounds(c, t);
    if PlanesLost(t) > PlanesLost(s) {
      WhereLossHappens(c, s, a);
      if a.Announce? && !s.radio.alive {
        OneDelivered(c, s);
      }
    } else {
      StepKeepsLosses(c, s, a);
      GroundOnlyAdmits(c, s, a);
    }
  }

  lemma GroundOnlyAdmits(c: Config, s: State, a: Action)
    requires Enabled(s, a)
    ensures Step(c, s, a).ground.planes >= s.ground.planes
  {
  }

  lemma {:induction false} RunSurvives(c: Config, s: State, run: seq<Action>, t: State)
    requires c.Valid() && Inv(c, s) && Survives(c, s) && Leads(c, s, run, t)
    ensures Survives(c, t)
    decreases |run|
  {
    if run != [] {
      StepKeepsInv(c, s, run[0]);
      StepSurvives(c, s, run[0]);
      RunSurvives(c, Step(c, s, run[0]), run[1..], t);
    }
  }

  /** However many signals merge, at least one batch of those released is not lost. */
  lemma OneBatchSurvives(c: Config, s: State)
    requires c.Valid() && Reachable(c, s)
    ensures PlanesLost(s) == 0 || PlanesLost(s) + c.batch <= s.ground.planes <= c.supply
  {
    var run :| Leads(c, Init(c), run, s);
    InitInv(c);
    RunSurvives(c, Init(c), run, s);
    ReachableInv(c, s);
  }

  // ---------- all the others can be lost ----------

  /** Ground control has released `p` planes, radio has not run yet: all batches merged into the first. */
  function Merged(c: Config, p: nat): State
    requires p >= c.batch
  {
    var s := Init(c);
    s.(radio := s.radio.(usr2 := true),
       ground := s.ground.(planes := p, traffic := p - c.batch),
       history := s.history.(planesLostAtRadio := p - c.batch))
  }

  /** One timer period of ground control. */
  function Period(c: Config, s: State): State { Dispatch(c, AdmitBatch(c, Tick(s))) }

  lemma PeriodRuns(c: Config, s: State)
    requires s.ground.alive && s.ground.pc.Waiting? && s.ground.planes < c.supply
    ensures CanReach(c, s, Period(c, s))
  {
    var t := Period(c, s);
    assert Leads(c, t, [], t);
    assert Leads(c, AdmitBatch(c, Tick(s)), [Announce], t);
    assert Leads(c, Tick(s), [Admit, Announce], t);
    assert Leads(c, s, [Timer, Admit, Announce], t);
  }

  lemma {:induction false} MergesOn(c: Config, p: nat)
    requires c.Valid() && c.batch <= p <= c.supply && Multiple(c.supply - p, c.batch)
    requires Reachable(c, Merged(c, p))
    ensures Reachable(c, Merged(c, c.supply))
    decreases c.supply - p
  {
    if p < c.supply {
      PeriodRuns(c, Merged(c, p));
      assert Period(c, Merged(c, p)) == Merged(c, p + c.batch);
      ReachOn(c, Merged(c, p), Merged(c, p + c.batch));
      MergesOn(c, p + c.batch);
    }
  }

  /** Some run loses every batch but one. */
  lemma AllButOneLost(c: Config) returns (s: State)
    requires c.Valid() && c.supply > 0
    ensures Reachable(c, s) && PlanesLost(s) == c.supply - c.batch
  {
    var s0 := Init(c);
    SupplyIsBatches(c);
    PeriodRuns(c, s0);
    assert Period(c, s0) == Merged(c, c.batch);
    MergesOn(c, c.batch);
    s := Merged(c, c.supply);
  }

  // ---------- when the pool can finish whatever has happened ----------

  ghost predicate CanStillFinish(c: Config, s: State) {
    exists t :: CanReach(c, s, t) && Stopped(t)
  }

  lemma StartIsReachable(c: Config)
    ensures Reachable(c, Init(c))
  {
    assert Leads(c, Init(c), [], Init(c));
  }

  /** Every reachable state can still finish if and only if one batch makes up the limit, and there is one. */
  lemma CanAlwaysFinishIff(c: Config)
    requires c.Valid()
    ensures (forall s :: Reachable(c, s) ==> CanStillFinish(c, s)) <==> c.limit <= c.supply && c.limit <= c.batch
  {
    if c.limit <= c.supply && c.limit <= c.batch {
      forall s | Reachable(c, s) ensures CanStillFinish(c, s) {
        OneBatchSurvives(c, s);
        CanFinishIff(c, s);
      }
    } else if c.limit > c.supply {
      StartIsReachable(c);
      CanFinishIff(c, Init(c));
      assert !CanStillFinish(c, Init(c));
    } else {
      var s := AllButOneLost(c);
      CanFinishIff(c, s);
      assert !CanStillFinish(c, s);
    }
  }
}
