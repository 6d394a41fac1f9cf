/** Both runways of the airport ring are used: the bound of two is tight. */
module AirportRunways {
  import opened AirportRing
  import opened AirportInvariants
  import opened AirportSafety

  /** A controller that finds runway one taken and runway two free has runway two after its two tries. */
  lemma TakesSecond(c: Config, s: State, i: nat)
    requires i < |s.workers| && s.workers[i].TryOne? && !s.runway1.Nobody? && s.runway2.Nobody?
    ensures Enabled(s, Work(i)) && Enabled(Step(c, s, Work(i)), Work(i))
    ensures var t := Step(c, Step(c, s, Work(i)), Work(i));
            t == s.(runway2 := Controller(i), workers := s.workers[i := WaitState(Two)])
  {
  }

  // ---------- a run that has two controllers on runways ----------

  lemma Then(c: Config, s: State, a: Action) returns (t: State)
    requires Reachable(c, s) && Enabled(s, a)
    ensures t == Step(c, s, a) && Reachable(c, t)
  {
    t := Step(c, s, a);
    assert Leads(c, t, [], t);
    assert Leads(c, s, [a], t);
    ReachOn(c, s, t);
  }

  /** The first batch has been announced to air control. */
  function Announced(c: Config): State {
    var s := Init(c);
    s.(airUsr2 := true, radio := s.radio.(planes := c.batch), ground := s.ground.(planes := c.batch))
  }

  /** Its planes wait, nobody has moved. */
  function FirstBatch(c: Config): State {
    var s := Announced(c);
    s.(airUsr2 := false, planes := c.batch,
       history := s.history.(handlerRuns := 1, planesDelivered := c.batch))
  }

  lemma BatchIsAnnounced(c: Config)
    requires c.Valid() && c.supply > 0
    ensures Reachable(c, Announced(c))
  {
    var s := Init(c);
    assert Leads(c, s, [], s);
    s := Then(c, s, Timer);
    s := Then(c, s, Admit);
    s := Then(c, s, Announce);
    s := Then(c, s, CountUsr2);
    s := Then(c, s, RelayUsr2);
    assert s == Announced(c);
  }

  lemma BatchArrives(c: Config)
    requires c.Valid() && c.supply > 0
    ensures Reachable(c, FirstBatch(c))
  {
    BatchIsAnnounced(c);
    var s := Then(c, Announced(c), Handle);
    s := Then(c, s, Handle);
    s := Then(c, s, Handle);
    s := Then(c, s, Handle);
    s := Then(c, s, Handle);
    assert s == FirstBatch(c);
  }

  /** The loop test and the check for planes, both passed. */
  lemma Tries(c: Config, s: State, i: nat) returns (t: State)
    requires Reachable(c, s) && i < |s.workers| && s.workers[i].LoopTest? && s.total < c.limit && s.planes > 0
    ensures Reachable(c, t) && t == s.(workers := s.workers[i := TryOne])
  {
    t := Then(c, s, Work(i));
    t := Then(c, t, Work(i));
    assert t.workers == s.workers[i := TryOne];
  }

  lemma TwoTake(c: Config) returns (s: State)
    requires c.Valid() && c.threads >= 2 && c.supply > 0
    ensures Reachable(c, s) && |s.workers| == c.threads && OnRunway(s.workers[0]) && OnRunway(s.workers[1])
  {
    BatchArrives(c);
    s := Tries(c, FirstBatch(c), 0);
    s := Tries(c, s, 1);
    s := Then(c, s, Work(0));
    TakesSecond(c, s, 1);
    s := Then(c, s, Work(1));
    s := Then(c, s, Work(1));
  }

  // ---------- what it takes ----------

  predicate Grounded(pc: Pc) { pc.LoopTest? || pc.QuickCheck? || Leaving(pc) }

  lemma StaysGrounded(c: Config, s: State, a: Action)
    requires c.Valid() && c.supply == 0 && Inv(c, s) && Enabled(s, a)
    requires forall i :: 0 <= i < |s.workers| ==> Grounded(s.workers[i])
    ensures var t := Step(c, s, a); forall i :: 0 <= i < |t.workers| ==> Grounded(t.workers[i])
  {
    Bounds(c, s);
    match a
    case Work(i) =>
    case Handle =>
    case RelayUsr1 | RelayUsr2 | Announce => RelayFrame(c, s, a);
    case StopRadio | StopGround => StopFrame(c, s, a);
    case _ =>
  }

  lemma {:induction false} RunStaysGrounded(c: Config, s: State, run: seq<Action>, t: State)
    requires c.Valid() && c.supply == 0 && Inv(c, s) && Leads(c, s, run, t)
    requires forall i :: 0 <= i < |s.workers| ==> Grounded(s.workers[i])
    ensures forall i :: 0 <= i < |t.workers| ==> Grounded(t.workers[i])
    decreases |run|
  {
    if run != [] {
      StepKeepsInv(c, s, run[0]);
      StaysGrounded(c, s, run[0]);
      RunStaysGrounded(c, Step(c, s, run[0]), run[1..], t);
    }
  }

  ghost predicate TwoOnRunways(s: State) {
    exists i, j :: 0 <= i < j < |s.workers| && OnRunway(s.workers[i]) && OnRunway(s.workers[j])
  }

  /** Two controllers can stand between acquire and release exactly when there are two, and planes to fly. */
  lemma TwoOnRunwaysIff(c: Config)
    requires c.Valid()
    ensures (exists s :: Reachable(c, s) && TwoOnRunways(s)) <==> c.threads >= 2 && c.supply > 0
  {
    if s :| Reachable(c, s) && TwoOnRunways(s) {
      var run :| Leads(c, Init(c), run, s);
      InitInv(c);
      ReachableInv(c, s);
      if c.supply == 0 {
        RunStaysGrounded(c, Init(c), run, s);
      }
    }
    if c.threads >= 2 && c.supply > 0 {
      var s := TwoTake(c);
      assert TwoOnRunways(s);
    }
  }
}
