/** The C pool: both runways are used, nobody is stuck, and when it can finish. */
module CPoolProgress {
  import opened CPool
  import opened CPoolBounds
  import opened Division

  // ---------- runways ----------

  predicate OnRunway(pc: Pc) { Occupies(pc, One) || Occupies(pc, Two) }

  /** Each runway has one controller at a time, the recorded one. */
  lemma RunwaysAreExclusive(c: Config, s: State, rw: Runway, i: nat, j: nat)
    requires c.Valid() && Reachable(c, s) && i < |s.workers| && j < |s.workers|
    requires Occupies(s.workers[i], rw) && Occupies(s.workers[j], rw)
    ensures i == j && RunwayHolder(s, rw) == Held(i)
  {
    ReachableInv(c, s);
  }

  lemma AtMostTwoAirborne(c: Config, s: State, i: nat, j: nat, k: nat)
    requires c.Valid() && Reachable(c, s) && i < j < k < |s.workers|
    ensures !(OnRunway(s.workers[i]) && OnRunway(s.workers[j]) && OnRunway(s.workers[k]))
  {
    ReachableInv(c, s);
  }

  /** A controller that finds runway one taken and runway two free has runway two after its two tries. */
  lemma TakesSecond(c: Config, s: State, i: nat)
    requires i < |s.workers| && s.workers[i].TryOne? && !s.runway1.Free? && s.runway2.Free?
    ensures Enabled(s, Work(i)) && Enabled(Step(c, s, Work(i)), Work(i))
    ensures var t := Step(c, Step(c, s, Work(i)), Work(i));
            t == s.(runway2 := Held(i), workers := s.workers[i := WaitState(Two)])
  {
  }

  ghost predicate TwoOnRunways(s: State) {
    exists i, j :: 0 <= i < j < |s.workers| && OnRunway(s.workers[i]) && OnRunway(s.workers[j])
  }

  lemma TwoTake(c: Config) returns (s: State)
    requires c.Valid() && c.threads >= 2
    ensures Reachable(c, s) && s.planes == c.batch && s.total == 0 && s.stateLock.Free? && TwoOnRunways(s)
  {
    var s0 := Init(c);
    Stay(c, s0);
    Then(c, s0, s0, Handle);
    var s1 := Step(c, s0, Handle);
    Commits(c, s1, 0);
    var s2 := s1.(workers := s1.workers[0 := TryOne]);
    Transitive(c, s0, s1, s2);
    Commits(c, s2, 1);
    var s3 := s2.(workers := s2.workers[1 := TryOne]);
    Transitive(c, s0, s2, s3);
    Then(c, s0, s3, Work(0));
    var s4 := Step(c, s3, Work(0));
    TakesSecond(c, s4, 1);
    Then(c, s0, s4, Work(1));
    Then(c, s0, Step(c, s4, Work(1)), Work(1));
    s := Step(c, Step(c, s4, Work(1)), Work(1));
    assert OnRunway(s.workers[0]) && OnRunway(s.workers[1]);
  }

  lemma RunwayNeedsBatch(c: Config, s: State)
    requires c.Valid() && ReachedOn(c, 0, s)
    ensures !TwoOnRunways(s)
  {
    var run :| Leads(c, Init(c), run, s) && Deliveries(run) <= 0;
    NobodyStarted(Init(c).workers);
    NobodyFlies(c, Init(c), run, s);
  }

  predicate Grounded(pc: Pc) { pc.LoopTest? || pc.QuickCheck? || Leaving(pc) }

  lemma {:induction false} NobodyFlies(c: Config, s: State, run: seq<Action>, t: State)
    requires c.Valid() && Leads(c, s, run, t) && Deliveries(run) == 0 && s.planes == 0
    requires forall i :: 0 <= i < |s.workers| ==> Grounded(s.workers[i])
    ensures forall i :: 0 <= i < |t.workers| ==> Grounded(t.workers[i])
    decreases |run|
  {
    if run != [] {
      NobodyFlies(c, Step(c, s, run[0]), run[1..], t);
    }
  }

  /** With `k` batches, two controllers can be on runways at once exactly when there are two, and a batch. */
  lemma TwoOnRunwaysIff(c: Config, k: nat)
    requires c.Valid()
    ensures (exists s :: ReachedOn(c, k, s) && TwoOnRunways(s)) <==> c.threads >= 2 && k >= 1
  {
    if s :| ReachedOn(c, k, s) && TwoOnRunways(s) {
      if k == 0 {
        RunwayNeedsBatch(c, s);
      }
      ReachableInv(c, s);
    }
    if c.threads >= 2 && k >= 1 {
      var s := TwoTake(c);
      var run :| Leads(c, Init(c), run, s);
      AllBalances(c, run, s);
      DivideUnique(c.batch, 1, 0, c.batch);
      DivideUnique(c.batch, Deliveries(run), 0, c.batch);
      assert ReachedOn(c, k, s);
    }
  }

  // ---------- nobody is stuck ----------

  /** Every unfinished controller can step, or waits for `state_lock` whose holder can step. */
  lemma NoDeadlock(c: Config, s: State, i: nat)
    requires c.Valid() && Reachable(c, s) && i < |s.workers| && !s.workers[i].Done?
    ensures Enabled(s, Work(i)) || (s.workers[i].WaitState? && s.stateLock.Held? && Enabled(s, Work(s.stateLock.id)))
  {
    ReachableInv(c, s);
    if s.stateLock.Held? {
      assert HoldsState(s.workers[s.stateLock.id]);
    }
  }

  // ---------- a schedule that finishes ----------

  /** Everybody has left, has told radio so, and holds nothing. */
  ghost predicate Finished(c: Config, s: State) {
    (forall i :: 0 <= i < |s.workers| ==> s.workers[i].Done?) && LocksFree(s) && s.terms == c.threads
  }

  function FirstUndone(ws: seq<Pc>): (i: nat)
    ensures i <= |ws|
    ensures forall j :: 0 <= j < i ==> ws[j].Done?
    ensures i < |ws| ==> !ws[i].Done?
  {
    if ws == [] || !ws[0].Done? then 0 else 1 + FirstUndone(ws[1..])
  }

  /** First let the locks drain, then fly what is there, then take the next batch. */
  function Helpful(c: Config, s: State): Action {
    if s.stateLock.Held? then Work(s.stateLock.id)
    else if s.runway1.Held? then Work(s.runway1.id)
    else if s.runway2.Held? then Work(s.runway2.id)
    else if s.total >= c.limit then Work(FirstUndone(s.workers))
    else if s.planes > 0 then Work(0)
    else Handle
  }

  /** How far a controller is from its next takeoff (planes available) or from its exit (none). */
  function Rank(pc: Pc, planes: bool): nat {
    match pc
    case Done => 0
    case SendTerm => 1
    case ExitTest => 2
    case LoopTest => if planes then 6 else 3
    case QuickCheck => 5
    case TryOne => 4
    case TryTwo => 3
    case WaitState(_) => 2
    case DecPlanes(_) => 1
    case Airborne(_) => 7
    case UnlockState(_) => 8
    case ResetTakeoffs(_) => 9
    case SignalGround(_) => 10
    case SignalRadio(_) => 11
    case BatchTest(_) => 12
    case IncTotal(_) => 13
    case IncTakeoffs(_) => 14
  }

  function RankSum(ws: seq<Pc>, planes: bool): nat {
    if ws == [] then 0 else Rank(ws[0], planes) + RankSum(ws[1..], planes)
  }

  lemma {:induction false} RankSumUpdate(ws: seq<Pc>, planes: bool, i: nat, pc: Pc)
    requires i < |ws|
    ensures RankSum(ws[i := pc], planes) == RankSum(ws, planes) - Rank(ws[i], planes) + Rank(pc, planes)
  {
    if i == 0 {
      assert ws[i := pc][1..] == ws[1..];
    } else {
      assert ws[i := pc][1..] == ws[1..][i - 1 := pc];
      RankSumUpdate(ws[1..], planes, i - 1, pc);
    }
  }

  /** Takeoffs that can still be started, overshoot included. */
  function ToStart(c: Config, s: State): int { c.limit + c.threads - s.total - InFlight(s) }

  function Missing(s: State): nat { if s.planes <= 0 then 1 - s.planes else 0 }

  ghost predicate Closer(c: Config, t: State, s: State) {
    || ToStart(c, t) < ToStart(c, s)
    || (ToStart(c, t) == ToStart(c, s) &&
        (Missing(t) < Missing(s) ||
         (Missing(t) == Missing(s) && RankSum(t.workers, t.planes > 0) < RankSum(s.workers, s.planes > 0))))
  }

  lemma MeasureBounded(c: Config, s: State)
    requires c.Valid() && Inv(c, s)
    ensures ToStart(c, s) >= 0
  {
    if InFlight(s) == 1 {
      CountersAreThere(s.workers, s.stateLock.id);
    }
  }

  lemma StartsMove(c: Config, s: State, i: nat)
    requires c.Valid() && Inv(c, s) && WorkerEnabled(s, i)
    ensures ToStart(c, Step(c, s, Work(i))) == ToStart(c, s) - if s.workers[i].DecPlanes? then 1 else 0
  {
    WorkKeepsLocks(c, s, i);
    CountMoves(c, s, i, s.workers[i]);
  }

  lemma WorkerCloser(c: Config, s: State, i: nat)
    requires c.Valid() && Inv(c, s) && WorkerEnabled(s, i)
    requires s.workers[i].DecPlanes? ||
             Rank(NextPc(c, s, s.workers[i]), s.planes > 0) < Rank(s.workers[i], s.planes > 0)
    ensures Closer(c, Step(c, s, Work(i)), s)
  {
    StartsMove(c, s, i);
    CountMoves(c, s, i, s.workers[i]);
    RankSumUpdate(s.workers, s.planes > 0, i, NextPc(c, s, s.workers[i]));
  }

  lemma OwnerRank(c: Config, s: State, pc: Pc)
    requires HoldsState(pc) || OnRunway(pc)
    ensures pc.DecPlanes? || Rank(NextPc(c, s, pc), s.planes > 0) < Rank(pc, s.planes > 0)
  {
  }

  lemma FreeRank(c: Config, s: State, pc: Pc)
    requires LocksFree(s) && !HoldsState(pc) && !OnRunway(pc) && !pc.Done?
    requires s.total >= c.limit || s.planes > 0
    ensures Rank(NextPc(c, s, pc), s.planes > 0) < Rank(pc, s.planes > 0)
  {
  }

  lemma HelpfulCloser(c: Config, s: State)
    requires c.Valid() && Inv(c, s) && !Finished(c, s)
    ensures Enabled(s, Helpful(c, s)) && Closer(c, Step(c, s, Helpful(c, s)), s)
  {
    var a := Helpful(c, s);
    if a.Work? {
      var i := a.i;
      if !LocksFree(s) {
        OwnerRank(c, s, s.workers[i]);
      } else {
        AllGone(s.workers);
        FreeRank(c, s, s.workers[i]);
      }
      WorkerCloser(c, s, i);
    }
  }

  lemma {:induction false} AllGone(ws: seq<Pc>)
    ensures (forall i :: 0 <= i < |ws| ==> ws[i].Done?) ==> Gone(ws) == |ws|
  {
    if ws != [] {
      AllGone(ws[1..]);
    }
  }

  lemma {:induction false} Finish(c: Config, s: State) returns (run: seq<Action>, t: State)
    requires c.Valid() && Inv(c, s)
    ensures Leads(c, s, run, t) && Finished(c, t)
    decreases ToStart(c, s), Missing(s), RankSum(s.workers, s.planes > 0)
  {
    MeasureBounded(c, s);
    if Finished(c, s) {
      run, t := [], s;
    } else {
      var a := Helpful(c, s);
      HelpfulCloser(c, s);
      StepKeepsInv(c, s, a);
      var u := Step(c, s, a);
      MeasureBounded(c, u);
      var rest;
      rest, t := Finish(c, u);
      run := [a] + rest;
      assert run[1..] == rest;
    }
  }

  /** As long as batches keep coming, the pool can finish from every state it can get into. */
  lemma CanFinish(c: Config, s: State)
    requires c.Valid() && Reachable(c, s)
    ensures exists t :: CanReach(c, s, t) && Finished(c, t)
  {
    ReachableInv(c, s);
    var run, t := Finish(c, s);
    assert CanReach(c, s, t);
  }

  // ---------- how many batches that takes ----------

  /** Each controller sees the limit reached, sends SIGTERM and leaves. */
  lemma {:induction false} AllLeave(c: Config, s: State, k: nat) returns (t: State)
    requires k <= c.threads && s.workers == Line(c.threads, 0, Done, LoopTest) && s.total >= c.limit
    ensures CanReach(c, s, t) && t == s.(terms := s.terms + k, workers := Line(c.threads, k, Done, LoopTest))
  {
    if k == 0 {
      Stay(c, s);
      t := s;
    } else {
      var u := AllLeave(c, s, k - 1);
      Then(c, s, u, Work(k - 1));
      var u1 := Step(c, u, Work(k - 1));
      Then(c, s, u1, Work(k - 1));
      var u2 := Step(c, u1, Work(k - 1));
      Then(c, s, u2, Work(k - 1));
      t := Step(c, u2, Work(k - 1));
      assert t.workers == Line(c.threads, k, Done, LoopTest);
    }
  }

  lemma FinishedNeeds(c: Config, k: nat, s: State)
    requires c.Valid() && ReachedOn(c, k, s) && Finished(c, s)
    ensures k >= 1 && c.batch * k + c.threads - 1 >= c.limit
  {
    ReachableInv(c, s);
    assert Leaving(s.workers[0]);
    TotalNeeds(c, k, s);
    if k == 0 {
      NothingCame(c, s);
    }
  }

  /**
   With `k` batches, the pool can finish exactly when they reach the limit, but for one takeoff a controller: the
   limit can be made up with planes that do not exist.
   */
  lemma FinishesIff(c: Config, k: nat)
    requires c.Valid()
    ensures (exists s :: ReachedOn(c, k, s) && Finished(c, s)) <==> k >= 1 && c.batch * k + c.threads - 1 >= c.limit
  {
    if s :| ReachedOn(c, k, s) && Finished(c, s) {
      FinishedNeeds(c, k, s);
    }
    if k >= 1 && c.batch * k + c.threads - 1 >= c.limit {
      var s := RushOn(c, k);
      assert s.workers == Line(c.threads, 0, Done, LoopTest);
      var t := AllLeave(c, s, c.threads);
      Transitive(c, Init(c), s, t);
      TookBatches(c, t, k);
      ReachableInv(c, t);
      AllGone(t.workers);
    }
  }
}
