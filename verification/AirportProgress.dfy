/** Liveness of the airport ring: nobody is stuck, and which states can still finish. */
module AirportProgress {
  import opened AirportRing
  import opened AirportInvariants
  import opened AirportSafety

  /** Every unfinished controller can step, or waits for `state_lock` whose holder can step. */
  lemma NoDeadlock(c: Config, s: State, i: nat)
    requires c.Valid() && Reachable(c, s) && i < |s.workers| && !s.workers[i].Done?
    ensures Enabled(s, Work(i)) ||
            ((s.workers[i].WaitState? || s.workers[i].WaitExit?) &&
             match s.stateLock
             case Nobody => false
             case Controller(j) => Enabled(s, Work(j))
             case MainThread => Enabled(s, Handle))
  {
    ReachableInv(c, s);
    if s.stateLock.Controller? {
      assert Holds(s.workers[s.stateLock.id], StateLock);
    }
  }

  // ---------- a schedule that finishes ----------

  /** The pool is done. */
  ghost predicate Finished(s: State) {
    && (forall i :: 0 <= i < |s.workers| ==> s.workers[i].Done?)
    && s.stateLock.Nobody? && s.runway1.Nobody? && s.runway2.Nobody? && s.handler.Idle?
  }

  /** The pool is done, and radio and ground control have stopped. */
  ghost predicate Stopped(s: State) {
    Finished(s) && !s.radio.alive && !s.ground.alive
  }

  /** No takeoff is still being announced. */
  predicate Drained(s: State) { !s.radio.usr1 && !s.radio.inUsr1 && !s.ground.usr1 }

  function FirstUndone(ws: seq<Pc>): (i: nat)
    ensures i <= |ws|
    ensures forall j :: 0 <= j < i ==> ws[j].Done?
    ensures i < |ws| ==> !ws[i].Done?
  {
    if ws == [] || !ws[0].Done? then 0 else 1 + FirstUndone(ws[1..])
  }

  function NextOfPool(c: Config, s: State): Action {
    if s.stateLock.Controller? then Work(s.stateLock.id)
    else if !s.handler.Idle? then Handle
    else if s.runway1.Controller? then Work(s.runway1.id)
    else if s.runway2.Controller? then Work(s.runway2.id)
    else if s.total >= c.limit then Work(FirstUndone(s.workers))
    else if s.planes > 0 then Work(0)
    else if s.airUsr2 then Handle
    else if s.radio.inUsr2 then RelayUsr2
    else if s.radio.usr2 then CountUsr2
    else match s.ground.pc case Waiting => Timer case Counted => Admit case Sending => Announce
  }

  /**
   First hear of the takeoffs that are announced, nearest to ground control first; then let the locks drain, fly what
   is there, fetch the next batch; when the pool is done, stop radio and then ground control.
   */
  ghost function Helpful(c: Config, s: State): Action {
    if s.ground.alive && s.ground.usr1 then CountTakeoffs
    else if s.radio.alive && s.radio.inUsr1 then RelayUsr1
    else if s.radio.alive && s.radio.usr1 then CountUsr1
    else if !Finished(s) then NextOfPool(c, s)
    else if s.radio.alive then StopRadio
    else StopGround
  }

  /** How far a controller is from the next takeoff (planes available) or from its exit (none). */
  function Rank(pc: Pc, planes: bool): nat {
    match pc
    case Done => 0
    case UnlockExit => 1
    case SendTerm => 2
    case ExitTest => 3
    case WaitExit => 4
    case LoopTest => if planes then 7 else 5
    case QuickCheck => 6
    case TryOne => if planes then 5 else 11
    case TryTwo => if planes then 4 else 10
    case WaitState(_) => if planes then 3 else 9
    case Recheck(_) => if planes then 2 else 8
    case ReadPlanes(_) => 1
    case WritePlanes(_, _) => 0
    case UnlockEarly => if planes then 8 else 6
    case ReleaseEarly(_) => if planes then 9 else 7
    case Airborne(_) => 8
    case UnlockState(_) => 9
    case ResetTakeoffs(_) => 10
    case SignalRadio(_) => 11
    case BatchTest(_) => 12
    case WriteTotal(_, _) => 13
    case ReadTotal(_) => 14
    case WriteTakeoffs(_, _) => 15
    case ReadTakeoffs(_) => 16
  }

  function RankSum(ws: seq<Pc>, planes: bool): nat {
    if ws == [] then 0 else Rank(ws[0], planes) + RankSum(ws[1..], planes)
  }

  lemma {:induction false} RankSumUpdate(ws: seq<Pc>, planes: bool, i: nat, pc: Pc)
    requires i < |ws|
    ensures RankSum(ws[i := pc], planes) == RankSum(ws, planes) - Rank(ws[i], planes) + Rank(pc, planes)
  {
    if i == 0 {
      assert ws[i := pc][1..] == ws[1..];
    } else {
      assert ws[i := pc][1..] == ws[1..][i - 1 := pc];
      RankSumUpdate(ws[1..], planes, i - 1, pc);
    }
  }

  /** Planes that have not started their takeoff yet. */
  function ToFly(c: Config, s: State): int { c.supply + s.planes - s.history.planesDelivered }

  function ToRelease(c: Config, s: State): int {
    3 * (c.supply - s.ground.planes) + (match s.ground.pc case Waiting => 1 case Counted => 0 case Sending => 2)
  }

  function InTransit(s: State): nat {
    On(s.radio.usr2, 7) + On(s.radio.inUsr2, 6) + On(s.airUsr2, 5)
    + (match s.handler case WaitLock => 4 case ReadCount => 3 case WriteCount(_) => 2 case Unlock => 1 case Idle => 0)
  }

  /** Announcements of takeoffs, and processes to stop. */
  function ToHear(s: State): nat {
    On(s.radio.usr1, 3) + On(s.radio.inUsr1, 2) + On(s.ground.usr1, 1) + On(s.radio.alive, 1) + On(s.ground.alive, 1)
  }

  /** Lexicographically. */
  ghost predicate Closer(c: Config, t: State, s: State) {
    || ToFly(c, t) < ToFly(c, s)
    || (ToFly(c, t) == ToFly(c, s) &&
        (ToRelease(c, t) < ToRelease(c, s) ||
         (ToRelease(c, t) == ToRelease(c, s) &&
          (InTransit(t) < InTransit(s) ||
           (InTransit(t) == InTransit(s) && PoolCloser(t, s))))))
  }

  ghost predicate PoolCloser(t: State, s: State) {
    var r, r' := RankSum(s.workers, s.planes > 0), RankSum(t.workers, t.planes > 0);
    r' < r || (r' == r && ToHear(t) < ToHear(s))
  }

  /** Enough planes are left to reach the limit. */
  ghost predicate Good(c: Config, s: State) {
    c.Valid() && Inv(c, s) && c.limit <= c.supply - PlanesLost(s)
  }

  lemma MeasureBounded(c: Config, s: State)
    requires Good(c, s)
    ensures ToFly(c, s) >= 0 && ToRelease(c, s) >= 0
  {
  }

  lemma EffectQuiet(c: Config, s: State, i: nat, pc: Pc)
    ensures var t := Effect(c, s, i, pc);
            && (!pc.WritePlanes? ==> t.planes == s.planes)
            && t.history.planesDelivered == s.history.planesDelivered && PlanesLost(t) == PlanesLost(s)
            && t.ground == s.ground && t.handler == s.handler && t.airUsr2 == s.airUsr2
            && t.radio.usr2 == s.radio.usr2 && t.radio.inUsr2 == s.radio.inUsr2
  {
  }

  /** A controller that owns a lock moves closer with its next step, a takeoff or its exit. */
  lemma OwnerRank(c: Config, s: State, pc: Pc, lock: Lock)
    requires Holds(pc, lock) && !pc.WritePlanes? && (pc.ReadPlanes? ==> s.planes > 0)
    ensures Rank(NextPc(c, s, pc), s.planes > 0) < Rank(pc, s.planes > 0)
  {
  }

  lemma WorkerCloser(c: Config, s: State, i: nat)
    requires Good(c, s) && WorkerEnabled(s, i)
    requires s.workers[i].WritePlanes? ||
             Rank(NextPc(c, s, s.workers[i]), s.planes > 0) < Rank(s.workers[i], s.planes > 0)
    ensures var t := WorkerStep(c, s, i); Closer(c, t, s) && PlanesLost(t) == PlanesLost(s)
  {
    var pc := s.workers[i];
    var t := WorkerStep(c, s, i);
    EffectQuiet(c, s, i, pc);
    if pc.WritePlanes? {
      assert Holds(pc, StateLock);
      assert Critical(s) == pc;
    } else {
      RankSumUpdate(s.workers, s.planes > 0, i, NextPc(c, s, pc));
    }
  }

  lemma HolderCloser(c: Config, s: State, lock: Lock)
    requires Good(c, s) && HolderOf(s, lock).Controller?
    requires lock.RunwayLock? ==> s.stateLock.Nobody?
    ensures var a := Work(HolderOf(s, lock).id);
            Enabled(s, a) && Closer(c, Step(c, s, a), s) && PlanesLost(Step(c, s, a)) == PlanesLost(s)
  {
    var i := HolderOf(s, lock).id;
    assert Exact(s.workers, lock, HolderOf(s, lock));
    var pc := s.workers[i];
    if Holds(pc, StateLock) {
      assert Critical(s) == pc;
    }
    if !pc.WritePlanes? {
      OwnerRank(c, s, pc, lock);
    }
    WorkerCloser(c, s, i);
  }

  lemma FreeRank(c: Config, s: State, i: nat)
    requires Good(c, s) && i < |s.workers| && !s.workers[i].Done?
    requires s.stateLock.Nobody? && s.runway1.Nobody? && s.runway2.Nobody?
    requires s.total >= c.limit || s.planes > 0
    ensures WorkerEnabled(s, i)
    ensures Rank(NextPc(c, s, s.workers[i]), s.planes > 0) < Rank(s.workers[i], s.planes > 0)
  {
    var pc := s.workers[i];
    assert !Holds(pc, StateLock) && !Holds(pc, RunwayLock(One)) && !Holds(pc, RunwayLock(Two));
  }

  lemma HandlerCloser(c: Config, s: State)
    requires Good(c, s) && HandlerEnabled(s)
    ensures var t := HandlerStep(c, s); Closer(c, t, s) && PlanesLost(t) == PlanesLost(s)
  {
  }

  lemma FetchCloser(c: Config, s: State)
    requires Good(c, s) && s.total < c.limit && s.planes == 0 && s.handler.Idle? && s.stateLock.Nobody? && !s.airUsr2
    ensures var a := NextOfPool(c, s);
            s.runway1.Nobody? && s.runway2.Nobody? ==>
            Enabled(s, a) && Closer(c, Step(c, s, a), s) && PlanesLost(Step(c, s, a)) == PlanesLost(s)
  {
  }

  lemma PoolMovesCloser(c: Config, s: State)
    requires Good(c, s) && !Finished(s)
    ensures var a := NextOfPool(c, s);
            Enabled(s, a) && Closer(c, Step(c, s, a), s) && PlanesLost(Step(c, s, a)) == PlanesLost(s)
  {
    if s.stateLock.Controller? {
      HolderCloser(c, s, StateLock);
    } else if !s.handler.Idle? {
      HandlerCloser(c, s);
    } else if s.runway1.Controller? {
      HolderCloser(c, s, RunwayLock(One));
    } else if s.runway2.Controller? {
      HolderCloser(c, s, RunwayLock(Two));
    } else if s.total >= c.limit {
      var i := FirstUndone(s.workers);
      FreeRank(c, s, i);
      WorkerCloser(c, s, i);
    } else if s.planes > 0 {
      FreeRank(c, s, 0);
      WorkerCloser(c, s, 0);
    } else if s.airUsr2 {
      HandlerCloser(c, s);
    } else {
      FetchCloser(c, s);
    }
  }

  lemma HearingCloser(c: Config, s: State, a: Action)
    requires Enabled(s, a) && (a.CountTakeoffs? || a.RelayUsr1? || a.CountUsr1? || a.StopRadio? || a.StopGround?)
    ensures Closer(c, Step(c, s, a), s) && PlanesLost(Step(c, s, a)) == PlanesLost(s)
  {
  }

  /** The schedule never waits, loses no plane, and gets closer to the end with each step. */
  lemma HelpfulCloser(c: Config, s: State)
    requires Good(c, s) && !Stopped(s)
    ensures var a := Helpful(c, s);
            Enabled(s, a) && Closer(c, Step(c, s, a), s) && PlanesLost(Step(c, s, a)) == PlanesLost(s)
  {
    var a := Helpful(c, s);
    if a.CountTakeoffs? || a.RelayUsr1? || a.CountUsr1? {
      HearingCloser(c, s, a);
    } else if !Finished(s) {
      PoolMovesCloser(c, s);
    } else {
      assert HasSentTerm(s.workers[0]);
      HearingCloser(c, s, a);
    }
  }

  /** Takeoffs that are announced from here on will be heard of. */
  ghost predicate Hearing(s: State) { s.radio.alive || (Finished(s) && Drained(s)) }

  lemma StaysFinished(c: Config, s: State, a: Action)
    requires Enabled(s, a) && Finished(s)
    requires a.CountTakeoffs? || a.RelayUsr1? || a.CountUsr1? || a.StopRadio? || a.StopGround?
    ensures Finished(Step(c, s, a))
  {
  }

  /** The schedule hears of every takeoff. */
  lemma HelpfulHears(c: Config, s: State)
    requires Good(c, s) && !Stopped(s) && Enabled(s, Helpful(c, s)) && Hearing(s)
    ensures var t := Step(c, s, Helpful(c, s)); Hearing(t) && TakeoffsLost(t) == TakeoffsLost(s)
  {
    var a := Helpful(c, s);
    var t := Step(c, s, a);
    TakeoffLossIff(c, s, a);
    LossesGrow(c, s, a);
    RadioStopsOnly(c, s, a);
    if a.StopRadio? {
      StaysFinished(c, s, a);
    } else if !s.radio.alive {
      StaysFinished(c, s, a);
    }
  }

  lemma LossesGrow(c: Config, s: State, a: Action)
    requires Enabled(s, a)
    ensures TakeoffsLost(Step(c, s, a)) >= TakeoffsLost(s)
  {
    match a
    case Work(i) => if !s.workers[i].SignalRadio? && !s.workers[i].SendTerm? { FlowFrame(c, s, i, s.workers[i]); }
    case _ =>
  }

  lemma RadioStopsOnly(c: Config, s: State, a: Action)
    requires Enabled(s, a)
    ensures Step(c, s, a).radio.alive <==> s.radio.alive && !a.StopRadio?
  {
    match a
    case Work(i) => WhoIsStopped(c, s, i, s.workers[i]);
    case _ =>
  }

  lemma StoppedHeard(c: Config, t: State)
    requires Good(c, t) && Stopped(t) && Drained(t)
    ensures t.ground.takeoffs + TakeoffsLost(t) + t.takeoffs == t.total && 0 <= t.takeoffs < c.batch
  {
  }

  /**
   The schedule, as a run.  It ends with all controllers, radio and ground control stopped; if radio was alive,
   every batch of takeoffs not lost before is known to ground control at the end.
   */
  lemma {:induction false} Finish(c: Config, s: State) returns (run: seq<Action>, t: State)
    requires Good(c, s)
    ensures Leads(c, s, run, t) && Stopped(t) && PlanesLost(t) == PlanesLost(s)
    ensures Hearing(s) ==> t.ground.takeoffs + TakeoffsLost(s) + t.takeoffs == t.total && 0 <= t.takeoffs < c.batch
    decreases ToFly(c, s), ToRelease(c, s), InTransit(s), RankSum(s.workers, s.planes > 0), ToHear(s)
  {
    MeasureBounded(c, s);
    if Stopped(s) {
      run, t := [], s;
      if Hearing(s) {
        StoppedHeard(c, s);
      }
    } else {
      var a := Helpful(c, s);
      HelpfulCloser(c, s);
      StepKeepsInv(c, s, a);
      var u := Step(c, s, a);
      MeasureBounded(c, u);
      if Hearing(s) {
        HelpfulHears(c, s);
      }
      var rest;
      rest, t := Finish(c, u);
      run := [a] + rest;
      assert run[1..] == rest;
    }
  }

  /**
   Completability, exactly: from a reachable state some schedule lets every controller exit with every lock free, and
   radio and ground control stop, if and only if the planes not lost so far are enough to reach the takeoff limit.
   */
  lemma CanFinishIff(c: Config, s: State)
    requires c.Valid() && Reachable(c, s)
    ensures (exists t :: CanReach(c, s, t) && Stopped(t)) <==> c.limit <= c.supply - PlanesLost(s)
  {
    ReachableInv(c, s);
    if c.limit <= c.supply - PlanesLost(s) {
      var run, t := Finish(c, s);
      assert CanReach(c, s, t);
    } else {
      forall t | CanReach(c, s, t) ensures !Stopped(t) {
        LossMeansNobodyLeaves(c, s, t, 0);
      }
    }
  }

  /** With the limit equal to the supply, as the programs have it, that means that nothing was lost. */
  lemma CanFinishIffNothingLost(c: Config, s: State)
    requires c.Valid() && c.limit == c.supply && Reachable(c, s)
    ensures (exists t :: CanReach(c, s, t) && Stopped(t)) <==> PlanesLost(s) == 0
  {
    CanFinishIff(c, s);
  }

  /** As configured, some run of the whole ring stops with every plane flown and every count complete. */
  lemma WholeRun(c: Config)
    requires c.Valid() && c.limit == c.supply
    ensures exists t :: && Reachable(c, t) && Stopped(t) && t.planes == 0
                        && t.total == t.radio.planes == t.radio.takeoffs == c.supply
                        && t.ground.planes == t.ground.takeoffs == c.supply
  {
    InitInv(c);
    var run, t := Finish(c, Init(c));
    assert Reachable(c, t);
    ReachableInv(c, t);
    assert HasSentTerm(t.workers[0]);
    LeavingMeansLossless(c, t, 0);
    SupplyIsCounted(c, t);
  }

  lemma SupplyIsCounted(c: Config, t: State)
    requires c.Valid() && Reachable(c, t) && t.stateLock.Nobody? && t.total == c.supply
    requires t.ground.takeoffs + t.takeoffs == t.total
    ensures t.takeoffs == 0 && t.radio.takeoffs == t.ground.takeoffs
  {
    PoolCounters(c, t);
    AroundTheRing(c, t);
  }
}
