/** Safety of the airport ring over every run: causality, conservation, locks, leaving the loop. */
module AirportSafety {
  import opened AirportRing
  import opened AirportInvariants
  import opened Division

  /**
   Around the ring.  Each count is bounded by the one that caused it, and every hop is also charged
   with the signals still pending or being relayed, so nothing is counted before it happened.
   */
  lemma AroundTheRing(c: Config, s: State)
    requires c.Valid() && Reachable(c, s)
    ensures s.ground.takeoffs + On(s.ground.usr1, c.batch) + On(s.radio.inUsr1, c.batch) <= s.radio.takeoffs
    ensures s.radio.takeoffs + On(s.radio.usr1, c.batch) <= s.total
    ensures 0 <= s.planes && s.total <= s.planes + s.total
    ensures s.planes + s.total + On(s.airUsr2, c.batch) + On(s.radio.inUsr2, c.batch) <= s.radio.planes
    ensures s.radio.planes + On(s.radio.usr2, c.batch) + On(s.ground.pc.Sending?, c.batch) <= s.ground.planes
    ensures s.ground.planes <= c.supply
    ensures s.total <= c.supply
    ensures 0 <= s.ground.traffic && s.ground.takeoffs <= s.ground.planes
  {
    ReachableInv(c, s);
    Bounds(c, s);
  }

  /** Conservation: every plane ground control released is accounted for, lost ones included. */
  lemma PlanesAreConserved(c: Config, s: State)
    requires c.Valid() && Reachable(c, s)
    ensures s.ground.planes ==
            On(s.ground.pc.Sending?, c.batch) + On(s.radio.usr2, c.batch) + s.history.planesLostAtRadio
            + On(s.radio.inUsr2, c.batch) + On(s.airUsr2, c.batch) + s.history.planesLostAtAir
            + On(s.handler.WaitLock? || s.handler.ReadCount? || s.handler.WriteCount?, c.batch)
            + s.planes + Rolling(Critical(s)) + s.total
  {
    ReachableInv(c, s);
  }

  /** The traffic that the timer computes: all planes on their way, and all takeoffs not heard of yet. */
  lemma TrafficCounts(c: Config, s: State)
    requires c.Valid() && Reachable(c, s) && Enabled(s, Timer)
    ensures Step(c, s, Timer).ground.traffic ==
            On(s.radio.usr2, c.batch) + On(s.radio.inUsr2, c.batch) + On(s.airUsr2, c.batch)
            + On(s.handler.WaitLock? || s.handler.ReadCount? || s.handler.WriteCount?, c.batch)
            + PlanesLost(s) + s.planes + Rolling(Critical(s)) + (s.total - s.ground.takeoffs)
  {
    ReachableInv(c, s);
  }

  // ---------- the pool ----------

  /** With `state_lock` free the counters agree: no update is ever lost or half done. */
  lemma PoolCounters(c: Config, s: State)
    requires c.Valid() && Reachable(c, s)
    ensures s.planes >= 0
    ensures s.planes + s.total + Rolling(Critical(s)) == c.batch * s.history.handlerRuns
    ensures s.stateLock.Nobody? ==> s.planes + s.total == c.batch * s.history.handlerRuns
    ensures s.stateLock.Nobody? ==> s.takeoffs == s.total % c.batch
    ensures s.stateLock.Nobody? ==> s.history.batchSignals == s.total / c.batch
  {
    ReachableInv(c, s);
    TimesIsProduct(c.batch, s.history.handlerRuns);
    TimesIsProduct(c.batch, s.history.batchSignals);
    if s.stateLock.Nobody? {
      DivideUnique(c.batch, s.history.batchSignals, s.takeoffs, s.total);
    }
  }

  predicate OnRunway(pc: Pc) { Holds(pc, RunwayLock(One)) || Holds(pc, RunwayLock(Two)) }

  /** Mutual exclusion: one controller per lock, so at most two stand between acquire and release. */
  lemma MutualExclusion(c: Config, s: State, lock: Lock, i: nat, j: nat)
    requires c.Valid() && Reachable(c, s) && i < |s.workers| && j < |s.workers|
    requires Holds(s.workers[i], lock) && Holds(s.workers[j], lock)
    ensures i == j && HolderOf(s, lock) == Controller(i)
  {
    ReachableInv(c, s);
    assert Exact(s.workers, lock, HolderOf(s, lock));
  }

  lemma AtMostTwoAirborne(c: Config, s: State, i: nat, j: nat, k: nat)
    requires c.Valid() && Reachable(c, s) && i < j < k < |s.workers|
    ensures !(OnRunway(s.workers[i]) && OnRunway(s.workers[j]) && OnRunway(s.workers[k]))
  {
    ReachableInv(c, s);
  }

  lemma OutsideKeepsLocks(c: Config, s: State, a: Action, lock: Lock)
    requires Enabled(s, a) && !a.Work? && !a.Handle?
    ensures HolderOf(Step(c, s, a), lock) == HolderOf(s, lock)
  {
    if a.RelayUsr1? || a.RelayUsr2? || a.Announce? {
      RelayFrame(c, s, a);
    }
  }

  lemma WorkerReleases(c: Config, s: State, i: nat, lock: Lock)
    requires WorkerEnabled(s, i) && Exact(s.workers, lock, HolderOf(s, lock))
    requires HolderOf(s, lock) != Nobody && HolderOf(WorkerStep(c, s, i), lock) != HolderOf(s, lock)
    ensures HolderOf(WorkerStep(c, s, i), lock) == Nobody && HolderOf(s, lock) == Controller(i)
  {
    LockMoves(c, s, i, s.workers[i], lock);
  }

  lemma LocksAreExact(c: Config, s: State, lock: Lock)
    requires LockInv(c, s)
    ensures Exact(s.workers, lock, HolderOf(s, lock))
  {
  }

  lemma HandlerReleases(c: Config, s: State, lock: Lock)
    requires LockInv(c, s) && HandlerEnabled(s)
    requires HolderOf(s, lock) != Nobody && HolderOf(HandlerStep(c, s), lock) != HolderOf(s, lock)
    ensures HolderOf(HandlerStep(c, s), lock) == Nobody && HolderOf(s, lock) == MainThread
  {
    assert lock == StateLock && (s.handler.WaitLock? || s.handler.Unlock?);
  }

  /** Only the holder of a lock ever makes it free, or hands it to anybody. */
  lemma ReleasedByHolder(c: Config, s: State, a: Action, lock: Lock)
    requires c.Valid() && Reachable(c, s) && Enabled(s, a)
    requires HolderOf(s, lock) != Nobody && HolderOf(Step(c, s, a), lock) != HolderOf(s, lock)
    ensures HolderOf(Step(c, s, a), lock) == Nobody
    ensures HolderOf(s, lock) == if a.Work? then Controller(a.i) else MainThread
  {
    ReachableInv(c, s);
    LocksAreExact(c, s, lock);
    match a
    case Work(i) => WorkerReleases(c, s, i, lock);
    case Handle => HandlerReleases(c, s, lock);
    case _ => OutsideKeepsLocks(c, s, a, lock);
  }

  // ---------- leaving the loop ----------

  function PlanesLost(s: State): nat { s.history.planesLostAtRadio + s.history.planesLostAtAir }

  /**
   Completion implies losslessness: once a controller has left its loop, every plane has been
   delivered and has taken off, and no SIGUSR2 is pending or was lost anywhere.
   */
  lemma LeavingMeansLossless(c: Config, s: State, i: nat)
    requires c.Valid() && c.limit >= c.supply && Reachable(c, s)
    requires i < |s.workers| && Leaving(s.workers[i])
    ensures s.total == c.supply && s.planes == 0
    ensures s.radio.planes == s.ground.planes == c.supply
    ensures !s.radio.usr2 && !s.radio.inUsr2 && !s.airUsr2 && !s.ground.pc.Sending?
    ensures s.handler.Idle? || s.handler.Unlock?
    ensures PlanesLost(s) == 0
  {
    ReachableInv(c, s);
  }

  /** Whoever has left has told radio, and a radio that has stopped has told ground control. */
  lemma StopIsPassedOn(c: Config, s: State, i: nat)
    requires c.Valid() && Reachable(c, s) && i < |s.workers| && (s.workers[i].UnlockExit? || s.workers[i].Done?)
    ensures s.radio.term || (!s.radio.alive && (s.ground.term || !s.ground.alive))
  {
    ReachableInv(c, s);
  }

  /** The second look at the limit, under the lock, never finds anything else: every controller sends SIGTERM. */
  lemma ExitTestPasses(c: Config, s: State, i: nat)
    requires c.Valid() && Reachable(c, s) && i < |s.workers| && s.workers[i].ExitTest?
    ensures NextPc(c, s, s.workers[i]) == SendTerm
  {
    ReachableInv(c, s);
  }

  function TakeoffsLost(s: State): nat { s.history.takeoffsLostAtRadio + s.history.takeoffsLostAtGround }

  /** A SIGUSR1 is lost exactly when the one before it is still pending, or its target has stopped. */
  lemma TakeoffLossIff(c: Config, s: State, a: Action)
    requires c.Valid() && Enabled(s, a)
    ensures TakeoffsLost(Step(c, s, a)) > TakeoffsLost(s) <==>
            || (a.Work? && s.workers[a.i].SignalRadio? && (s.radio.usr1 || !s.radio.alive))
            || (a.RelayUsr1? && (s.ground.usr1 || !s.ground.alive))
  {
    match a
    case Work(i) => if !s.workers[i].SignalRadio? && !s.workers[i].SendTerm? { FlowFrame(c, s, i, s.workers[i]); }
    case _ =>
  }

  /** A SIGUSR2 is lost exactly when the one before it is still pending, or radio has stopped. */
  lemma PlaneLossIff(c: Config, s: State, a: Action)
    requires c.Valid() && Enabled(s, a)
    ensures PlanesLost(Step(c, s, a)) > PlanesLost(s) <==>
            (a.Announce? && (s.radio.usr2 || !s.radio.alive)) || (a.RelayUsr2? && s.airUsr2)
  {
    match a
    case Work(i) => if !s.workers[i].SignalRadio? && !s.workers[i].SendTerm? { FlowFrame(c, s, i, s.workers[i]); }
    case _ =>
  }

  lemma StepKeepsLosses(c: Config, s: State, a: Action)
    requires Enabled(s, a)
    ensures PlanesLost(Step(c, s, a)) >= PlanesLost(s)
  {
    match a
    case Work(i) => if !s.workers[i].SignalRadio? && !s.workers[i].SendTerm? { FlowFrame(c, s, i, s.workers[i]); }
    case _ =>
  }

  lemma {:induction false} RunKeepsLosses(c: Config, s: State, run: seq<Action>, t: State)
    requires Leads(c, s, run, t)
    ensures PlanesLost(t) >= PlanesLost(s)
    decreases |run|
  {
    if run != [] {
      StepKeepsLosses(c, s, run[0]);
      RunKeepsLosses(c, Step(c, s, run[0]), run[1..], t);
    }
  }

  lemma {:induction false} RunsCompose(c: Config, s: State, r1: seq<Action>, t: State, r2: seq<Action>, u: State)
    requires Leads(c, s, r1, t) && Leads(c, t, r2, u)
    ensures Leads(c, s, r1 + r2, u)
    decreases |r1|
  {
    if r1 == [] {
      assert r1 + r2 == r2;
    } else {
      RunsCompose(c, Step(c, s, r1[0]), r1[1..], t, r2, u);
      assert (r1 + r2)[1..] == r1[1..] + r2;
    }
  }

  lemma ReachOn(c: Config, s: State, t: State)
    requires Reachable(c, s) && CanReach(c, s, t)
    ensures Reachable(c, t)
  {
    var r1 :| Leads(c, Init(c), r1, s);
    var r2 :| Leads(c, s, r2, t);
    RunsCompose(c, Init(c), r1, s, r2, t);
  }

  /** Leaving takes as many planes as the limit: what was lost by then did not matter, and no more ever does. */
  lemma LeavingTakesPlanes(c: Config, s: State, i: nat)
    requires c.Valid() && Reachable(c, s) && i < |s.workers| && Leaving(s.workers[i])
    ensures c.limit <= s.total <= c.supply - PlanesLost(s)
  {
    ReachableInv(c, s);
  }

  /** Once merged signals have lost too many planes for the limit, no controller ever leaves its loop again. */
  lemma LossMeansNobodyLeaves(c: Config, s: State, t: State, i: nat)
    requires c.Valid() && Reachable(c, s) && c.limit > c.supply - PlanesLost(s)
    requires CanReach(c, s, t) && i < c.threads
    ensures |t.workers| == c.threads && !Leaving(t.workers[i])
  {
    var run :| Leads(c, s, run, t);
    RunKeepsLosses(c, s, run, t);
    ReachOn(c, s, t);
    ReachableInv(c, t);
    if Leaving(t.workers[i]) {
      LeavingTakesPlanes(c, t, i);
    }
  }

  /** What radio prints when SIGTERM stops it is the full number of planes; its loop guard never ends it first. */
  lemma RadioStopsComplete(c: Config, s: State)
    requires c.Valid() && c.limit >= c.supply && Reachable(c, s)
    ensures Enabled(s, StopRadio) ==> s.radio.planes == c.supply
    ensures s.radio.takeoffs <= c.supply
  {
    ReachableInv(c, s);
    Bounds(c, s);
  }

  lemma MoreThanOneBatch(n: int, b: nat)
    requires Multiple(n, b) && n > b
    ensures n >= 2 * b
  {
    assert Multiple(n - b, b);
  }

  lemma SupplyIsBatches(c: Config)
    requires c.Valid()
    ensures Multiple(c.supply, c.batch)
  {
    InitInv(c);
    assert Batched(c, Init(c));
  }

  lemma LossAtRadio(c: Config, s: State)
    requires c.Valid() && Inv(c, s) && s.ground.pc.Sending? && (s.radio.usr2 || !s.radio.alive)
    ensures s.ground.planes > c.batch
  {
    Bounds(c, s);
    if !s.radio.alive {
      assert s.total >= c.limit;
    }
  }

  /** Only the two sends of SIGUSR2 can lose planes. */
  lemma WhereLossHappens(c: Config, s: State, a: Action)
    requires Enabled(s, a) && PlanesLost(Step(c, s, a)) > PlanesLost(s)
    ensures a.Announce? || a.RelayUsr2?
    ensures a.Announce? ==> s.ground.pc.Sending? && (s.radio.usr2 || !s.radio.alive)
    ensures a.RelayUsr2? ==> s.radio.inUsr2 && s.airUsr2
  {
    match a
    case Work(i) => if !s.workers[i].SignalRadio? && !s.workers[i].SendTerm? { FlowFrame(c, s, i, s.workers[i]); }
    case _ =>
  }

  /** A signal merges only when two batches are on their way. */
  lemma LossNeedsTwoBatches(c: Config, s: State, a: Action)
    requires c.Valid() && Inv(c, s) && Enabled(s, a) && PlanesLost(Step(c, s, a)) > PlanesLost(s)
    ensures c.supply >= 2 * c.batch
  {
    WhereLossHappens(c, s, a);
    SupplyIsBatches(c);
    if a.Announce? {
      LossAtRadio(c, s);
      MoreThanOneBatch(c.supply, c.batch);
    } else {
      assert PlaneFlow(c, s) && CountInv(c, s, Critical(s));
    }
  }

  lemma {:induction false} RunLossNeedsTwoBatches(c: Config, s: State, run: seq<Action>, t: State)
    requires c.Valid() && Inv(c, s) && Leads(c, s, run, t) && PlanesLost(t) > PlanesLost(s)
    ensures c.supply >= 2 * c.batch
    decreases |run|
  {
    if run != [] {
      var u := Step(c, s, run[0]);
      StepKeepsInv(c, s, run[0]);
      if PlanesLost(u) > PlanesLost(s) {
        LossNeedsTwoBatches(c, s, run[0]);
      } else {
        RunLossNeedsTwoBatches(c, u, run[1..], t);
      }
    }
  }

  /** Losses do happen: two timer periods without radio running are enough. */
  lemma TwoBatchesMerge(c: Config)
    requires c.Valid() && c.supply >= 2 * c.batch
    ensures exists s :: Reachable(c, s) && PlanesLost(s) > 0
  {
    var run := [Timer, Admit, Announce, Timer, Admit, Announce];
    var s0 := Init(c);
    var s3 := Dispatch(c, AdmitBatch(c, Tick(s0)));
    var s6 := Dispatch(c, AdmitBatch(c, Tick(s3)));
    assert Leads(c, s6, [], s6);
    assert Leads(c, AdmitBatch(c, Tick(s3)), [Announce], s6);
    assert Leads(c, Tick(s3), [Admit, Announce], s6);
    assert Leads(c, s3, [Timer, Admit, Announce], s6);
    assert Leads(c, AdmitBatch(c, Tick(s0)), [Announce, Timer, Admit, Announce], s6);
    assert Leads(c, Tick(s0), [Admit, Announce, Timer, Admit, Announce], s6);
    assert Leads(c, s0, run, s6);
    assert CanReach(c, s0, s6);
    assert PlanesLost(s6) == c.batch;
  }

  /** Some run loses planes exactly when there are two batches to lose one of. */
  lemma LossIsPossible(c: Config)
    requires c.Valid()
    ensures (exists s :: Reachable(c, s) && PlanesLost(s) > 0) <==> c.supply >= 2 * c.batch
  {
    if s :| Reachable(c, s) && PlanesLost(s) > 0 {
      var run :| Leads(c, Init(c), run, s);
      InitInv(c);
      RunLossNeedsTwoBatches(c, Init(c), run, s);
    }
    if c.supply >= 2 * c.batch {
      TwoBatchesMerge(c);
    }
  }
}
