/**
 The inductive invariant of the airport ring, and that every step of every process keeps it.  It says who holds
 which lock, from where the threads stand; that a load made under `state_lock` is still current when its store
 happens; how `planes`, `takeoffs` and `total_takeoffs` agree at each point of the critical section; where every
 plane and every takeoff signal is, the lost ones included; and that nobody leaves or is stopped before the
 takeoff limit is reached.  The proof goes process by process, each step changing only a few parts of the state.
 */
module AirportInvariants {
  import opened AirportRing
  import opened Division

  /** `b * n`, written so that the solver only ever adds. */
  function Times(b: nat, n: nat): nat
  {
    if n == 0 then 0 else b + Times(b, n - 1)
  }

  lemma {:induction false} TimesIsProduct(b: nat, n: nat)
    ensures Times(b, n) == b * n
  {
    if n > 0 {
      TimesIsProduct(b, n - 1);
      assert b * n == b * (n - 1) + b;
    }
  }

  // ---------- locks ----------

  datatype Lock = StateLock | RunwayLock(rw: Runway)

  predicate Holds(pc: Pc, lock: Lock) {
    match pc
    case LoopTest | QuickCheck | TryOne | TryTwo | WaitExit | Done => false
    case ExitTest | SendTerm | UnlockExit | UnlockEarly => lock == StateLock
    case WaitState(rw) => lock == RunwayLock(rw)
    case Airborne(rw) => lock == RunwayLock(rw)
    case _ => lock == StateLock || lock == RunwayLock(pc.rw)
  }

  function HolderOf(s: State, lock: Lock): Holder {
    match lock
    case StateLock => s.stateLock
    case RunwayLock(rw) => RunwayHolder(s, rw)
  }

  /** `h` is held by a controller exactly when that controller stands where it owns the lock. */
  ghost predicate Exact(workers: seq<Pc>, lock: Lock, h: Holder) {
    && (forall i :: 0 <= i < |workers| ==> (Holds(workers[i], lock) <==> h == Controller(i)))
    && (h.Controller? ==> h.id < |workers|)
  }

  ghost predicate LockInv(c: Config, s: State) {
    && |s.workers| == c.threads
    && Exact(s.workers, StateLock, s.stateLock)
    && Exact(s.workers, RunwayLock(One), s.runway1) && !s.runway1.MainThread?
    && Exact(s.workers, RunwayLock(Two), s.runway2) && !s.runway2.MainThread?
    && ((s.handler.ReadCount? || s.handler.WriteCount? || s.handler.Unlock?) <==> s.stateLock.MainThread?)
  }

  /** The position of the controller inside the critical section, `LoopTest` when there is none. */
  function Critical(s: State): Pc {
    if s.stateLock.Controller? && s.stateLock.id < |s.workers| then s.workers[s.stateLock.id] else LoopTest
  }

  // ---------- counters of air control ----------

  /** A load under `state_lock` is still current when the matching store happens. */
  ghost predicate LoadsCurrent(s: State, pc: Pc) {
    && (s.handler.WriteCount? ==> s.handler.seen == s.planes)
    && match pc
       case ReadPlanes(_) => s.planes >= 1
       case WritePlanes(_, seen) => seen == s.planes >= 1
       case WriteTakeoffs(_, seen) => seen == s.takeoffs
       case WriteTotal(_, seen) => seen == s.total
       case _ => true
  }

  /** 1 while a plane has left `planes` but is not in `total_takeoffs` yet. */
  function Rolling(pc: Pc): int {
    match pc
    case ReadTakeoffs(_) | WriteTakeoffs(_, _) | ReadTotal(_) | WriteTotal(_, _) => 1
    case _ => 0
  }

  ghost predicate CountInv(c: Config, s: State, pc: Pc) {
    && s.planes >= 0 && s.total >= 0
    && s.planes + s.total + Rolling(pc) == s.history.planesDelivered
    && LoadsCurrent(s, pc)
  }

  ghost predicate BatchInv(c: Config, s: State, pc: Pc) {
    var signalled := s.history.takeoffsSignalled;
    match pc
    case ReadTotal(_) | WriteTotal(_, _) => s.total + 1 == signalled + s.takeoffs && 1 <= s.takeoffs <= c.batch
    case BatchTest(_) => s.total == signalled + s.takeoffs && 1 <= s.takeoffs <= c.batch
    case SignalRadio(_) => s.total == signalled + s.takeoffs && s.takeoffs == c.batch
    case ResetTakeoffs(_) => s.total == signalled
    case _ => s.total == signalled + s.takeoffs && 0 <= s.takeoffs < c.batch
  }

  // ---------- the signal hops ----------

  lemma {:induction false} TimesIsMultiple(b: nat, n: nat)
    requires b >= 1
    ensures Multiple(Times(b, n), b)
  {
    if n > 0 {
      TimesIsMultiple(b, n - 1);
    }
  }

  function On(b: bool, n: int): int { if b then n else 0 }

  /** Every plane that ground control released is at one known place of the ring, or was lost. */
  ghost predicate PlaneFlow(c: Config, s: State) {
    && s.radio.planes + On(s.radio.usr2, c.batch) + On(s.ground.pc.Sending?, c.batch)
       + s.history.planesLostAtRadio == s.ground.planes
    && s.history.planesDelivered + On(s.airUsr2, c.batch) + On(s.radio.inUsr2, c.batch)
       + On(s.handler.WaitLock? || s.handler.ReadCount? || s.handler.WriteCount?, c.batch)
       + s.history.planesLostAtAir == s.radio.planes
    && 0 <= s.ground.planes <= c.supply
  }

  /** Ground control releases whole batches; the totals are whole batches too. */
  ghost predicate Batched(c: Config, s: State) {
    && Multiple(c.supply - s.ground.planes, c.batch)
    && s.history.planesDelivered == Times(c.batch, s.history.handlerRuns)
    && s.history.takeoffsSignalled == Times(c.batch, s.history.batchSignals)
  }

  /** Likewise for takeoffs on their way back. */
  ghost predicate TakeoffFlow(c: Config, s: State) {
    && s.radio.takeoffs + On(s.radio.usr1, c.batch) + s.history.takeoffsLostAtRadio
       == s.history.takeoffsSignalled
    && s.ground.takeoffs + On(s.ground.usr1, c.batch) + On(s.radio.inUsr1, c.batch)
       + s.history.takeoffsLostAtGround == s.radio.takeoffs
    && s.ground.traffic >= 0
  }

  // ---------- leaving ----------

  predicate Leaving(pc: Pc) {
    pc.WaitExit? || pc.ExitTest? || pc.SendTerm? || pc.UnlockExit? || pc.Done?
  }

  predicate HasSentTerm(pc: Pc) { pc.UnlockExit? || pc.Done? }

  predicate RadioTold(s: State) { s.radio.term || !s.radio.alive }

  predicate GroundTold(s: State) { s.ground.term || !s.ground.alive }

  /**
   Nobody leaves, and nobody is told to stop, before the takeoff limit is reached; and whoever has left has told
   radio, and radio has told ground control when it stopped.
   */
  ghost predicate LeaveInv(c: Config, s: State) {
    && (forall i :: 0 <= i < |s.workers| && Leaving(s.workers[i]) ==> s.total >= c.limit)
    && (forall i :: 0 <= i < |s.workers| && HasSentTerm(s.workers[i]) ==> RadioTold(s))
    && (RadioTold(s) ==> s.total >= c.limit)
    && (GroundTold(s) <==> !s.radio.alive)
  }

  ghost predicate Inv(c: Config, s: State) {
    && LockInv(c, s)
    && CountInv(c, s, Critical(s)) && BatchInv(c, s, Critical(s))
    && PlaneFlow(c, s) && TakeoffFlow(c, s) && Batched(c, s) && LeaveInv(c, s)
  }

  // ---------- preservation ----------

  lemma InitInv(c: Config)
    requires c.Valid()
    ensures Inv(c, Init(c))
  {
    TimesIsProduct(c.batch, c.supply / c.batch);
    TimesIsMultiple(c.batch, c.supply / c.batch);
    assert c.supply == Times(c.batch, c.supply / c.batch);
  }

  lemma Acquire(ws: seq<Pc>, lock: Lock, i: nat, pc: Pc)
    requires i < |ws| && Exact(ws, lock, Nobody) && Holds(pc, lock)
    ensures Exact(ws[i := pc], lock, Controller(i))
  {
  }

  lemma Release(ws: seq<Pc>, lock: Lock, i: nat, pc: Pc)
    requires i < |ws| && Exact(ws, lock, Controller(i)) && !Holds(pc, lock)
    ensures Exact(ws[i := pc], lock, Nobody)
  {
  }

  lemma Keep(ws: seq<Pc>, lock: Lock, h: Holder, i: nat, pc: Pc)
    requires i < |ws| && Exact(ws, lock, h) && (Holds(ws[i], lock) <==> Holds(pc, lock))
    ensures Exact(ws[i := pc], lock, h)
  {
  }

  lemma LockMoves(c: Config, s: State, i: nat, pc: Pc, lock: Lock)
    requires (pc.WaitState? || pc.WaitExit?) ==> s.stateLock.Nobody?
    requires Holds(pc, lock) ==> HolderOf(s, lock) == Controller(i)
    ensures var before, after := Holds(pc, lock), Holds(NextPc(c, s, pc), lock);
            var h := HolderOf(Effect(c, s, i, pc), lock);
            && (before == after ==> h == HolderOf(s, lock))
            && (!before && after ==> HolderOf(s, lock) == Nobody && h == Controller(i))
            && (before && !after ==> h == Nobody)
  {
  }

  lemma WorkerKeepsLock(c: Config, s: State, i: nat, lock: Lock)
    requires WorkerEnabled(s, i) && Exact(s.workers, lock, HolderOf(s, lock))
    ensures var t := WorkerStep(c, s, i); Exact(t.workers, lock, HolderOf(t, lock))
  {
    var pc := s.workers[i];
    LockMoves(c, s, i, pc, lock);
    var next := NextPc(c, s, pc);
    if Holds(pc, lock) == Holds(next, lock) {
      Keep(s.workers, lock, HolderOf(s, lock), i, next);
    } else if Holds(next, lock) {
      Acquire(s.workers, lock, i, next);
    } else {
      Release(s.workers, lock, i, next);
    }
  }

  lemma MainThreadApart(c: Config, s: State, i: nat, pc: Pc)
    requires (pc.WaitState? || pc.WaitExit?) ==> s.stateLock.Nobody?
    requires Holds(pc, StateLock) ==> s.stateLock == Controller(i)
    requires !s.runway1.MainThread? && !s.runway2.MainThread?
    ensures var t := Effect(c, s, i, pc);
            && t.handler == s.handler
            && (t.stateLock.MainThread? <==> s.stateLock.MainThread?)
            && !t.runway1.MainThread? && !t.runway2.MainThread?
  {
  }

  lemma WorkerKeepsLocks(c: Config, s: State, i: nat)
    requires LockInv(c, s) && WorkerEnabled(s, i)
    ensures LockInv(c, WorkerStep(c, s, i))
  {
    WorkerKeepsLock(c, s, i, StateLock);
    WorkerKeepsLock(c, s, i, RunwayLock(One));
    WorkerKeepsLock(c, s, i, RunwayLock(Two));
    MainThreadApart(c, s, i, s.workers[i]);
  }

  /** The owner of `state_lock` keeps the counter invariants, whatever it does next. */
  lemma OwnerKeepsCounts(c: Config, s: State, i: nat, pc: Pc)
    requires c.Valid() && Holds(pc, StateLock) && !s.handler.WriteCount? && CountInv(c, s, pc) && BatchInv(c, s, pc)
    ensures var t, next := Effect(c, s, i, pc), NextPc(c, s, pc);
            var inside := if Holds(next, StateLock) then next else LoopTest;
            CountInv(c, t, inside) && BatchInv(c, t, inside)
  {
  }

  /** Everybody else leaves the counters alone. */
  lemma OthersLeaveCounts(c: Config, s: State, i: nat, pc: Pc)
    requires !Holds(pc, StateLock)
    ensures var t := Effect(c, s, i, pc);
            && t.planes == s.planes && t.takeoffs == s.takeoffs && t.total == s.total
            && t.handler == s.handler && t.history == s.history
            && t.radio == s.radio && t.ground == s.ground && t.airUsr2 == s.airUsr2
  {
  }

  lemma CriticalMoves(c: Config, s: State, i: nat)
    requires LockInv(c, s) && WorkerEnabled(s, i)
    ensures var t, pc := WorkerStep(c, s, i), s.workers[i];
            var next := NextPc(c, s, pc);
            && (Holds(pc, StateLock) ==>
                  Critical(s) == pc && Critical(t) == if Holds(next, StateLock) then next else LoopTest)
            && (!Holds(pc, StateLock) && !Holds(next, StateLock) ==> Critical(t) == Critical(s))
            && (!Holds(pc, StateLock) && Holds(next, StateLock) ==>
                  Critical(s) == LoopTest && Critical(t) == next && (next.Recheck? || next.ExitTest?))
  {
    LockMoves(c, s, i, s.workers[i], StateLock);
  }

  lemma WorkerKeepsCounts(c: Config, s: State, i: nat)
    requires c.Valid() && Inv(c, s) && WorkerEnabled(s, i)
    ensures var t := WorkerStep(c, s, i); CountInv(c, t, Critical(t)) && BatchInv(c, t, Critical(t))
  {
    var t, pc := WorkerStep(c, s, i), s.workers[i];
    CriticalMoves(c, s, i);
    if Holds(pc, StateLock) {
      OwnerKeepsCounts(c, s, i, pc);
    } else {
      OthersLeaveCounts(c, s, i, pc);
    }
  }

  /** What the flow invariants need from the counters. */
  lemma Bounds(c: Config, s: State)
    requires c.Valid() && Inv(c, s)
    ensures s.ground.takeoffs <= s.radio.takeoffs <= s.history.takeoffsSignalled <= s.total
    ensures s.total <= s.planes + s.total <= s.history.planesDelivered <= s.radio.planes <= s.ground.planes
  {
  }

  lemma FlowFrame(c: Config, s: State, i: nat, pc: Pc)
    requires !pc.SignalRadio? && !pc.SendTerm?
    ensures var t := Effect(c, s, i, pc);
            && t.radio == s.radio && t.ground == s.ground && t.history == s.history
            && t.airUsr2 == s.airUsr2 && t.handler == s.handler
  {
  }

  lemma SignalKeepsFlow(c: Config, s: State)
    requires PlaneFlow(c, s) && TakeoffFlow(c, s)
    ensures var t := KillRadioUsr1(c, CountBatch(c, s));
            PlaneFlow(c, t) && TakeoffFlow(c, t)
  {
    var t := KillRadioUsr1(c, CountBatch(c, s));
    if s.radio.alive && !s.radio.usr1 {
      assert PlaneFlow(c, t) && TakeoffFlow(c, t);
    } else {
      assert PlaneFlow(c, t) && TakeoffFlow(c, t);
    }
  }

  lemma TermKeepsFlow(c: Config, s: State)
    requires PlaneFlow(c, s) && TakeoffFlow(c, s)
    ensures PlaneFlow(c, KillRadioTerm(s)) && TakeoffFlow(c, KillRadioTerm(s))
  {
  }

  lemma SameFlow(c: Config, s: State, t: State)
    requires PlaneFlow(c, s) && TakeoffFlow(c, s)
    requires t.radio == s.radio.(term := t.radio.term, alive := t.radio.alive)
    requires t.ground == s.ground.(term := t.ground.term, alive := t.ground.alive)
    requires t.history == s.history && t.airUsr2 == s.airUsr2 && t.handler == s.handler
    ensures PlaneFlow(c, t) && TakeoffFlow(c, t)
  {
  }

  lemma WorkerKeepsFlow(c: Config, s: State, i: nat)
    requires PlaneFlow(c, s) && TakeoffFlow(c, s) && WorkerEnabled(s, i)
    ensures PlaneFlow(c, WorkerStep(c, s, i)) && TakeoffFlow(c, WorkerStep(c, s, i))
  {
    var pc := s.workers[i];
    var u := Effect(c, s, i, pc);
    assert PlaneFlow(c, u) && TakeoffFlow(c, u) by {
      if pc.SignalRadio? {
        SignalKeepsFlow(c, s);
      } else if pc.SendTerm? {
        TermKeepsFlow(c, s);
      } else {
        FlowFrame(c, s, i, pc);
        SameFlow(c, s, u);
      }
    }
    SameFlow(c, u, WorkerStep(c, s, i));
  }

  lemma TotalGrows(c: Config, s: State, i: nat, pc: Pc)
    requires LoadsCurrent(s, pc)
    ensures Effect(c, s, i, pc).total >= s.total
    ensures Leaving(NextPc(c, s, pc)) ==> Leaving(pc) || s.total >= c.limit
    ensures HasSentTerm(NextPc(c, s, pc)) ==> HasSentTerm(pc) || pc.SendTerm? || (pc.ExitTest? && s.total < c.limit)
  {
  }

  lemma WhoIsStopped(c: Config, s: State, i: nat, pc: Pc)
    ensures var t := Effect(c, s, i, pc);
            && (RadioTold(t) <==> RadioTold(s) || pc.SendTerm?) && t.radio.alive == s.radio.alive
            && t.ground == s.ground
  {
  }

  lemma WorkerKeepsLeave(c: Config, s: State, i: nat)
    requires c.Valid() && Inv(c, s) && WorkerEnabled(s, i)
    ensures LeaveInv(c, WorkerStep(c, s, i))
  {
    var pc := s.workers[i];
    CriticalMoves(c, s, i);
    if Holds(pc, StateLock) {
      TotalGrows(c, s, i, pc);
    } else {
      OthersLeaveCounts(c, s, i, pc);
      assert HasSentTerm(NextPc(c, s, pc)) ==> HasSentTerm(pc);
    }
    WhoIsStopped(c, s, i, pc);
  }

  lemma WorkerKeepsBatched(c: Config, s: State, i: nat)
    requires Batched(c, s) && WorkerEnabled(s, i)
    ensures Batched(c, WorkerStep(c, s, i))
  {
    var pc := s.workers[i];
    if pc.SignalRadio? {
      assert Times(c.batch, s.history.batchSignals + 1) == c.batch + Times(c.batch, s.history.batchSignals);
    } else if !pc.SendTerm? {
      FlowFrame(c, s, i, pc);
    }
  }

  lemma WorkerKeepsInv(c: Config, s: State, i: nat)
    requires c.Valid() && Inv(c, s) && WorkerEnabled(s, i)
    ensures Inv(c, WorkerStep(c, s, i))
  {
    WorkerKeepsLocks(c, s, i);
    WorkerKeepsCounts(c, s, i);
    WorkerKeepsFlow(c, s, i);
    WorkerKeepsLeave(c, s, i);
    WorkerKeepsBatched(c, s, i);
  }

  lemma HandlerKeepsLocks(c: Config, s: State)
    requires LockInv(c, s) && HandlerEnabled(s)
    ensures LockInv(c, HandlerStep(c, s)) && Critical(HandlerStep(c, s)) == Critical(s)
  {
  }

  lemma HandlerKeepsCounts(c: Config, s: State)
    requires c.Valid() && Inv(c, s) && HandlerEnabled(s)
    ensures var t := HandlerStep(c, s); CountInv(c, t, Critical(s)) && BatchInv(c, t, Critical(s))
  {
  }

  lemma HandlerKeepsFlow(c: Config, s: State)
    requires PlaneFlow(c, s) && TakeoffFlow(c, s) && HandlerEnabled(s)
    ensures var t := HandlerStep(c, s); PlaneFlow(c, t) && TakeoffFlow(c, t)
  {
  }

  lemma HandlerKeepsInv(c: Config, s: State)
    requires c.Valid() && Inv(c, s) && HandlerEnabled(s)
    ensures Inv(c, HandlerStep(c, s))
  {
    HandlerKeepsLocks(c, s);
    HandlerKeepsCounts(c, s);
    HandlerKeepsFlow(c, s);
    assert Batched(c, HandlerStep(c, s)) by {
      assert Times(c.batch, s.history.handlerRuns + 1) == c.batch + Times(c.batch, s.history.handlerRuns);
    }
  }

  /** Radio and ground never touch the fields of air control. */
  lemma SameAir(c: Config, s: State, t: State)
    requires Inv(c, s)
    requires t == s.(airUsr2 := t.airUsr2, radio := t.radio, ground := t.ground, history := t.history)
    requires t.history.planesDelivered == s.history.planesDelivered
    requires t.history.takeoffsSignalled == s.history.takeoffsSignalled
    requires t.history.handlerRuns == s.history.handlerRuns && t.history.batchSignals == s.history.batchSignals
    requires t.ground.planes == s.ground.planes || Multiple(c.supply - t.ground.planes, c.batch)
    requires PlaneFlow(c, t) && TakeoffFlow(c, t)
    requires (RadioTold(t) <==> RadioTold(s)) && (GroundTold(t) <==> !t.radio.alive)
    ensures Inv(c, t)
  {
  }

  lemma RelayUsr1KeepsFlow(c: Config, s: State)
    requires PlaneFlow(c, s) && TakeoffFlow(c, s) && s.radio.inUsr1
    ensures var t := RadioRelayUsr1(c, s); PlaneFlow(c, t) && TakeoffFlow(c, t)
  {
    var t := RadioRelayUsr1(c, s);
    if s.ground.alive && !s.ground.usr1 {
      assert PlaneFlow(c, t) && TakeoffFlow(c, t);
    } else {
      assert PlaneFlow(c, t) && TakeoffFlow(c, t);
    }
  }

  lemma RelayUsr2KeepsFlow(c: Config, s: State)
    requires PlaneFlow(c, s) && TakeoffFlow(c, s) && s.radio.inUsr2
    ensures var t := RadioRelayUsr2(c, s); PlaneFlow(c, t) && TakeoffFlow(c, t)
  {
    var t := RadioRelayUsr2(c, s);
    if !s.airUsr2 {
      assert PlaneFlow(c, t) && TakeoffFlow(c, t);
    } else {
      assert PlaneFlow(c, t) && TakeoffFlow(c, t);
    }
  }

  lemma CountUsr1KeepsFlow(c: Config, s: State)
    requires PlaneFlow(c, s) && TakeoffFlow(c, s) && s.radio.usr1 && !s.radio.inUsr1
    ensures var t := RadioCountUsr1(c, s); PlaneFlow(c, t) && TakeoffFlow(c, t)
  {
  }

  lemma CountUsr2KeepsFlow(c: Config, s: State)
    requires PlaneFlow(c, s) && TakeoffFlow(c, s) && s.radio.usr2 && !s.radio.inUsr2
    ensures var t := RadioCountUsr2(c, s); PlaneFlow(c, t) && TakeoffFlow(c, t)
  {
  }

  lemma GroundCountKeepsFlow(c: Config, s: State)
    requires PlaneFlow(c, s) && TakeoffFlow(c, s) && s.ground.usr1
    ensures var t := GroundCount(c, s); PlaneFlow(c, t) && TakeoffFlow(c, t)
  {
  }

  lemma StopFrame(c: Config, s: State, a: Action)
    requires (a.StopRadio? || a.StopGround?) && Enabled(s, a)
    ensures var t := Step(c, s, a);
            && t == s.(radio := s.radio.(term := t.radio.term, alive := t.radio.alive),
                       ground := s.ground.(term := t.ground.term, alive := t.ground.alive))
            && (RadioTold(t) <==> RadioTold(s))
            && (GroundTold(t) <==> GroundTold(s) || a.StopRadio?)
            && (t.radio.alive <==> s.radio.alive && !a.StopRadio?)
  {
  }

  lemma TickKeepsFlow(c: Config, s: State)
    requires PlaneFlow(c, s) && TakeoffFlow(c, s)
    requires s.ground.pc.Waiting? && s.ground.takeoffs <= s.ground.planes
    ensures PlaneFlow(c, Tick(s)) && TakeoffFlow(c, Tick(s))
  {
  }

  lemma RoomForBatch(left: int, b: nat)
    requires Multiple(left, b) && left > 0
    ensures left >= b && Multiple(left - b, b)
  {
  }

  lemma AdmitKeepsFlow(c: Config, s: State)
    requires PlaneFlow(c, s) && TakeoffFlow(c, s) && s.ground.pc.Counted?
    requires Multiple(c.supply - s.ground.planes, c.batch)
    ensures var t := AdmitBatch(c, s);
            PlaneFlow(c, t) && TakeoffFlow(c, t) && Multiple(c.supply - t.ground.planes, c.batch)
  {
    var t := AdmitBatch(c, s);
    if s.ground.planes < c.supply {
      RoomForBatch(c.supply - s.ground.planes, c.batch);
      assert c.supply - t.ground.planes == c.supply - s.ground.planes - c.batch;
      assert PlaneFlow(c, t) && TakeoffFlow(c, t);
    } else {
      assert PlaneFlow(c, t) && TakeoffFlow(c, t);
    }
  }

  lemma DispatchKeepsFlow(c: Config, s: State)
    requires PlaneFlow(c, s) && TakeoffFlow(c, s) && s.ground.pc.Sending?
    ensures var t := Dispatch(c, s); PlaneFlow(c, t) && TakeoffFlow(c, t)
  {
    var t := Dispatch(c, s);
    if s.radio.alive && !s.radio.usr2 {
      assert PlaneFlow(c, t) && TakeoffFlow(c, t);
    } else {
      assert PlaneFlow(c, t) && TakeoffFlow(c, t);
    }
  }

  lemma RelayFrame(c: Config, s: State, a: Action)
    requires (a.RelayUsr1? || a.RelayUsr2? || a.Announce?) && Enabled(s, a)
    ensures var t := Step(c, s, a);
            && t == s.(airUsr2 := t.airUsr2, radio := t.radio, ground := t.ground, history := t.history)
            && t.history.planesDelivered == s.history.planesDelivered
            && t.history.takeoffsSignalled == s.history.takeoffsSignalled
            && t.history.handlerRuns == s.history.handlerRuns && t.history.batchSignals == s.history.batchSignals
            && t.ground.planes == s.ground.planes
            && t.radio.term == s.radio.term && t.radio.alive == s.radio.alive
            && t.ground.term == s.ground.term && t.ground.alive == s.ground.alive
  {
  }

  lemma SignalsKeepInv(c: Config, s: State, a: Action)
    requires c.Valid() && Inv(c, s) && Enabled(s, a) && (a.RelayUsr1? || a.RelayUsr2? || a.Announce?)
    ensures Inv(c, Step(c, s, a))
  {
    match a {
      case RelayUsr1 => RelayUsr1KeepsFlow(c, s);
      case RelayUsr2 => RelayUsr2KeepsFlow(c, s);
      case Announce => DispatchKeepsFlow(c, s);
    }
    RelayFrame(c, s, a);
    SameAir(c, s, Step(c, s, a));
  }

  lemma CountsKeepInv(c: Config, s: State, a: Action)
    requires c.Valid() && Inv(c, s) && Enabled(s, a) && (a.CountUsr1? || a.CountUsr2? || a.CountTakeoffs?)
    ensures Inv(c, Step(c, s, a))
  {
    match a {
      case CountUsr1 => CountUsr1KeepsFlow(c, s);
      case CountUsr2 => CountUsr2KeepsFlow(c, s);
      case CountTakeoffs => GroundCountKeepsFlow(c, s);
    }
    SameAir(c, s, Step(c, s, a));
  }

  lemma StopsKeepInv(c: Config, s: State, a: Action)
    requires c.Valid() && Inv(c, s) && Enabled(s, a) && (a.StopRadio? || a.StopGround?)
    ensures Inv(c, Step(c, s, a))
  {
    StopFrame(c, s, a);
    SameFlow(c, s, Step(c, s, a));
    SameAir(c, s, Step(c, s, a));
  }

  lemma TimerKeepsInv(c: Config, s: State)
    requires c.Valid() && Inv(c, s) && Enabled(s, Timer)
    ensures Inv(c, Tick(s))
  {
    Bounds(c, s);
    TickKeepsFlow(c, s);
    SameAir(c, s, Tick(s));
  }

  lemma AdmitFrame(c: Config, s: State)
    ensures var t := AdmitBatch(c, s);
            t == s.(ground := s.ground.(pc := t.ground.pc, planes := t.ground.planes))
  {
  }

  lemma AdmitKeepsInv(c: Config, s: State)
    requires c.Valid() && Inv(c, s) && Enabled(s, Admit)
    ensures Inv(c, AdmitBatch(c, s))
  {
    AdmitKeepsFlow(c, s);
    AdmitFrame(c, s);
    GroundMoves(c, s, AdmitBatch(c, s));
  }

  lemma GroundMoves(c: Config, s: State, t: State)
    requires Inv(c, s) && t == s.(ground := s.ground.(pc := t.ground.pc, planes := t.ground.planes))
    requires PlaneFlow(c, t) && TakeoffFlow(c, t) && Multiple(c.supply - t.ground.planes, c.batch)
    ensures Inv(c, t)
  {
    SameAir(c, s, t);
  }

  lemma StepKeepsInv(c: Config, s: State, a: Action)
    requires c.Valid() && Inv(c, s) && Enabled(s, a)
    ensures Inv(c, Step(c, s, a))
  {
    match a
    case Work(i) => WorkerKeepsInv(c, s, i);
    case Handle => HandlerKeepsInv(c, s);
    case RelayUsr1 | RelayUsr2 | Announce => SignalsKeepInv(c, s, a);
    case Timer => TimerKeepsInv(c, s);
    case Admit => AdmitKeepsInv(c, s);
    case StopRadio | StopGround => StopsKeepInv(c, s, a);
    case _ => CountsKeepInv(c, s, a);
  }

  lemma {:induction false} RunKeepsInv(c: Config, s: State, run: seq<Action>, t: State)
    requires c.Valid() && Inv(c, s) && Leads(c, s, run, t)
    ensures Inv(c, t)
    decreases |run|
  {
    if run != [] {
      StepKeepsInv(c, s, run[0]);
      RunKeepsInv(c, Step(c, s, run[0]), run[1..], t);
    }
  }

  lemma ReachableInv(c: Config, s: State)
    requires c.Valid() && Reachable(c, s)
    ensures Inv(c, s)
  {
    var run :| Leads(c, Init(c), run, s);
    InitInv(c);
    RunKeepsInv(c, Init(c), run, s);
  }
}
