/**
 The signal handlers and the critical section as the processes run them, on their own variables.  Each method
 is proved to do in one go what a run of the ring does one step at a time, signals included: `before` is any
 state of the ring that shows the process' variables, and the run leads from it to the state that shows
 them as the method leaves them, with the signals it returns delivered.
 */
module AirportProcesses {
  import opened AirportRing
  import opened AirportSafety
  import opened Division

  /** A signal sent, with its receiver. */
  datatype Kill = RadioUsr1 | RadioUsr2 | AirUsr2 | GroundUsr1

  function Deliver(c: Config, s: State, k: Kill): State {
    match k
    case RadioUsr1 => KillRadioUsr1(c, CountBatch(c, s))
    case RadioUsr2 => KillRadioUsr2(c, s)
    case AirUsr2 => KillAirUsr2(c, s)
    case GroundUsr1 => KillGroundUsr1(c, s)
  }

  lemma OneStep(c: Config, s: State, a: Action)
    requires Enabled(s, a)
    ensures Leads(c, s, [a], Step(c, s, a))
  {
    assert Leads(c, Step(c, s, a), [], Step(c, s, a));
  }

  lemma Then(c: Config, s: State, run: seq<Action>, t: State, a: Action)
    requires Leads(c, s, run, t) && Enabled(t, a)
    ensures Leads(c, s, run + [a], Step(c, t, a))
  {
    OneStep(c, t, a);
    RunsCompose(c, s, run, t, [a], Step(c, t, a));
  }

  class GroundControl {
    const limit: nat
    const batch: nat
    var planes: int
    var takeoffs: int
    var traffic: int

    constructor (c: Config)
      ensures limit == c.supply && batch == c.batch && Init(c) == Shown(Init(c))
    {
      limit, batch := c.supply, c.batch;
      planes, takeoffs, traffic := 0, 0, 0;
    }

    /** The ring with these variables, no timer handler running. */
    ghost function Shown(s: State): State
      reads this
    {
      s.(ground := s.ground.(planes := planes, takeoffs := takeoffs, traffic := traffic, pc := Waiting))
    }

    ghost predicate Agrees(c: Config, s: State)
      reads this
    {
      c.supply == limit && c.batch == batch && s == Shown(s)
    }

    /** The timer handler. */
    method Traffic(ghost c: Config, ghost before: State) returns (sent: seq<Kill>, ghost run: seq<Action>)
      requires Agrees(c, before) && Enabled(before, Timer)
      modifies this
      ensures sent == if old(planes) < limit then [RadioUsr2] else []
      ensures traffic == old(planes) - takeoffs && takeoffs == old(takeoffs)
      ensures run == [Timer, Admit] + if sent != [] then [Announce] else []
      ensures Leads(c, before, run, if sent != [] then Deliver(c, Shown(before), sent[0]) else Shown(before))
    {
      OneStep(c, before, Timer);
      Then(c, before, [Timer], Tick(before), Admit);
      run := [Timer, Admit];
      sent := [];
      traffic := planes - takeoffs;
      if planes < limit {
        planes := planes + batch;
        sent := [RadioUsr2];
        Then(c, before, run, AdmitBatch(c, Tick(before)), Announce);
        run := run + [Announce];
        var admitted := AdmitBatch(c, Tick(before));
        assert admitted.(ground := admitted.ground.(pc := Waiting)) == Shown(before);
      }
    }

    method SigHandler1(ghost c: Config, ghost before: State)
      requires Agrees(c, before) && Enabled(before, CountTakeoffs)
      modifies this`takeoffs
      ensures var caught := before.(ground := before.ground.(usr1 := false));
              Leads(c, before, [CountTakeoffs], Shown(caught))
    {
      OneStep(c, before, CountTakeoffs);
      takeoffs := takeoffs + batch;
    }
  }

  class RadioRelay {
    const batch: nat
    var planes: int
    var takeoffs: int

    constructor (c: Config)
      ensures batch == c.batch && Init(c) == Shown(Init(c))
    {
      batch := c.batch;
      planes, takeoffs := 0, 0;
    }

    ghost function Shown(s: State): State
      reads this
    {
      s.(radio := s.radio.(planes := planes, takeoffs := takeoffs))
    }

    ghost predicate Agrees(c: Config, s: State)
      reads this
    {
      c.batch == batch && s == Shown(s)
    }

    /** Counts a batch of takeoffs and passes the signal on to ground control. */
    method SigHandler1(ghost c: Config, ghost before: State) returns (sent: Kill)
      requires Agrees(c, before) && Enabled(before, CountUsr1)
      modifies this`takeoffs
      ensures sent == GroundUsr1
      ensures var caught := before.(radio := before.radio.(usr1 := false));
              Leads(c, before, [CountUsr1, RelayUsr1], Deliver(c, Shown(caught), sent))
    {
      ghost var counted := Step(c, before, CountUsr1);
      OneStep(c, before, CountUsr1);
      Then(c, before, [CountUsr1], counted, RelayUsr1);
      takeoffs := takeoffs + batch;
      sent := GroundUsr1;
      assert counted.(radio := counted.radio.(inUsr1 := false)) ==
             Shown(before.(radio := before.radio.(usr1 := false)));
    }

    /**
     Counts a batch of planes and passes the signal on to air control.  The warning `overloaded` comes
     at the latest when ten planes wait at air control.
     */
    method SigHandler2(ghost c: Config, ghost before: State) returns (sent: Kill, overloaded: bool)
      requires Agrees(c, before) && Enabled(before, CountUsr2)
      modifies this`planes
      ensures sent == AirUsr2
      ensures var caught := before.(radio := before.radio.(usr2 := false));
              Leads(c, before, [CountUsr2, RelayUsr2], Deliver(c, Shown(caught), sent))
      ensures overloaded <==> planes - takeoffs >= 10 && planes < 50
      ensures c.Valid() && Reachable(c, before) && c.supply < 50 && before.planes >= 10 ==> overloaded
    {
      if c.Valid() && Reachable(c, before) {
        AroundTheRing(c, before);
      }
      ghost var counted := Step(c, before, CountUsr2);
      OneStep(c, before, CountUsr2);
      Then(c, before, [CountUsr2], counted, RelayUsr2);
      planes := planes + batch;
      sent := AirUsr2;
      overloaded := planes - takeoffs >= 10 && planes < 50;
      assert counted.(radio := counted.radio.(inUsr2 := false)) ==
             Shown(before.(radio := before.radio.(usr2 := false)));
    }
  }

  // ---------- one controller moving alone ----------

  function At(b: State, i: nat, pc: Pc): State
    requires i < |b.workers|
  {
    b.(workers := b.workers[i := pc])
  }

  lemma EffectLeavesWorkers(c: Config, b: State, ws: seq<Pc>, i: nat, pc: Pc)
    ensures Effect(c, b.(workers := ws), i, pc) == Effect(c, b, i, pc).(workers := ws)
    ensures NextPc(c, b.(workers := ws), pc) == NextPc(c, b, pc)
  {
  }

  lemma StepAt(c: Config, b: State, i: nat, pc: Pc)
    requires i < |b.workers| && WorkerEnabled(At(b, i, pc), i)
    ensures WorkerStep(c, At(b, i, pc), i) == At(Effect(c, b, i, pc), i, NextPc(c, b, pc))
  {
    var ws := b.workers[i := pc];
    EffectLeavesWorkers(c, b, ws, i, pc);
    EffectLeavesWorkers(c, b, b.workers, i, pc);
    assert b == b.(workers := b.workers);
    assert ws[i := NextPc(c, b, pc)] == b.workers[i := NextPc(c, b, pc)];
  }

  function Alone(i: nat, n: nat): (run: seq<Action>)
    ensures |run| == n && forall k :: 0 <= k < n ==> run[k] == Work(i)
  {
    seq(n, k => Work(i))
  }

  /** `n` steps of controller `i` lead from `s` to `b`, where it stands at `pc`. */
  ghost predicate Gets(c: Config, s: State, n: nat, b: State, i: nat, pc: Pc) {
    i < |b.workers| && Leads(c, s, Alone(i, n), At(b, i, pc))
  }

  lemma Moves(c: Config, s: State, n: nat, b: State, i: nat, pc: Pc, u: State, next: Pc)
    requires Gets(c, s, n, b, i, pc)
    requires !pc.Done? && (pc.WaitState? || pc.WaitExit? ==> b.stateLock.Nobody?)
    requires u == Effect(c, b, i, pc) && next == NextPc(c, b, pc)
    ensures Gets(c, s, n + 1, u, i, next)
  {
    var t := At(b, i, pc);
    StepAt(c, b, i, pc);
    Then(c, s, Alone(i, n), t, Work(i));
    assert Alone(i, n) + [Work(i)] == Alone(i, n + 1);
    EffectLeavesWorkers(c, b, b.workers, i, pc);
    assert b == b.(workers := b.workers);
  }

  lemma Starts(c: Config, s: State, i: nat)
    requires i < |s.workers|
    ensures Gets(c, s, 0, s, i, s.workers[i])
  {
    assert s.workers[i := s.workers[i]] == s.workers;
    assert s == At(s, i, s.workers[i]) && Alone(i, 0) == [];
  }

  /** The lock and the re-check. */
  lemma Enters(c: Config, s: State, i: nat, rw: Runway)
    requires i < |s.workers| && s.workers[i] == WaitState(rw) && s.stateLock.Nobody?
    ensures Gets(c, s, 2, s.(stateLock := Controller(i)), i, if s.planes <= 0 then ReleaseEarly(rw) else ReadPlanes(rw))
  {
    var b := s.(stateLock := Controller(i));
    Starts(c, s, i);
    Moves(c, s, 0, s, i, WaitState(rw), b, Recheck(rw));
    Moves(c, s, 1, b, i, Recheck(rw), b, if s.planes <= 0 then ReleaseEarly(rw) else ReadPlanes(rw));
  }

  lemma TakesPlane(c: Config, s: State, b: State, i: nat, rw: Runway)
    requires Gets(c, s, 2, b, i, ReadPlanes(rw))
    ensures Gets(c, s, 4, b.(planes := b.planes - 1), i, ReadTakeoffs(rw))
  {
    Moves(c, s, 2, b, i, ReadPlanes(rw), b, WritePlanes(rw, b.planes));
    Moves(c, s, 3, b, i, WritePlanes(rw, b.planes), b.(planes := b.planes - 1), ReadTakeoffs(rw));
  }

  lemma CountsTakeoff(c: Config, s: State, b: State, i: nat, rw: Runway)
    requires Gets(c, s, 4, b, i, ReadTakeoffs(rw))
    ensures Gets(c, s, 6, b.(takeoffs := b.takeoffs + 1), i, ReadTotal(rw))
  {
    Moves(c, s, 4, b, i, ReadTakeoffs(rw), b, WriteTakeoffs(rw, b.takeoffs));
    Moves(c, s, 5, b, i, WriteTakeoffs(rw, b.takeoffs), b.(takeoffs := b.takeoffs + 1), ReadTotal(rw));
  }

  lemma CountsTotal(c: Config, s: State, b: State, i: nat, rw: Runway)
    requires Gets(c, s, 6, b, i, ReadTotal(rw))
    ensures Gets(c, s, 8, b.(total := b.total + 1), i, BatchTest(rw))
  {
    Moves(c, s, 6, b, i, ReadTotal(rw), b, WriteTotal(rw, b.total));
    Moves(c, s, 7, b, i, WriteTotal(rw, b.total), b.(total := b.total + 1), BatchTest(rw));
  }

  /** The three updates, each a load and a store. */
  lemma Counts(c: Config, s: State, b: State, i: nat, rw: Runway)
    requires Gets(c, s, 2, b, i, ReadPlanes(rw))
    ensures Gets(c, s, 8, b.(planes := b.planes - 1, takeoffs := b.takeoffs + 1, total := b.total + 1), i,
                 BatchTest(rw))
  {
    var b1 := b.(planes := b.planes - 1);
    var b2 := b1.(takeoffs := b.takeoffs + 1);
    TakesPlane(c, s, b, i, rw);
    CountsTakeoff(c, s, b1, i, rw);
    CountsTotal(c, s, b2, i, rw);
  }

  /** The batch test, the signal if it is due, and the unlock. */
  lemma Signals(c: Config, s: State, n: nat, b: State, i: nat, rw: Runway)
    requires Gets(c, s, n, b, i, BatchTest(rw)) && b.takeoffs == c.batch
    ensures Gets(c, s, n + 4, Deliver(c, b, RadioUsr1).(takeoffs := 0, stateLock := Nobody), i, Airborne(rw))
  {
    var b1 := Deliver(c, b, RadioUsr1);
    var b2 := b1.(takeoffs := 0);
    var b3 := b2.(stateLock := Nobody);
    Moves(c, s, n, b, i, BatchTest(rw), b, SignalRadio(rw));
    Moves(c, s, n + 1, b, i, SignalRadio(rw), b1, ResetTakeoffs(rw));
    Moves(c, s, n + 2, b1, i, ResetTakeoffs(rw), b2, UnlockState(rw));
    Moves(c, s, n + 3, b2, i, UnlockState(rw), b3, Airborne(rw));
  }

  lemma GoesOn(c: Config, s: State, n: nat, b: State, i: nat, rw: Runway)
    requires Gets(c, s, n, b, i, BatchTest(rw)) && b.takeoffs != c.batch
    ensures Gets(c, s, n + 2, b.(stateLock := Nobody), i, Airborne(rw))
  {
    var b1 := b.(stateLock := Nobody);
    Moves(c, s, n, b, i, BatchTest(rw), b, UnlockState(rw));
    Moves(c, s, n + 1, b, i, UnlockState(rw), b1, Airborne(rw));
  }

  /** Without a plane the runway is given back. */
  lemma GivesUp(c: Config, s: State, b: State, i: nat, rw: Runway)
    requires Gets(c, s, 2, b, i, ReleaseEarly(rw))
    ensures Gets(c, s, 4, SetRunway(b, rw, Nobody).(stateLock := Nobody), i, LoopTest)
  {
    var b1 := SetRunway(b, rw, Nobody);
    Moves(c, s, 2, b, i, ReleaseEarly(rw), b1, UnlockEarly);
    Moves(c, s, 3, b1, i, UnlockEarly, b1.(stateLock := Nobody), LoopTest);
  }

  class AirControl {
    const batch: nat
    var planes: int
    var takeoffs: int
    var total: int

    constructor (c: Config)
      requires c.batch >= 1
      ensures batch == c.batch && Counted() && Init(c) == Shown(Init(c))
    {
      batch := c.batch;
      planes, takeoffs, total := 0, 0, 0;
    }

    ghost function Shown(s: State): State
      reads this
    {
      s.(planes := planes, takeoffs := takeoffs, total := total)
    }

    ghost predicate Agrees(c: Config, s: State)
      reads this
    {
      c.batch == batch && s == Shown(s)
    }

    /** The counters as they are whenever `state_lock` is free. */
    ghost predicate Counted()
      reads this
    {
      batch >= 1 && total >= 0 && takeoffs == total % batch
    }

    /** With the lock free, the five steps of the handler on the main thread. */
    method Sigusr2Handler(ghost c: Config, ghost before: State)
      requires Agrees(c, before) && before.handler.Idle? && before.airUsr2 && before.stateLock.Nobody?
      modifies this`planes
      ensures old(Counted()) ==> Counted()
      ensures var h := before.history;
              var caught := before.(airUsr2 := false, history := h.(handlerRuns := h.handlerRuns + 1,
                                                                  planesDelivered := h.planesDelivered + c.batch));
              Leads(c, before, [Handle, Handle, Handle, Handle, Handle], Shown(caught))
    {
      ghost var s1 := Step(c, before, Handle);
      ghost var s2 := Step(c, s1, Handle);
      ghost var s3 := Step(c, s2, Handle);
      ghost var s4 := Step(c, s3, Handle);
      OneStep(c, before, Handle);
      Then(c, before, [Handle], s1, Handle);
      Then(c, before, [Handle, Handle], s2, Handle);
      Then(c, before, [Handle, Handle, Handle], s3, Handle);
      Then(c, before, [Handle, Handle, Handle, Handle], s4, Handle);
      planes := planes + batch;
    }

    /**
     The `with state_lock` block of `takeoff_worker`, which re-checks `planes` before using one: in one go what
     the steps of controller `i` do from taking the lock to giving it back.
     */
    method Takeoff(ghost c: Config, ghost before: State, ghost i: nat, ghost rw: Runway)
      returns (flew: bool, sent: seq<Kill>, ghost steps: nat)
      requires Agrees(c, before) && Counted()
      requires i < |before.workers| && before.workers[i] == WaitState(rw) && before.stateLock.Nobody?
      modifies this
      ensures Counted() && (flew <==> old(planes) > 0)
      ensures planes + total == old(planes + total) && total == old(total) + (if flew then 1 else 0)
      ensures sent == if flew && total % batch == 0 then [RadioUsr1] else []
      ensures var counted := Shown(before);
              if !flew then Gets(c, before, steps, SetRunway(counted, rw, Nobody), i, LoopTest)
              else Gets(c, before, steps, if sent == [] then counted else Deliver(c, counted, sent[0]), i, Airborne(rw))
    {
      flew, sent := false, [];
      Enters(c, before, i, rw);
      ghost var b := before.(stateLock := Controller(i));
      if planes <= 0 {
        GivesUp(c, before, b, i, rw);
        steps := 4;
        assert SetRunway(b, rw, Nobody).(stateLock := Nobody) == SetRunway(before, rw, Nobody);
        return;
      }
      NextRemainder(total, batch);
      Counts(c, before, b, i, rw);
      planes := planes - 1;
      takeoffs := takeoffs + 1;
      total := total + 1;
      flew := true;
      b := Shown(b);
      if takeoffs == batch {
        Signals(c, before, 8, b, i, rw);
        steps := 12;
        sent := [RadioUsr1];
        takeoffs := 0;
        DeliverAfter(c, b);
        assert b.(takeoffs := 0, stateLock := Nobody) == Shown(before);
      } else {
        GoesOn(c, before, 8, b, i, rw);
        steps := 10;
        assert b.(stateLock := Nobody) == Shown(before);
      }
    }
  }

  lemma DeliverAfter(c: Config, b: State)
    ensures Deliver(c, b, RadioUsr1).(takeoffs := 0, stateLock := Nobody)
         == Deliver(c, b.(takeoffs := 0, stateLock := Nobody), RadioUsr1)
  {
  }
}
