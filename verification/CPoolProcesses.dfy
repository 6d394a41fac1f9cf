/**
 The handler and the critical section of the C program as a process runs them, on its own variables, against the
 steps of CPool.  Each method is proved to do in one go what a run of the pool does one step at a time: `before`
 is any state of the pool that shows the process' variables, and the run leads from it to the state that
 shows them as the method leaves them, with the counts of the signals it returns.
 */
module CPoolProcesses {
  import opened CPool
  import opened CPoolBounds
  import opened Division

  datatype Kill = RadioUsr1 | GroundUsr1

  function At(b: State, i: nat, pc: Pc): State
    requires i < |b.workers|
  {
    b.(workers := b.workers[i := pc])
  }

  function Alone(i: nat, n: nat): (run: seq<Action>)
    ensures |run| == n && forall k :: 0 <= k < n ==> run[k] == Work(i)
  {
    seq(n, k => Work(i))
  }

  lemma EffectLeavesWorkers(c: Config, b: State, ws: seq<Pc>, i: nat, pc: Pc)
    ensures Effect(b.(workers := ws), i, pc) == Effect(b, i, pc).(workers := ws)
    ensures NextPc(c, b.(workers := ws), pc) == NextPc(c, b, pc)
  {
  }

  lemma StepAt(c: Config, b: State, i: nat, pc: Pc)
    requires i < |b.workers| && WorkerEnabled(At(b, i, pc), i)
    ensures Step(c, At(b, i, pc), Work(i)) == At(Effect(b, i, pc), i, NextPc(c, b, pc))
  {
    var ws := b.workers[i := pc];
    EffectLeavesWorkers(c, b, ws, i, pc);
    EffectLeavesWorkers(c, b, b.workers, i, pc);
    assert b == b.(workers := b.workers);
    assert ws[i := NextPc(c, b, pc)] == b.workers[i := NextPc(c, b, pc)];
  }

  /** `n` steps of controller `i` lead from `s` to `b`, where it stands at `pc`. */
  ghost predicate Gets(c: Config, s: State, n: nat, b: State, i: nat, pc: Pc) {
    i < |b.workers| && Leads(c, s, Alone(i, n), At(b, i, pc))
  }

  lemma OneMore(c: Config, s: State, run: seq<Action>, t: State, a: Action)
    requires Leads(c, s, run, t) && Enabled(t, a)
    ensures Leads(c, s, run + [a], Step(c, t, a))
  {
    assert Leads(c, Step(c, t, a), [], Step(c, t, a));
    assert Leads(c, t, [a], Step(c, t, a));
    RunsCompose(c, s, run, t, [a], Step(c, t, a));
  }

  lemma Moves(c: Config, s: State, n: nat, b: State, i: nat, pc: Pc, u: State, next: Pc)
    requires Gets(c, s, n, b, i, pc)
    requires !pc.Done? && (pc.WaitState? ==> b.stateLock.Free?)
    requires u == Effect(b, i, pc) && next == NextPc(c, b, pc)
    ensures Gets(c, s, n + 1, u, i, next)
  {
    StepAt(c, b, i, pc);
    OneMore(c, s, Alone(i, n), At(b, i, pc), Work(i));
    assert Alone(i, n) + [Work(i)] == Alone(i, n + 1);
    EffectLeavesWorkers(c, b, b.workers, i, pc);
    assert b == b.(workers := b.workers);
  }

  lemma Starts(c: Config, s: State, i: nat)
    requires i < |s.workers|
    ensures Gets(c, s, 0, s, i, s.workers[i])
  {
    assert s.workers[i := s.workers[i]] == s.workers;
    assert s == At(s, i, s.workers[i]) && Alone(i, 0) == [];
  }

  lemma Counts(c: Config, s: State, i: nat, rw: Runway)
    requires i < |s.workers| && s.workers[i] == WaitState(rw) && s.stateLock.Free?
    ensures Gets(c, s, 4, s.(stateLock := Held(i), planes := s.planes - 1, takeoffs := s.takeoffs + 1,
                             total := s.total + 1), i, BatchTest(rw))
  {
    var b := s.(stateLock := Held(i));
    var b1 := b.(planes := b.planes - 1);
    var b2 := b1.(takeoffs := b.takeoffs + 1);
    Starts(c, s, i);
    Moves(c, s, 0, s, i, WaitState(rw), b, DecPlanes(rw));
    Moves(c, s, 1, b, i, DecPlanes(rw), b1, IncTakeoffs(rw));
    Moves(c, s, 2, b1, i, IncTakeoffs(rw), b2, IncTotal(rw));
    Moves(c, s, 3, b2, i, IncTotal(rw), b2.(total := b.total + 1), BatchTest(rw));
  }

  lemma SignalsBoth(c: Config, s: State, n: nat, b: State, i: nat, rw: Runway)
    requires Gets(c, s, n, b, i, BatchTest(rw)) && b.takeoffs == c.batch
    ensures Gets(c, s, n + 3, b.(toRadio := b.toRadio + 1, toGround := b.toGround + 1), i, ResetTakeoffs(rw))
  {
    var b1 := b.(toRadio := b.toRadio + 1);
    Moves(c, s, n, b, i, BatchTest(rw), b, SignalRadio(rw));
    Moves(c, s, n + 1, b, i, SignalRadio(rw), b1, SignalGround(rw));
    Moves(c, s, n + 2, b1, i, SignalGround(rw), b1.(toGround := b.toGround + 1), ResetTakeoffs(rw));
  }

  lemma Signals(c: Config, s: State, n: nat, b: State, i: nat, rw: Runway)
    requires Gets(c, s, n, b, i, BatchTest(rw)) && b.takeoffs == c.batch
    ensures Gets(c, s, n + 5,
                 b.(toRadio := b.toRadio + 1, toGround := b.toGround + 1, takeoffs := 0, stateLock := Free),
                 i, Airborne(rw))
  {
    var b1 := b.(toRadio := b.toRadio + 1, toGround := b.toGround + 1);
    var b2 := b1.(takeoffs := 0);
    SignalsBoth(c, s, n, b, i, rw);
    Moves(c, s, n + 3, b1, i, ResetTakeoffs(rw), b2, UnlockState(rw));
    Moves(c, s, n + 4, b2, i, UnlockState(rw), b2.(stateLock := Free), Airborne(rw));
  }

  lemma GoesOn(c: Config, s: State, n: nat, b: State, i: nat, rw: Runway)
    requires Gets(c, s, n, b, i, BatchTest(rw)) && b.takeoffs != c.batch
    ensures Gets(c, s, n + 2, b.(stateLock := Free), i, Airborne(rw))
  {
    Moves(c, s, n, b, i, BatchTest(rw), b, UnlockState(rw));
    Moves(c, s, n + 1, b, i, UnlockState(rw), b.(stateLock := Free), Airborne(rw));
  }

  class AirControl {
    const batch: nat
    var planes: int
    var takeoffs: int
    var total: int

    constructor (c: Config)
      requires c.batch >= 1
      ensures batch == c.batch && Counted() && Init(c) == Shown(Init(c))
    {
      batch := c.batch;
      planes, takeoffs, total := 0, 0, 0;
    }

    ghost function Shown(s: State): State
      reads this
    {
      s.(planes := planes, takeoffs := takeoffs, total := total)
    }

    ghost predicate Agrees(c: Config, s: State)
      reads this
    {
      c.batch == batch && s == Shown(s)
    }

    /** The counters as they are whenever `state_lock` is free. */
    ghost predicate Counted()
      reads this
    {
      batch >= 1 && total >= 0 && takeoffs == total % batch
    }

    method SigHandler2(ghost c: Config, ghost before: State)
      requires Agrees(c, before)
      modifies this`planes
      ensures old(Counted()) ==> Counted()
      ensures Leads(c, before, [Handle], Shown(before))
    {
      planes := planes + batch;
      assert Step(c, before, Handle) == Shown(before);
      assert Leads(c, Shown(before), [], Shown(before));
    }

    /** The critical section of `TakeOffsFunction`, which does not re-check, with the signals it sends. */
    method Takeoff(ghost c: Config, ghost before: State, ghost i: nat, ghost rw: Runway)
      returns (sent: seq<Kill>, ghost steps: nat)
      requires Agrees(c, before) && Counted()
      requires i < |before.workers| && before.workers[i] == WaitState(rw) && before.stateLock.Free?
      modifies this
      ensures Counted() && planes == old(planes) - 1 && total == old(total) + 1
      ensures sent == if total % batch == 0 then [RadioUsr1, GroundUsr1] else []
      ensures var counted := Shown(before);
              var told := if sent == [] then counted
                          else counted.(toRadio := counted.toRadio + 1, toGround := counted.toGround + 1);
              Gets(c, before, steps, told, i, Airborne(rw))
    {
      NextRemainder(total, batch);
      Counts(c, before, i, rw);
      planes := planes - 1;
      takeoffs := takeoffs + 1;
      total := total + 1;
      sent := [];
      ghost var b := Shown(before).(stateLock := Held(i));
      if takeoffs == batch {
        Signals(c, before, 4, b, i, rw);
        steps := 9;
        sent := [RadioUsr1, GroundUsr1];
        takeoffs := 0;
      } else {
        GoesOn(c, before, 4, b, i, rw);
        steps := 6;
        assert b.(stateLock := Free) == Shown(before);
      }
    }
  }
}
