/**
 The C controller pool (`TakeOffsFunction`) as a transition system.  It differs from the Python pool in one thing
 that matters: `planes` is read once, without a lock, and never re-checked.  The SIGUSR2 handler may run at any
 moment and adds a batch in one step.  The invariant says who holds which lock, how far the counters may be past
 the two tests, where the batches are announced, and that each controller that has left has sent one SIGTERM.
 */
module CPool {
  datatype Config = Config(threads: nat, limit: nat, batch: nat)
  {
    ghost predicate Valid() { threads >= 1 && limit >= 1 && batch >= 1 }
  }

  datatype Runway = One | Two

  datatype Holder = Free | Held(id: nat)

  /** Where a controller stands; the comment gives the source line. */
  datatype Pc =
    | LoopTest                   // 66: reads total_takeoffs without a lock
    | QuickCheck                 // 67: reads planes without a lock
    | TryOne                     // 74
    | TryTwo                     // 76
    | WaitState(rw: Runway)      // 87
    | DecPlanes(rw: Runway)      // 88
    | IncTakeoffs(rw: Runway)    // 89
    | IncTotal(rw: Runway)       // 90
    | BatchTest(rw: Runway)      // 95
    | SignalRadio(rw: Runway)    // 98
    | SignalGround(rw: Runway)   // 99
    | ResetTakeoffs(rw: Runway)  // 100
    | UnlockState(rw: Runway)    // 103
    | Airborne(rw: Runway)       // 104-111
    | ExitTest                   // 116: reads total_takeoffs without a lock
    | SendTerm                   // 118
    | Done

  /** `toRadio` and `toGround` count the SIGUSR1 sent to each, `terms` the SIGTERM sent to radio. */
  datatype State = State(
    planes: int, takeoffs: int, total: int,
    stateLock: Holder, runway1: Holder, runway2: Holder,
    workers: seq<Pc>, toRadio: nat, toGround: nat, terms: nat)

  function Init(c: Config): State {
    State(0, 0, 0, Free, Free, Free, seq(c.threads, i => LoopTest), 0, 0, 0)
  }

  function SetRunway(s: State, rw: Runway, h: Holder): State {
    if rw.One? then s.(runway1 := h) else s.(runway2 := h)
  }

  predicate WorkerEnabled(s: State, i: nat) {
    i < |s.workers| && !s.workers[i].Done? && (s.workers[i].WaitState? ==> s.stateLock.Free?)
  }

  function NextPc(c: Config, s: State, pc: Pc): Pc {
    match pc
    case LoopTest => if s.total < c.limit then QuickCheck else ExitTest
    case QuickCheck => if s.planes <= 0 then LoopTest else TryOne
    case TryOne => if s.runway1.Free? then WaitState(One) else TryTwo
    case TryTwo => if s.runway2.Free? then WaitState(Two) else LoopTest
    case WaitState(rw) => DecPlanes(rw)
    case DecPlanes(rw) => IncTakeoffs(rw)
    case IncTakeoffs(rw) => IncTotal(rw)
    case IncTotal(rw) => BatchTest(rw)
    case BatchTest(rw) => if s.takeoffs == c.batch then SignalRadio(rw) else UnlockState(rw)
    case SignalRadio(rw) => SignalGround(rw)
    case SignalGround(rw) => ResetTakeoffs(rw)
    case ResetTakeoffs(rw) => UnlockState(rw)
    case UnlockState(rw) => Airborne(rw)
    case Airborne(rw) => LoopTest
    case ExitTest => if s.total >= c.limit then SendTerm else Done
    case SendTerm => Done
    case Done => Done
  }

  function Effect(s: State, i: nat, pc: Pc): State {
    match pc
    case TryOne => if s.runway1.Free? then s.(runway1 := Held(i)) else s
    case TryTwo => if s.runway2.Free? then s.(runway2 := Held(i)) else s
    case WaitState(rw) => s.(stateLock := Held(i))
    case DecPlanes(rw) => s.(planes := s.planes - 1)
    case IncTakeoffs(rw) => s.(takeoffs := s.takeoffs + 1)
    case IncTotal(rw) => s.(total := s.total + 1)
    case SignalRadio(rw) => s.(toRadio := s.toRadio + 1)
    case SignalGround(rw) => s.(toGround := s.toGround + 1)
    case ResetTakeoffs(rw) => s.(takeoffs := 0)
    case UnlockState(rw) => s.(stateLock := Free)
    case Airborne(rw) => SetRunway(s, rw, Free)
    case SendTerm => s.(terms := s.terms + 1)
    case _ => s
  }

  datatype Action = Work(i: nat) | Handle

  predicate Enabled(s: State, a: Action) {
    a.Work? ==> WorkerEnabled(s, a.i)
  }

  function Step(c: Config, s: State, a: Action): State
    requires Enabled(s, a)
  {
    match a
    case Work(i) => Effect(s, i, s.workers[i]).(workers := s.workers[i := NextPc(c, s, s.workers[i])])
    case Handle => s.(planes := s.planes + c.batch)
  }

  ghost predicate Leads(c: Config, s: State, run: seq<Action>, t: State)
    decreases |run|
  {
    if run == [] then s == t
    else Enabled(s, run[0]) && Leads(c, Step(c, s, run[0]), run[1..], t)
  }

  ghost predicate CanReach(c: Config, s: State, t: State) {
    exists run :: Leads(c, s, run, t)
  }

  ghost predicate Reachable(c: Config, s: State) {
    CanReach(c, Init(c), s)
  }

  // ---------- the invariant ----------

  predicate HoldsState(pc: Pc) {
    pc.DecPlanes? || pc.IncTakeoffs? || pc.IncTotal? || pc.BatchTest? || pc.SignalRadio? || pc.SignalGround?
    || pc.ResetTakeoffs? || pc.UnlockState?
  }

  /** Has seen the limit not reached, and has not counted its takeoff yet. */
  predicate MayCount(pc: Pc) {
    pc.QuickCheck? || pc.TryOne? || pc.TryTwo? || pc.WaitState? || pc.DecPlanes? || pc.IncTakeoffs? || pc.IncTotal?
  }

  /** Has seen a plane, and has not taken one yet. */
  predicate MayTake(pc: Pc) {
    pc.TryOne? || pc.TryTwo? || pc.WaitState? || pc.DecPlanes?
  }

  predicate Leaving(pc: Pc) {
    pc.ExitTest? || pc.SendTerm? || pc.Done?
  }

  function Counters(ws: seq<Pc>): nat {
    if ws == [] then 0 else (if MayCount(ws[0]) then 1 else 0) + Counters(ws[1..])
  }

  function Takers(ws: seq<Pc>): nat {
    if ws == [] then 0 else (if MayTake(ws[0]) then 1 else 0) + Takers(ws[1..])
  }

  lemma {:induction false} CountersUpdate(ws: seq<Pc>, i: nat, pc: Pc)
    requires i < |ws|
    ensures Counters(ws[i := pc]) ==
            Counters(ws) - (if MayCount(ws[i]) then 1 else 0) + (if MayCount(pc) then 1 else 0)
    ensures Counters(ws) <= |ws|
  {
    if i == 0 {
      assert ws[i := pc][1..] == ws[1..];
      CountersBound(ws);
    } else {
      assert ws[i := pc][1..] == ws[1..][i - 1 := pc];
      CountersUpdate(ws[1..], i - 1, pc);
    }
  }

  lemma CountersBound(ws: seq<Pc>)
    ensures Counters(ws) <= |ws|
  {
  }

  lemma {:induction false} TakersUpdate(ws: seq<Pc>, i: nat, pc: Pc)
    requires i < |ws|
    ensures Takers(ws[i := pc]) ==
            Takers(ws) - (if MayTake(ws[i]) then 1 else 0) + (if MayTake(pc) then 1 else 0)
  {
    if i == 0 {
      assert ws[i := pc][1..] == ws[1..];
    } else {
      assert ws[i := pc][1..] == ws[1..][i - 1 := pc];
      TakersUpdate(ws[1..], i - 1, pc);
    }
  }

  lemma TakersBound(ws: seq<Pc>)
    ensures Takers(ws) <= |ws|
  {
  }

  ghost predicate LockInv(s: State) {
    && (forall i :: 0 <= i < |s.workers| ==> (HoldsState(s.workers[i]) <==> s.stateLock == Held(i)))
    && (s.stateLock.Held? ==> s.stateLock.id < |s.workers|)
  }

  /** Stands between acquiring and releasing runway `rw`. */
  predicate Occupies(pc: Pc, rw: Runway) {
    match pc
    case LoopTest | QuickCheck | TryOne | TryTwo | ExitTest | SendTerm | Done => false
    case _ => pc.rw == rw
  }

  function RunwayHolder(s: State, rw: Runway): Holder { if rw.One? then s.runway1 else s.runway2 }

  ghost predicate RunwayInv(s: State, rw: Runway) {
    && (forall i :: 0 <= i < |s.workers| ==> (Occupies(s.workers[i], rw) <==> RunwayHolder(s, rw) == Held(i)))
    && (RunwayHolder(s, rw).Held? ==> RunwayHolder(s, rw).id < |s.workers|)
  }

  function Gone(ws: seq<Pc>): nat {
    if ws == [] then 0 else (if ws[0].Done? then 1 else 0) + Gone(ws[1..])
  }

  function Critical(s: State): Pc {
    if s.stateLock.Held? && s.stateLock.id < |s.workers| then s.workers[s.stateLock.id] else LoopTest
  }

  /** Takeoffs announced so far; a batch is announced to radio first and to ground second. */
  ghost predicate BatchInv(c: Config, s: State, pc: Pc) {
    match pc
    case IncTotal(_) =>
      s.total + 1 == c.batch * s.toRadio + s.takeoffs && 1 <= s.takeoffs <= c.batch && s.toGround == s.toRadio
    case BatchTest(_) =>
      s.total == c.batch * s.toRadio + s.takeoffs && 1 <= s.takeoffs <= c.batch && s.toGround == s.toRadio
    case SignalRadio(_) =>
      s.total == c.batch * s.toRadio + s.takeoffs && s.takeoffs == c.batch && s.toGround == s.toRadio
    case SignalGround(_) => s.total == c.batch * s.toRadio && s.toRadio == s.toGround + 1
    case ResetTakeoffs(_) => s.total == c.batch * s.toRadio && s.toGround == s.toRadio
    case _ =>
      s.total == c.batch * s.toRadio + s.takeoffs && 0 <= s.takeoffs < c.batch && s.toGround == s.toRadio
  }

  ghost predicate Inv(c: Config, s: State) {
    && |s.workers| == c.threads && LockInv(s) && RunwayInv(s, One) && RunwayInv(s, Two)
    && s.terms == Gone(s.workers)
    && s.total + Counters(s.workers) <= c.limit + c.threads - 1
    && s.planes - Takers(s.workers) >= 1 - c.threads
    && BatchInv(c, s, Critical(s))
    && (forall i :: 0 <= i < |s.workers| && Leaving(s.workers[i]) ==> s.total >= c.limit)
  }

  lemma InitInv(c: Config)
    requires c.Valid()
    ensures Inv(c, Init(c))
  {
    NobodyStarted(Init(c).workers);
  }

  lemma {:induction false} NobodyStarted(ws: seq<Pc>)
    requires forall i :: 0 <= i < |ws| ==> ws[i] == LoopTest
    ensures Counters(ws) == 0 && Takers(ws) == 0 && Gone(ws) == 0
  {
    if ws != [] {
      NobodyStarted(ws[1..]);
    }
  }

  lemma {:induction false} GoneUpdate(ws: seq<Pc>, i: nat, pc: Pc)
    requires i < |ws|
    ensures Gone(ws[i := pc]) == Gone(ws) - (if ws[i].Done? then 1 else 0) + (if pc.Done? then 1 else 0)
  {
    if i == 0 {
      assert ws[i := pc][1..] == ws[1..];
    } else {
      assert ws[i := pc][1..] == ws[1..][i - 1 := pc];
      GoneUpdate(ws[1..], i - 1, pc);
    }
  }

  /** Every controller that leaves sends one SIGTERM. */
  lemma WorkCountsTerms(c: Config, s: State, i: nat)
    requires WorkerEnabled(s, i) && s.terms == Gone(s.workers)
    requires s.workers[i].ExitTest? ==> s.total >= c.limit
    ensures var t := Step(c, s, Work(i)); t.terms == Gone(t.workers)
  {
    GoneUpdate(s.workers, i, NextPc(c, s, s.workers[i]));
  }

  lemma RunwayMoves(c: Config, s: State, i: nat, pc: Pc, rw: Runway)
    requires Occupies(pc, rw) ==> RunwayHolder(s, rw) == Held(i)
    ensures var h, next := RunwayHolder(Effect(s, i, pc), rw), NextPc(c, s, pc);
            && (Occupies(pc, rw) == Occupies(next, rw) ==> h == RunwayHolder(s, rw))
            && (!Occupies(pc, rw) && Occupies(next, rw) ==> RunwayHolder(s, rw) == Free && h == Held(i))
            && (Occupies(pc, rw) && !Occupies(next, rw) ==> h == Free)
  {
  }

  lemma WorkKeepsRunway(c: Config, s: State, i: nat, rw: Runway)
    requires RunwayInv(s, rw) && WorkerEnabled(s, i)
    ensures RunwayInv(Step(c, s, Work(i)), rw)
  {
    RunwayMoves(c, s, i, s.workers[i], rw);
  }

  lemma WorkKeepsLocks(c: Config, s: State, i: nat)
    requires LockInv(s) && WorkerEnabled(s, i)
    ensures LockInv(Step(c, s, Work(i)))
    ensures HoldsState(s.workers[i]) ==> Critical(s) == s.workers[i]
    ensures !HoldsState(s.workers[i]) && !s.workers[i].WaitState? ==> Critical(Step(c, s, Work(i))) == Critical(s)
    ensures s.workers[i].WaitState? ==> Critical(s) == LoopTest
    ensures var t := Step(c, s, Work(i));
            HoldsState(t.workers[i]) ==> Critical(t) == t.workers[i]
    ensures s.workers[i].UnlockState? ==> Critical(Step(c, s, Work(i))) == LoopTest
  {
    var pc := s.workers[i];
    var t := Step(c, s, Work(i));
    assert t.workers == s.workers[i := NextPc(c, s, pc)];
    if HoldsState(pc) {
      assert s.stateLock == Held(i);
    }
  }

  lemma WorkKeepsBatch(c: Config, s: State, i: nat, pc: Pc)
    requires c.Valid() && HoldsState(pc) && BatchInv(c, s, pc)
    ensures var next := NextPc(c, s, pc);
            BatchInv(c, Effect(s, i, pc), if HoldsState(next) then next else LoopTest)
  {
    if pc.SignalRadio? {
      assert c.batch * (s.toRadio + 1) == c.batch * s.toRadio + c.batch;
    }
  }

  lemma OthersKeepBatch(s: State, i: nat, pc: Pc)
    requires !HoldsState(pc)
    ensures var t := Effect(s, i, pc);
            && t.planes == s.planes && t.total == s.total && t.takeoffs == s.takeoffs
            && t.toRadio == s.toRadio && t.toGround == s.toGround
  {
  }

  lemma CountMoves(c: Config, s: State, i: nat, pc: Pc)
    ensures var t, next := Effect(s, i, pc), NextPc(c, s, pc);
            && t.total == s.total + (if pc.IncTotal? then 1 else 0)
            && t.planes == s.planes - (if pc.DecPlanes? then 1 else 0)
            && (!MayCount(pc) && MayCount(next) ==> s.total < c.limit)
            && (!MayTake(pc) && MayTake(next) ==> s.planes >= 1)
            && (Leaving(next) ==> Leaving(pc) || s.total >= c.limit)
  {
  }

  lemma WorkKeepsInv(c: Config, s: State, i: nat)
    requires c.Valid() && Inv(c, s) && WorkerEnabled(s, i)
    ensures Inv(c, Step(c, s, Work(i)))
  {
    var pc := s.workers[i];
    var t := Step(c, s, Work(i));
    WorkKeepsLocks(c, s, i);
    CountMoves(c, s, i, pc);
    CountersUpdate(s.workers, i, NextPc(c, s, pc));
    CountersBound(t.workers);
    TakersUpdate(s.workers, i, NextPc(c, s, pc));
    TakersBound(t.workers);
    WorkKeepsRunway(c, s, i, One);
    WorkKeepsRunway(c, s, i, Two);
    WorkCountsTerms(c, s, i);
    assert BatchInv(c, t, Critical(t)) by {
      if HoldsState(pc) {
        WorkKeepsBatch(c, s, i, pc);
      } else {
        OthersKeepBatch(s, i, pc);
      }
    }
  }

  lemma StepKeepsInv(c: Config, s: State, a: Action)
    requires c.Valid() && Inv(c, s) && Enabled(s, a)
    ensures Inv(c, Step(c, s, a))
  {
    if a.Work? {
      WorkKeepsInv(c, s, a.i);
    }
  }

  lemma {:induction false} RunKeepsInv(c: Config, s: State, run: seq<Action>, t: State)
    requires c.Valid() && Inv(c, s) && Leads(c, s, run, t)
    ensures Inv(c, t)
    decreases |run|
  {
    if run != [] {
      StepKeepsInv(c, s, run[0]);
      RunKeepsInv(c, Step(c, s, run[0]), run[1..], t);
    }
  }

  lemma ReachableInv(c: Config, s: State)
    requires c.Valid() && Reachable(c, s)
    ensures Inv(c, s)
  {
    var run :| Leads(c, Init(c), run, s);
    InitInv(c);
    RunKeepsInv(c, Init(c), run, s);
  }
}
