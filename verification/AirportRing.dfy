/**
 The airport ring: ground control, the radio relay and the Python air control with its pool of
 controller threads, as one transition system.

 Planes travel ground -> radio -> air as SIGUSR2 and takeoffs travel air -> radio -> ground as
 SIGUSR1.  Every process keeps one pending bit per signal, so a signal sent while the same signal
 is still pending is lost.  One step is one access to shared state: a read, a write, a lock
 operation, a `kill`, or the start of a signal handler.  Any process may take the next step.
 */
module AirportRing {

  /** `threads` controllers, `limit` takeoffs, `batch` planes per signal, `supply` planes in all. */
  datatype Config = Config(threads: nat, limit: nat, batch: nat, supply: nat)
  {
    ghost predicate Valid() {
      threads >= 1 && limit >= 1 && batch >= 1 && supply % batch == 0
    }
  }

  datatype Holder = Nobody | Controller(id: nat) | MainThread

  datatype Runway = One | Two

  /** Where a controller thread stands in `takeoff_worker`; the comment gives the source line. */
  datatype Pc =
    | LoopTest                                // 67: reads total_takeoffs without a lock
    | QuickCheck                              // 69: reads planes without a lock
    | TryOne                                  // 76: try-lock on the first runway
    | TryTwo                                  // 78: try-lock on the second runway
    | WaitState(rw: Runway)                   // 86: acquires state_lock
    | Recheck(rw: Runway)                     // 88: reads planes again
    | ReleaseEarly(rw: Runway)                // 90-93: gives the runway back
    | UnlockEarly                             // 94: leaves the `with` block
    | ReadPlanes(rw: Runway)                  // 97: load of `planes -= 1`
    | WritePlanes(rw: Runway, seen: int)      // 97: store
    | ReadTakeoffs(rw: Runway)                // 98: load of `takeoffs += 1`
    | WriteTakeoffs(rw: Runway, seen: int)    // 98: store
    | ReadTotal(rw: Runway)                   // 99: load of `total_takeoffs += 1`
    | WriteTotal(rw: Runway, seen: int)       // 99: store
    | BatchTest(rw: Runway)                   // 102
    | SignalRadio(rw: Runway)                 // 106: SIGUSR1 to radio
    | ResetTakeoffs(rw: Runway)               // 107
    | UnlockState(rw: Runway)                 // end of the `with` block
    | Airborne(rw: Runway)                    // 110-116: sleeps, then releases the runway
    | WaitExit                                // 119: acquires state_lock
    | ExitTest                                // 120
    | SendTerm                                // 123: SIGTERM to radio
    | UnlockExit                              // end of the `with` block
    | Done

  /** Where the main thread stands in `sigusr2_handler`. */
  datatype HandlerPc = Idle | WaitLock | ReadCount | WriteCount(seen: int) | Unlock

  datatype Radio = Radio(
    planes: int, takeoffs: int,
    usr1: bool, usr2: bool, term: bool,       // pending signals
    inUsr1: bool, inUsr2: bool,               // counted, but the onward signal is not sent yet
    alive: bool)

  datatype TrafficPc = Waiting | Counted | Sending

  datatype Ground = Ground(
    planes: int, takeoffs: int, traffic: int, pc: TrafficPc,
    usr1: bool, term: bool, alive: bool)

  /** What happened so far.  No step looks at it. */
  datatype History = History(
    handlerRuns: nat,          // completed `planes += batch` in air control
    batchSignals: nat,         // SIGUSR1 sent by air control
    planesDelivered: nat,      // planes added by those handler runs
    takeoffsSignalled: nat,    // takeoffs announced by those signals
    planesLostAtRadio: nat, planesLostAtAir: nat,          // planes whose SIGUSR2 merged or hit a dead process
    takeoffsLostAtRadio: nat, takeoffsLostAtGround: nat)   // takeoffs whose SIGUSR1 did

  datatype State = State(
    planes: int, takeoffs: int, total: int,
    stateLock: Holder, runway1: Holder, runway2: Holder,
    workers: seq<Pc>, handler: HandlerPc, airUsr2: bool,
    radio: Radio, ground: Ground, history: History)

  function Init(c: Config): State {
    State(0, 0, 0, Nobody, Nobody, Nobody,
          seq(c.threads, i => LoopTest), Idle, false,
          Radio(0, 0, false, false, false, false, false, true),
          Ground(0, 0, 0, Waiting, false, false, true),
          History(0, 0, 0, 0, 0, 0, 0, 0))
  }

  // ---------- kill(2) with pending bits ----------

  function KillRadioUsr1(c: Config, s: State): State {
    if s.radio.alive && !s.radio.usr1 then s.(radio := s.radio.(usr1 := true))
    else s.(history := s.history.(takeoffsLostAtRadio := s.history.takeoffsLostAtRadio + c.batch))
  }

  function KillRadioUsr2(c: Config, s: State): State {
    if s.radio.alive && !s.radio.usr2 then s.(radio := s.radio.(usr2 := true))
    else s.(history := s.history.(planesLostAtRadio := s.history.planesLostAtRadio + c.batch))
  }

  function KillRadioTerm(s: State): State {
    if s.radio.alive then s.(radio := s.radio.(term := true)) else s
  }

  function KillAirUsr2(c: Config, s: State): State {
    if !s.airUsr2 then s.(airUsr2 := true)
    else s.(history := s.history.(planesLostAtAir := s.history.planesLostAtAir + c.batch))
  }

  function KillGroundUsr1(c: Config, s: State): State {
    if s.ground.alive && !s.ground.usr1 then s.(ground := s.ground.(usr1 := true))
    else s.(history := s.history.(takeoffsLostAtGround := s.history.takeoffsLostAtGround + c.batch))
  }

  function KillGroundTerm(s: State): State {
    if s.ground.alive then s.(ground := s.ground.(term := true)) else s
  }

  // ---------- the controller threads ----------

  function RunwayHolder(s: State, rw: Runway): Holder {
    if rw.One? then s.runway1 else s.runway2
  }

  function SetRunway(s: State, rw: Runway, h: Holder): State {
    if rw.One? then s.(runway1 := h) else s.(runway2 := h)
  }

  /** Only waiting for `state_lock` can block a controller; try-locks and reads never do. */
  predicate WorkerEnabled(s: State, i: nat) {
    i < |s.workers| && !s.workers[i].Done? &&
    ((s.workers[i].WaitState? || s.workers[i].WaitExit?) ==> s.stateLock.Nobody?)
  }

  /** Where a controller at `pc` goes next; every branch it takes is decided by what it reads now. */
  function NextPc(c: Config, s: State, pc: Pc): Pc {
    match pc
    case LoopTest => if s.total < c.limit then QuickCheck else WaitExit
    case QuickCheck => if s.planes <= 0 then LoopTest else TryOne
    case TryOne => if s.runway1.Nobody? then WaitState(One) else TryTwo
    case TryTwo => if s.runway2.Nobody? then WaitState(Two) else LoopTest
    case WaitState(rw) => Recheck(rw)
    case Recheck(rw) => if s.planes <= 0 then ReleaseEarly(rw) else ReadPlanes(rw)
    case ReleaseEarly(rw) => UnlockEarly
    case UnlockEarly => LoopTest
    case ReadPlanes(rw) => WritePlanes(rw, s.planes)
    case WritePlanes(rw, seen) => ReadTakeoffs(rw)
    case ReadTakeoffs(rw) => WriteTakeoffs(rw, s.takeoffs)
    case WriteTakeoffs(rw, seen) => ReadTotal(rw)
    case ReadTotal(rw) => WriteTotal(rw, s.total)
    case WriteTotal(rw, seen) => BatchTest(rw)
    case BatchTest(rw) => if s.takeoffs == c.batch then SignalRadio(rw) else UnlockState(rw)
    case SignalRadio(rw) => ResetTakeoffs(rw)
    case ResetTakeoffs(rw) => UnlockState(rw)
    case UnlockState(rw) => Airborne(rw)
    case Airborne(rw) => LoopTest
    case WaitExit => ExitTest
    case ExitTest => if s.total >= c.limit then SendTerm else UnlockExit
    case SendTerm => UnlockExit
    case UnlockExit => Done
    case Done => Done
  }

  function CountBatch(c: Config, s: State): State {
    s.(history := s.history.(batchSignals := s.history.batchSignals + 1,
                             takeoffsSignalled := s.history.takeoffsSignalled + c.batch))
  }

  /** What controller `i`, standing at `pc`, does to the shared state. */
  function Effect(c: Config, s: State, i: nat, pc: Pc): State {
    match pc
    case TryOne => if s.runway1.Nobody? then s.(runway1 := Controller(i)) else s
    case TryTwo => if s.runway2.Nobody? then s.(runway2 := Controller(i)) else s
    case WaitState(rw) => s.(stateLock := Controller(i))
    case ReleaseEarly(rw) => SetRunway(s, rw, Nobody)
    case UnlockEarly => s.(stateLock := Nobody)
    case WritePlanes(rw, seen) => s.(planes := seen - 1)
    case WriteTakeoffs(rw, seen) => s.(takeoffs := seen + 1)
    case WriteTotal(rw, seen) => s.(total := seen + 1)
    case SignalRadio(rw) => KillRadioUsr1(c, CountBatch(c, s))
    case ResetTakeoffs(rw) => s.(takeoffs := 0)
    case UnlockState(rw) => s.(stateLock := Nobody)
    case Airborne(rw) => SetRunway(s, rw, Nobody)
    case WaitExit => s.(stateLock := Controller(i))
    case SendTerm => KillRadioTerm(s)
    case UnlockExit => s.(stateLock := Nobody)
    case _ => s
  }

  function WorkerStep(c: Config, s: State, i: nat): State
    requires WorkerEnabled(s, i)
  {
    Effect(c, s, i, s.workers[i]).(workers := s.workers[i := NextPc(c, s, s.workers[i])])
  }

  // ---------- air control's SIGUSR2 handler, on the main thread ----------

  predicate HandlerEnabled(s: State) {
    match s.handler
    case Idle => s.airUsr2
    case WaitLock => s.stateLock.Nobody?
    case _ => true
  }

  function HandlerStep(c: Config, s: State): State
    requires HandlerEnabled(s)
  {
    match s.handler
    case Idle => s.(airUsr2 := false, handler := WaitLock)
    case WaitLock => s.(stateLock := MainThread, handler := ReadCount)
    case ReadCount => s.(handler := WriteCount(s.planes))
    case WriteCount(seen) =>
      s.(planes := seen + c.batch, handler := Unlock,
         history := s.history.(handlerRuns := s.history.handlerRuns + 1,
                               planesDelivered := s.history.planesDelivered + c.batch))
    case Unlock => s.(stateLock := Nobody, handler := Idle)
  }

  // ---------- radio: both relays count first and send on afterwards ----------

  function RadioCountUsr1(c: Config, s: State): State {
    s.(radio := s.radio.(usr1 := false, inUsr1 := true, takeoffs := s.radio.takeoffs + c.batch))
  }

  function RadioRelayUsr1(c: Config, s: State): State {
    KillGroundUsr1(c, s.(radio := s.radio.(inUsr1 := false)))
  }

  function RadioCountUsr2(c: Config, s: State): State {
    s.(radio := s.radio.(usr2 := false, inUsr2 := true, planes := s.radio.planes + c.batch))
  }

  function RadioRelayUsr2(c: Config, s: State): State {
    KillAirUsr2(c, s.(radio := s.radio.(inUsr2 := false)))
  }

  function RadioTerm(s: State): State {
    KillGroundTerm(s.(radio := s.radio.(term := false, alive := false)))
  }

  // ---------- ground control: the timer handler and the takeoff counter ----------

  function Tick(s: State): State {
    s.(ground := s.ground.(pc := Counted, traffic := s.ground.planes - s.ground.takeoffs))
  }

  function AdmitBatch(c: Config, s: State): State {
    if s.ground.planes < c.supply
    then s.(ground := s.ground.(pc := Sending, planes := s.ground.planes + c.batch))
    else s.(ground := s.ground.(pc := Waiting))
  }

  function Dispatch(c: Config, s: State): State {
    KillRadioUsr2(c, s.(ground := s.ground.(pc := Waiting)))
  }

  function GroundCount(c: Config, s: State): State {
    s.(ground := s.ground.(usr1 := false, takeoffs := s.ground.takeoffs + c.batch))
  }

  function GroundTerm(s: State): State {
    s.(ground := s.ground.(term := false, alive := false))
  }

  // ---------- the whole ring ----------

  datatype Action =
    | Work(i: nat) | Handle
    | CountUsr1 | RelayUsr1 | CountUsr2 | RelayUsr2 | StopRadio
    | Timer | Admit | Announce | CountTakeoffs | StopGround

  predicate Enabled(s: State, a: Action) {
    match a
    case Work(i) => WorkerEnabled(s, i)
    case Handle => HandlerEnabled(s)
    case CountUsr1 => s.radio.alive && s.radio.usr1 && !s.radio.inUsr1
    case RelayUsr1 => s.radio.alive && s.radio.inUsr1
    case CountUsr2 => s.radio.alive && s.radio.usr2 && !s.radio.inUsr2
    case RelayUsr2 => s.radio.alive && s.radio.inUsr2
    case StopRadio => s.radio.alive && s.radio.term
    case Timer => s.ground.alive && s.ground.pc.Waiting?
    case Admit => s.ground.alive && s.ground.pc.Counted?
    case Announce => s.ground.alive && s.ground.pc.Sending?
    case CountTakeoffs => s.ground.alive && s.ground.usr1
    case StopGround => s.ground.alive && s.ground.term
  }

  function Step(c: Config, s: State, a: Action): State
    requires Enabled(s, a)
  {
    match a
    case Work(i) => WorkerStep(c, s, i)
    case Handle => HandlerStep(c, s)
    case CountUsr1 => RadioCountUsr1(c, s)
    case RelayUsr1 => RadioRelayUsr1(c, s)
    case CountUsr2 => RadioCountUsr2(c, s)
    case RelayUsr2 => RadioRelayUsr2(c, s)
    case StopRadio => RadioTerm(s)
    case Timer => Tick(s)
    case Admit => AdmitBatch(c, s)
    case Announce => Dispatch(c, s)
    case CountTakeoffs => GroundCount(c, s)
    case StopGround => GroundTerm(s)
  }

  /** `run` can be executed from `s` and ends in `t`. */
  ghost predicate Leads(c: Config, s: State, run: seq<Action>, t: State)
    decreases |run|
  {
    if run == [] then s == t
    else Enabled(s, run[0]) && Leads(c, Step(c, s, run[0]), run[1..], t)
  }

  ghost predicate CanReach(c: Config, s: State, t: State) {
    exists run :: Leads(c, s, run, t)
  }

  ghost predicate Reachable(c: Config, s: State) {
    CanReach(c, Init(c), s)
  }
}
