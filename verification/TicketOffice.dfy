/** The ticket office and its buyers over shared memory. */
module TicketOffice {
  // Every access is made under the mutex, so a run is any interleaving of whole critical sections: attempts of the
  // buyers, polls and reports of the office.

  const TICKETS: int := 100
  const LOG_SIZE: int := 100
  const MOST_AT_ONCE: int := 5
  const LAST_POLL: int := 5

  /** `overrun` records a write outside `log`; no step looks at it. */
  datatype Memory = Memory(available: int, log: seq<int>, transactions: int, overrun: bool)

  datatype Report = Report(available: int, transactions: int)

  datatype Office = Polling | Reporting | Closed

  /** `buyers[b]` says that buyer `b` has not left yet. */
  datatype State = State(memory: Memory, buyers: seq<bool>, office: Office, soldOut: nat, reports: seq<Report>)

  datatype Event = Attempt(buyer: nat, tickets: int) | Poll | WriteReport

  function Initialized(): Memory {
    Memory(TICKETS, seq(LOG_SIZE, i => 0), 0, false)
  }

  function Init(buyers: nat): State {
    State(Initialized(), seq(buyers, i => true), Polling, 0, [])
  }

  function Sell(m: Memory, tickets: int): Memory {
    if m.available < tickets then m
    else
      var fits := 0 <= m.transactions < |m.log|;
      Memory(m.available - tickets, if fits then m.log[m.transactions := tickets] else m.log,
             m.transactions + 1, m.overrun || !fits)
  }

  predicate Enabled(s: State, e: Event) {
    match e
    case Attempt(b, n) => b < |s.buyers| && s.buyers[b] && 1 <= n <= MOST_AT_ONCE
    case Poll => s.office.Polling?
    case WriteReport => s.office.Reporting?
  }

  function AfterPoll(s: State): State {
    if s.memory.available != 0 then s.(soldOut := 0, office := Reporting)
    else s.(soldOut := s.soldOut + 1, office := if s.soldOut + 1 >= LAST_POLL then Closed else Reporting)
  }

  function Step(s: State, e: Event): State
    requires Enabled(s, e)
  {
    match e
    case Attempt(b, n) =>
      if s.memory.available == 0 then s.(buyers := s.buyers[b := false])
      else s.(memory := Sell(s.memory, n))
    case Poll => AfterPoll(s)
    case WriteReport =>
      s.(reports := s.reports + [Report(s.memory.available, s.memory.transactions)], office := Polling)
  }

  ghost predicate Leads(s: State, run: seq<Event>, t: State)
    decreases |run|
  {
    if run == [] then s == t
    else Enabled(s, run[0]) && Leads(Step(s, run[0]), run[1..], t)
  }

  ghost predicate Reachable(buyers: nat, s: State) {
    exists run :: Leads(Init(buyers), run, s)
  }

  // ---------- conservation ----------

  function Sum(s: seq<int>): int {
    if s == [] then 0 else Sum(s[..|s| - 1]) + s[|s| - 1]
  }

  ghost predicate Sale(n: int) { n >= 1 }

  /** The tickets sold are those in the log, and only as many log entries are used as there were sales. */
  ghost predicate Conserved(m: Memory) {
    && |m.log| == LOG_SIZE && 0 <= m.transactions <= LOG_SIZE && m.available >= 0 && !m.overrun
    && m.available + Sum(m.log[..m.transactions]) == TICKETS
    && (forall i :: 0 <= i < m.transactions ==> Sale(m.log[i]))
    && (forall i :: m.transactions <= i < LOG_SIZE ==> m.log[i] == 0)
  }

  /** No purchase in the log is larger than the buyers' loop asks for. */
  ghost predicate Modest(m: Memory) {
    0 <= m.transactions <= |m.log| && forall i :: 0 <= i < m.transactions ==> m.log[i] <= MOST_AT_ONCE
  }

  lemma {:induction false} SalesSum(s: seq<int>)
    ensures (forall i :: 0 <= i < |s| ==> Sale(s[i])) ==> |s| <= Sum(s)
    ensures (forall i :: 0 <= i < |s| ==> s[i] <= MOST_AT_ONCE) ==> Sum(s) <= MOST_AT_ONCE * |s|
  {
    if s != [] {
      SalesSum(s[..|s| - 1]);
    }
  }

  /** Tickets sold and transactions bound each other. */
  lemma TransactionBounds(m: Memory)
    requires Conserved(m)
    ensures m.transactions <= TICKETS - m.available
    ensures Modest(m) ==> TICKETS - m.available <= MOST_AT_ONCE * m.transactions
  {
    SalesSum(m.log[..m.transactions]);
  }

  /** A sale always finds room in the log: this is what keeps the write inside it. */
  lemma RoomForSale(m: Memory, n: int)
    requires Conserved(m) && Sale(n) && m.available >= n
    ensures m.transactions < LOG_SIZE
  {
    TransactionBounds(m);
  }

  lemma SellConserves(m: Memory, n: int)
    requires Conserved(m) && Sale(n)
    ensures Conserved(Sell(m, n))
    ensures Modest(m) && n <= MOST_AT_ONCE ==> Modest(Sell(m, n))
  {
    if m.available >= n {
      RoomForSale(m, n);
      var after, k := Sell(m, n), m.transactions;
      assert after.log[..k + 1][..k] == m.log[..k];
      assert after.log[..k + 1][k] == n;
    }
  }

  // ---------- which requests the log survives ----------

  /** The purchases of `ns`, one after the other. */
  function SellAll(m: Memory, ns: seq<int>): Memory {
    if ns == [] then m else Sell(SellAll(m, ns[..|ns| - 1]), ns[|ns| - 1])
  }

  /** All requests are taken from `allowed`. */
  ghost predicate RequestsFrom(allowed: iset<int>, ns: seq<int>) {
    forall i :: 0 <= i < |ns| ==> ns[i] in allowed
  }

  lemma {:induction false} PositiveSalesConserve(m: Memory, ns: seq<int>)
    requires Conserved(m) && forall i :: 0 <= i < |ns| ==> Sale(ns[i])
    ensures Conserved(SellAll(m, ns))
  {
    if ns != [] {
      PositiveSalesConserve(m, ns[..|ns| - 1]);
      SellConserves(SellAll(m, ns[..|ns| - 1]), ns[|ns| - 1]);
    }
  }

  function Repeat(n: int, k: nat): (ns: seq<int>)
    ensures |ns| == k && forall i :: 0 <= i < k ==> ns[i] == n
  {
    seq(k, i => n)
  }

  /** A purchase of nothing always goes through, and takes up an entry of the log each time. */
  lemma {:induction false} EmptySalesCount(n: int, k: nat)
    requires n <= 0
    ensures var m := SellAll(Initialized(), Repeat(n, k));
            m.transactions == k && m.available >= TICKETS && |m.log| == LOG_SIZE && (m.overrun <==> k > LOG_SIZE)
  {
    if k > 0 {
      assert Repeat(n, k)[..k - 1] == Repeat(n, k - 1);
      EmptySalesCount(n, k - 1);
    }
  }

  /** The log survives every run of purchases of allowed sizes exactly when all of these are positive. */
  lemma LogSurvivesIff(allowed: iset<int>)
    ensures (forall ns :: RequestsFrom(allowed, ns) ==> !SellAll(Initialized(), ns).overrun) <==>
            forall n :: n in allowed ==> n >= 1
  {
    if n :| n in allowed && n < 1 {
      EmptySalesCount(n, LOG_SIZE + 1);
      assert RequestsFrom(allowed, Repeat(n, LOG_SIZE + 1));
    } else {
      InitInv(0);
      forall ns | RequestsFrom(allowed, ns) ensures !SellAll(Initialized(), ns).overrun {
        PositiveSalesConserve(Initialized(), ns);
      }
    }
  }

  /** The input that overruns it: nothing, bought 101 times. */
  lemma NothingOverruns()
    ensures SellAll(Initialized(), Repeat(0, 101)).overrun && !SellAll(Initialized(), Repeat(0, 100)).overrun
  {
    EmptySalesCount(0, 101);
    EmptySalesCount(0, 100);
  }

  // ---------- invariant ----------

  function SoldOutReports(r: seq<Report>): nat {
    if r == [] then 0 else SoldOutReports(r[..|r| - 1]) + if r[|r| - 1].available == 0 then 1 else 0
  }

  ghost predicate Honest(r: Report) {
    0 <= r.available && r.transactions <= TICKETS - r.available <= MOST_AT_ONCE * r.transactions
  }

  /** Sold-out polls that were followed by their report. */
  function ReportedPolls(s: State): int {
    if s.office.Closed? then LAST_POLL - 1
    else if s.office.Reporting? && s.soldOut > 0 then s.soldOut - 1
    else s.soldOut
  }

  ghost predicate Inv(buyers: nat, s: State) {
    && Conserved(s.memory) && Modest(s.memory) && |s.buyers| == buyers
    && (buyers == 0 ==> s.memory.available == TICKETS)
    && (forall b :: 0 <= b < buyers && !s.buyers[b] ==> s.memory.available == 0)
    && (s.soldOut > 0 ==> s.memory.available == 0)
    && s.soldOut <= LAST_POLL && (s.office.Closed? <==> s.soldOut == LAST_POLL)
    && (forall i :: 0 <= i < |s.reports| ==> Honest(s.reports[i]))
    && 0 <= SoldOutReports(s.reports) - ReportedPolls(s) <= 1
    && (SoldOutReports(s.reports) > 0 ==> s.memory.available == 0)
    && (s.office.Reporting? && s.soldOut == 0 ==> SoldOutReports(s.reports) == 0)
  }

  lemma InitInv(buyers: nat)
    ensures Inv(buyers, Init(buyers))
  {
    assert Initialized().log[..0] == [];
  }

  lemma AttemptKeepsInv(buyers: nat, s: State, b: nat, n: int)
    requires Inv(buyers, s) && Enabled(s, Attempt(b, n))
    ensures Inv(buyers, Step(s, Attempt(b, n)))
  {
    SellConserves(s.memory, n);
  }

  lemma ReportKeepsInv(buyers: nat, s: State)
    requires Inv(buyers, s) && Enabled(s, WriteReport)
    ensures Inv(buyers, Step(s, WriteReport))
  {
    TransactionBounds(s.memory);
    assert Step(s, WriteReport).reports[..|s.reports|] == s.reports;
  }

  lemma StepKeepsInv(buyers: nat, s: State, e: Event)
    requires Inv(buyers, s) && Enabled(s, e)
    ensures Inv(buyers, Step(s, e))
  {
    match e
    case Attempt(b, n) => AttemptKeepsInv(buyers, s, b, n);
    case Poll =>
    case WriteReport => ReportKeepsInv(buyers, s);
  }

  lemma {:induction false} RunKeepsInv(buyers: nat, s: State, run: seq<Event>, t: State)
    requires Inv(buyers, s) && Leads(s, run, t)
    ensures Inv(buyers, t)
    decreases |run|
  {
    if run != [] {
      StepKeepsInv(buyers, s, run[0]);
      RunKeepsInv(buyers, Step(s, run[0]), run[1..], t);
    }
  }

  lemma ReachableInv(buyers: nat, s: State)
    requires Reachable(buyers, s)
    ensures Inv(buyers, s)
  {
    var run :| Leads(Init(buyers), run, s);
    InitInv(buyers);
    RunKeepsInv(buyers, Init(buyers), run, s);
  }

  // ---------- main results ----------

  /** Over any run: no ticket is lost or sold twice, and no log entry is written outside the log. */
  lemma TicketsAreConserved(buyers: nat, s: State)
    requires Reachable(buyers, s)
    ensures var m := s.memory;
            && 0 <= m.transactions <= |m.log| == LOG_SIZE && !m.overrun
            && m.available + Sum(m.log[..m.transactions]) == TICKETS
            && 0 <= m.transactions <= TICKETS - m.available <= MOST_AT_ONCE * m.transactions
    ensures forall r <- s.reports :: r.transactions <= TICKETS - r.available <= MOST_AT_ONCE * r.transactions
  {
    ReachableInv(buyers, s);
    TransactionBounds(s.memory);
  }

  /** Tickets never come back, and sold-out polls are never taken back. */
  lemma {:induction false} NeverReset(buyers: nat, s: State, run: seq<Event>, t: State)
    requires Inv(buyers, s) && Leads(s, run, t)
    ensures t.memory.available <= s.memory.available
    ensures t.soldOut >= s.soldOut && t.memory.transactions >= s.memory.transactions
    decreases |run|
  {
    if run != [] {
      StepKeepsInv(buyers, s, run[0]);
      NeverReset(buyers, Step(s, run[0]), run[1..], t);
    }
  }

  /** The office closes only when everything is sold, after four or five reports that say so. */
  lemma ClosedMeansSoldOut(buyers: nat, s: State)
    requires Reachable(buyers, s) && s.office.Closed?
    ensures var m := s.memory;
            && m.available == 0 && 20 <= m.transactions <= |m.log| == 100
            && Sum(m.log[..m.transactions]) == TICKETS
    ensures 4 <= SoldOutReports(s.reports) <= 5
  {
    ReachableInv(buyers, s);
    TransactionBounds(s.memory);
  }

  /** A buyer who left will find nothing on coming back. */
  lemma BuyersLeaveWhenSoldOut(buyers: nat, s: State, b: nat)
    requires Reachable(buyers, s) && b < |s.buyers| && !s.buyers[b]
    ensures s.memory.available == 0
  {
    ReachableInv(buyers, s);
  }

  lemma {:induction false} Extend(s: State, run: seq<Event>, t: State, e: Event)
    requires Leads(s, run, t) && Enabled(t, e)
    ensures Leads(s, run + [e], Step(t, e))
    decreases |run|
  {
    if run == [] {
      assert (run + [e])[1..] == [];
    } else {
      Extend(Step(s, run[0]), run[1..], t, e);
      assert (run + [e])[1..] == run[1..] + [e];
    }
  }

  lemma StepReachable(buyers: nat, s: State, e: Event)
    requires Reachable(buyers, s) && Enabled(s, e)
    ensures Reachable(buyers, Step(s, e))
  {
    var run :| Leads(Init(buyers), run, s);
    Extend(Init(buyers), run, s, e);
  }

  /** From everywhere, with a buyer at all, some schedule closes the office. */
  lemma {:induction false} RunToClosing(buyers: nat, s: State) returns (run: seq<Event>, t: State)
    requires Reachable(buyers, s) && buyers >= 1
    ensures Leads(s, run, t) && Reachable(buyers, t) && t.office.Closed?
    decreases s.memory.available, LAST_POLL - s.soldOut, if s.office.Reporting? then 1 else 0
  {
    ReachableInv(buyers, s);
    if s.office.Closed? {
      run, t := [], s;
    } else {
      var e := if s.memory.available > 0 then Attempt(0, 1) else if s.office.Polling? then Poll else WriteReport;
      StepReachable(buyers, s, e);
      ReachableInv(buyers, Step(s, e));
      run, t := RunToClosing(buyers, Step(s, e));
      run := [e] + run;
    }
  }

  /** The office can close exactly when there is a buyer. */
  lemma ClosesIff(buyers: nat)
    ensures (exists s :: Reachable(buyers, s) && s.office.Closed?) <==> buyers >= 1
  {
    if s :| Reachable(buyers, s) && s.office.Closed? {
      ReachableInv(buyers, s);
    }
    if buyers >= 1 {
      assert Leads(Init(buyers), [], Init(buyers));
      var run, t := RunToClosing(buyers, Init(buyers));
    }
  }

  /** The log is not larger than it has to be: single tickets fill any part of it. */
  lemma {:induction false} SinglesFillLog(buyers: nat, k: nat) returns (s: State)
    requires buyers >= 1 && k <= LOG_SIZE
    ensures Reachable(buyers, s) && s.memory.transactions == k && s.memory.available == TICKETS - k
    ensures s.buyers == Init(buyers).buyers
  {
    if k == 0 {
      s := Init(buyers);
      assert Leads(s, [], s);
    } else {
      s := SinglesFillLog(buyers, k - 1);
      StepReachable(buyers, s, Attempt(0, 1));
      s := Step(s, Attempt(0, 1));
    }
  }
}
