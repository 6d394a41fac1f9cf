/** What a run of the ticket office must have left behind, told from its events alone. */
module TicketLedger {
  // The events say who asked for how many tickets, when the office polled and when it reported.  From these, without
  // looking at the shared memory, it follows what was granted, what each report says, who has left and what the
  // office has counted.  Every run is proved to end in just that.

  import opened TicketOffice

  /** The requests that are granted, in order: those for which enough tickets are left. */
  function Granted(run: seq<Event>): (sold: seq<int>) {
    if run == [] then []
    else
      var before := Granted(run[..|run| - 1]);
      match run[|run| - 1]
      case Attempt(_, n) => if n <= 100 - Sum(before) then before + [n] else before
      case _ => before
  }

  predicate SoldOutAfter(run: seq<Event>) { Sum(Granted(run)) == 100 }

  /** Each report names the tickets left and the number of purchases at its time. */
  function Told(run: seq<Event>): seq<Report> {
    if run == [] then []
    else
      var before := run[..|run| - 1];
      if run[|run| - 1].WriteReport?
      then Told(before) + [Report(100 - Sum(Granted(before)), |Granted(before)|)]
      else Told(before)
  }

  /** Buyer `b` has come when nothing was left. */
  predicate CameTooLate(run: seq<Event>, b: nat) {
    run != [] &&
    var before, e := run[..|run| - 1], run[|run| - 1];
    CameTooLate(before, b) || (e.Attempt? && e.buyer == b && SoldOutAfter(before))
  }

  /** The polls that found nothing left. */
  function EmptyPolls(run: seq<Event>): nat {
    if run == [] then 0
    else
      var before := run[..|run| - 1];
      EmptyPolls(before) + if run[|run| - 1].Poll? && SoldOutAfter(before) then 1 else 0
  }

  ghost predicate AsTold(run: seq<Event>, s: State) {
    var m, sold := s.memory, Granted(run);
    && 0 <= m.transactions <= |m.log|
    && m.log[..m.transactions] == sold
    && m.available == 100 - Sum(sold)
    && s.reports == Told(run)
    && (forall b :: 0 <= b < |s.buyers| ==> (s.buyers[b] <==> !CameTooLate(run, b)))
    && s.soldOut == EmptyPolls(run)
    && (s.office.Closed? <==> EmptyPolls(run) == 5)
  }

  lemma SumOneMore(s: seq<int>, n: int)
    ensures Sum(s + [n]) == Sum(s) + n
  {
    assert (s + [n])[..|s|] == s;
  }

  lemma LogOneMore(log: seq<int>, k: nat, n: int)
    requires k < |log|
    ensures log[k := n][..k + 1] == log[..k] + [n]
  {
  }

  lemma AttemptAsTold(buyers: nat, run: seq<Event>, s: State, b: nat, n: int)
    requires Inv(buyers, s) && AsTold(run, s) && Enabled(s, Attempt(b, n))
    ensures AsTold(run + [Attempt(b, n)], Step(s, Attempt(b, n)))
  {
    var m := s.memory;
    assert (run + [Attempt(b, n)])[..|run|] == run;
    if m.available >= n {
      RoomForSale(m, n);
      SumOneMore(Granted(run), n);
      LogOneMore(m.log, m.transactions, n);
    }
  }

  lemma OfficeAsTold(buyers: nat, run: seq<Event>, s: State, e: Event)
    requires Inv(buyers, s) && AsTold(run, s) && Enabled(s, e) && !e.Attempt?
    ensures AsTold(run + [e], Step(s, e))
  {
    assert (run + [e])[..|run|] == run;
    forall b | 0 <= b < |s.buyers| ensures CameTooLate(run + [e], b) <==> CameTooLate(run, b) {
    }
  }

  lemma StepAsTold(buyers: nat, run: seq<Event>, s: State, e: Event)
    requires Inv(buyers, s) && AsTold(run, s) && Enabled(s, e)
    ensures Inv(buyers, Step(s, e)) && AsTold(run + [e], Step(s, e))
  {
    StepKeepsInv(buyers, s, e);
    if e.Attempt? {
      AttemptAsTold(buyers, run, s, e.buyer, e.tickets);
    } else {
      OfficeAsTold(buyers, run, s, e);
    }
  }

  lemma {:induction false} RunAsTold(buyers: nat, done: seq<Event>, s: State, run: seq<Event>, t: State)
    requires Inv(buyers, s) && AsTold(done, s) && Leads(s, run, t)
    ensures AsTold(done + run, t)
    decreases |run|
  {
    if run == [] {
      assert done + run == done;
    } else {
      var e := run[0];
      var more, u := done + [e], Step(s, e);
      StepAsTold(buyers, done, s, e);
      RunAsTold(buyers, more, u, run[1..], t);
      assert more + run[1..] == done + run;
    }
  }

  /**
   Every run leaves what its events tell: the log is the list of the granted requests in order, the tickets left are
   100 less their sum, the reports are those that were due, the buyers who came too late and nobody else have
   left, and the office has closed exactly at its fifth empty poll.
   */
  lemma EveryRunAsTold(buyers: nat, run: seq<Event>, s: State)
    requires Leads(Init(buyers), run, s)
    ensures AsTold(run, s)
  {
    InitInv(buyers);
    RunAsTold(buyers, [], Init(buyers), run, s);
    assert [] + run == run;
  }

  // ---------- going home ----------

  /** The first buyers, up to `k`, have left. */
  ghost predicate LeftUpTo(s: State, k: nat) {
    k <= |s.buyers| && forall b :: 0 <= b < k ==> !s.buyers[b]
  }

  lemma {:induction false} AllLeave(buyers: nat, s: State, k: nat) returns (t: State)
    requires Reachable(buyers, s) && s.memory.available == 0 && k <= |s.buyers| == buyers
    ensures Reachable(buyers, t) && t.office == s.office && t.memory == s.memory && |t.buyers| == buyers
    ensures LeftUpTo(t, k)
  {
    if k == 0 {
      t := s;
    } else {
      t := AllLeave(buyers, s, k - 1);
      if t.buyers[k - 1] {
        StepReachable(buyers, t, Attempt(k - 1, 1));
        t := Step(t, Attempt(k - 1, 1));
      }
    }
  }

  /** The office can close, with everything sold and everybody gone, exactly when there is a buyer. */
  lemma EverybodyGoesHomeIff(buyers: nat)
    ensures (exists s :: Reachable(buyers, s) && s.office.Closed? && LeftUpTo(s, buyers)) <==> buyers >= 1
  {
    ClosesIff(buyers);
    if buyers >= 1 {
      var s :| Reachable(buyers, s) && s.office.Closed?;
      ReachableInv(buyers, s);
      var t := AllLeave(buyers, s, buyers);
      assert LeftUpTo(t, buyers);
    }
  }
}
