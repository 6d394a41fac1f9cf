/** The shared struct and the critical sections of the buyer and of the office, as they update it in place. */
module TicketProcesses {
  import opened TicketOffice

  class SharedMemory {
    var availableTickets: int
    const purchasesLog: array<int>
    var transactions: int

    ghost function View(): Memory
      reads this, purchasesLog
    {
      Memory(availableTickets, purchasesLog[..], transactions, false)
    }

    ghost predicate Valid()
      reads this, purchasesLog
    {
      Conserved(View())
    }

    /** The struct as the system hands it out: its contents are arbitrary. */
    constructor (available: int, transactions: int)
      ensures fresh(purchasesLog) && purchasesLog.Length == LOG_SIZE
    {
      availableTickets := available;
      purchasesLog := new int[LOG_SIZE];
      this.transactions := transactions;
    }

    method InitializeSharedMemory()
      requires purchasesLog.Length == LOG_SIZE
      modifies this, purchasesLog
      ensures Valid() && View() == Initialized()
    {
      availableTickets := TICKETS;
      transactions := 0;
      for i := 0 to purchasesLog.Length
        invariant availableTickets == TICKETS && transactions == 0
        invariant forall k :: 0 <= k < i ==> purchasesLog[k] == 0
      {
        purchasesLog[i] := 0;
      }
      assert purchasesLog[..] == Initialized().log;
      InitInv(0);
    }

    /** Any request, in any state in which the write, if there is one, is inside the log. */
    method BuyTickets(ticketsToBuy: int) returns (bought: bool)
      requires availableTickets >= ticketsToBuy ==> 0 <= transactions < purchasesLog.Length
      modifies this, purchasesLog
      ensures View() == Sell(old(View()), ticketsToBuy)
      ensures bought <==> old(availableTickets) >= ticketsToBuy
      ensures bought ==>
                && availableTickets == old(availableTickets) - ticketsToBuy && transactions == old(transactions) + 1
                && purchasesLog[..] == old(purchasesLog[..])[old(transactions) := ticketsToBuy]
      ensures !bought ==> unchanged(this) && unchanged(purchasesLog)
      ensures old(Valid()) && Sale(ticketsToBuy) ==> Valid()
      ensures old(Valid()) && 1 <= ticketsToBuy <= MOST_AT_ONCE && old(Modest(View())) ==> Modest(View())
    {
      ghost var before := View();
      bought := availableTickets >= ticketsToBuy;
      if bought {
        availableTickets := availableTickets - ticketsToBuy;
        purchasesLog[transactions] := ticketsToBuy;
        transactions := transactions + 1;
      }
      if Conserved(before) && Sale(ticketsToBuy) {
        SellConserves(before, ticketsToBuy);
      }
    }

    /** One turn of the buyer's loop; `ticketsToBuy` is the random request. */
    method BuyerTurn(ticketsToBuy: int, ghost s: State, ghost b: nat) returns (leaves: bool)
      requires Valid() && s.memory == View() && Enabled(s, Attempt(b, ticketsToBuy))
      modifies this, purchasesLog
      ensures Valid() && View() == Step(s, Attempt(b, ticketsToBuy)).memory
      ensures leaves <==> !Step(s, Attempt(b, ticketsToBuy)).buyers[b]
      ensures leaves <==> old(availableTickets) == 0
      ensures old(availableTickets) >= ticketsToBuy ==>
                && availableTickets == old(availableTickets) - ticketsToBuy && transactions == old(transactions) + 1
                && purchasesLog[..] == old(purchasesLog[..])[old(transactions) := ticketsToBuy]
      ensures old(availableTickets) < ticketsToBuy ==> unchanged(this) && unchanged(purchasesLog)
    {
      SellConserves(View(), ticketsToBuy);
      if availableTickets == 0 {
        return true;
      }
      if availableTickets >= ticketsToBuy {
        RoomForSale(View(), ticketsToBuy);
        availableTickets := availableTickets - ticketsToBuy;
        purchasesLog[transactions] := ticketsToBuy;
        transactions := transactions + 1;
      }
      return false;
    }

    /** The locked snapshot that a report prints. */
    method TicketReport() returns (report: Report, soldOut: bool)
      requires Valid()
      ensures report == Report(availableTickets, transactions) && transactions <= TICKETS - availableTickets
      ensures Modest(View()) ==> Honest(report)
      ensures soldOut <==> Sum(purchasesLog[..transactions]) == TICKETS
    {
      TransactionBounds(View());
      assert View().log[..transactions] == purchasesLog[..transactions];
      return Report(availableTickets, transactions), availableTickets == 0;
    }
  }

  class OfficeLoop {
    var soldOutCount: nat

    constructor ()
      ensures soldOutCount == 0
    {
      soldOutCount := 0;
    }

    /** One turn of the polling loop up to its report; `closes` is the break. */
    method PollTurn(memory: SharedMemory, ghost s: State) returns (closes: bool)
      requires s.office.Polling? && s.soldOut == soldOutCount && s.memory == memory.View()
      modifies this
      ensures soldOutCount == Step(s, Poll).soldOut
      ensures closes <==> Step(s, Poll).office.Closed?
    {
      if memory.availableTickets == 0 {
        soldOutCount := soldOutCount + 1;
        if soldOutCount >= LAST_POLL {
          return true;
        }
      } else {
        soldOutCount := 0;
      }
      return false;
    }
  }
}
