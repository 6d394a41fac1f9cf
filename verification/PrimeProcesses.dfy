/**
 The loops of the two programs of the work queue, each run for as long as it does not block while the
 other processes pause.  Their steps are the steps of PrimeQueue: `before` is any state of it that agrees
 with the queue, and the loop leads from it to `after`.
 */
module PrimeProcesses {
  import opened Primality
  import opened PrimeQueue
  import Outcomes = PrimeQueueOutcomes

  /** The POSIX message queue, seen as what is in it. */
  class Channel {
    const capacity: nat
    var messages: seq<int>

    constructor (capacity: nat)
      ensures messages == [] && this.capacity == capacity
    {
      this.capacity := capacity;
      messages := [];
    }
  }

  class Producer {
    var numbers: seq<int>
    var pills: nat

    function Unsent(): seq<int>
      reads this
    {
      numbers + Pills(pills)
    }

    constructor (c: Config)
      ensures numbers == c.input && pills == c.workers && Unsent() == Init(c).unsent
    {
      numbers := c.input;
      pills := c.workers;
    }

    /** Sends the numbers and then the pills, until done or until the queue is full. */
    method SendAll(q: Channel, c: Config, ghost before: State) returns (ghost run: seq<Action>)
      requires q.capacity == c.capacity && before.unsent == Unsent() && before.queue == q.messages
      modifies this, q`messages
      ensures Leads(c, before, run, before.(unsent := Unsent(), queue := q.messages))
      ensures q.messages + Unsent() == old(q.messages + Unsent())
      ensures Unsent() == [] || |q.messages| >= q.capacity
    {
      run := [];
      while numbers != [] && |q.messages| < q.capacity
        invariant Leads(c, before, run, before.(unsent := Unsent(), queue := q.messages))
        invariant q.messages + Unsent() == old(q.messages + Unsent())
        decreases |numbers|
      {
        NumberFirst(numbers, pills);
        SendStep(c, before, run, Unsent(), q.messages);
        run := run + [Send];
        q.messages := q.messages + [numbers[0]];
        numbers := numbers[1..];
      }
      if numbers != [] {
        return;
      }
      while pills > 0 && |q.messages| < q.capacity
        invariant numbers == []
        invariant Leads(c, before, run, before.(unsent := Unsent(), queue := q.messages))
        invariant q.messages + Unsent() == old(q.messages + Unsent())
        decreases pills
      {
        PillFirst(pills);
        SendStep(c, before, run, Unsent(), q.messages);
        run := run + [Send];
        q.messages := q.messages + [PILL];
        pills := pills - 1;
      }
    }
  }

  lemma SendStep(c: Config, before: State, run: seq<Action>, unsent: seq<int>, queue: seq<int>)
    requires Leads(c, before, run, before.(unsent := unsent, queue := queue))
    requires unsent != [] && |queue| < c.capacity
    ensures Leads(c, before, run + [Send], before.(unsent := unsent[1..], queue := queue + [unsent[0]]))
    ensures (queue + [unsent[0]]) + unsent[1..] == queue + unsent
  {
    Outcomes.Extend(c, before, run, before.(unsent := unsent, queue := queue), Send);
  }

  lemma NumberFirst(numbers: seq<int>, pills: nat)
    requires numbers != []
    ensures var u := numbers + Pills(pills); u[0] == numbers[0] && u[1..] == numbers[1..] + Pills(pills)
  {
  }

  lemma PillFirst(pills: nat)
    requires pills > 0
    ensures var u := [] + Pills(pills); u[0] == PILL && u[1..] == [] + Pills(pills - 1)
  {
    assert Pills(pills)[1..] == Pills(pills - 1);
  }

  /** The receive loop, until a pill is taken (`stopped`) or until it blocks on an empty queue. */
  method Worker(w: nat, q: Channel, c: Config, ghost before: State)
    returns (stopped: bool, reported: seq<int>, ghost run: seq<Action>, ghost after: State)
    requires before.queue == q.messages && w < |before.workers| && before.workers[w].Receiving?
    modifies q`messages
    ensures Leads(c, before, run, after) && forall i :: 0 <= i < |run| ==> run[i] in {Receive(w), Test(w)}
    ensures after.queue == q.messages && after.unsent == before.unsent
    ensures after.reported == before.reported + reported
    ensures after.workers == before.workers[w := if stopped then Stopped else Receiving]
    ensures stopped <==> PILL in old(q.messages)
    ensures !stopped ==> q.messages == []
  {
    stopped, reported, run, after := false, [], [], before;
    while q.messages != []
      invariant !stopped
      invariant Leads(c, before, run, after) && forall i :: 0 <= i < |run| ==> run[i] in {Receive(w), Test(w)}
      invariant after.queue == q.messages && after.unsent == before.unsent
      invariant after.reported == before.reported + reported
      invariant after.workers == before.workers
      invariant PILL in old(q.messages) <==> PILL in q.messages
      decreases |q.messages|
    {
      var number := q.messages[0];
      assert q.messages == [number] + q.messages[1..];
      q.messages := q.messages[1..];
      Outcomes.Extend(c, before, run, after, Receive(w));
      run, after := run + [Receive(w)], Step(c, after, Receive(w));
      if number == PILL {
        return true, reported, run, after;
      }
      var prime, _ := IsPrime(number);
      Outcomes.Extend(c, before, run, after, Test(w));
      run, after := run + [Test(w)], Step(c, after, Test(w));
      if prime {
        reported := reported + [number];
      }
    }
  }
}
