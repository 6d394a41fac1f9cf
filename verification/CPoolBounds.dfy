/** How far the C pool can overshoot, and that it does. */
module CPoolBounds {
  import opened CPool
  import opened Division

  /**
   With N controllers the pool counts at most N - 1 takeoffs too many, and `planes` falls at most
   N - 1 below zero.
   */
  lemma BoundedOvershoot(c: Config, s: State)
    requires c.Valid() && Reachable(c, s)
    ensures s.total <= c.limit + c.threads - 1
    ensures s.planes >= 1 - c.threads
  {
    ReachableInv(c, s);
  }

  /** Batches are announced exactly, to radio and to ground alike, and every exit sends SIGTERM. */
  lemma BatchesExact(c: Config, s: State)
    requires c.Valid() && Reachable(c, s)
    ensures s.stateLock.Free? ==>
              s.takeoffs == s.total % c.batch && s.toRadio == s.toGround == s.total / c.batch
    ensures forall i :: 0 <= i < |s.workers| && s.workers[i].ExitTest? ==> NextPc(c, s, s.workers[i]) == SendTerm
  {
    ReachableInv(c, s);
    if s.stateLock.Free? {
      DivideUnique(c.batch, s.toRadio, s.takeoffs, s.total);
    }
  }

  // ---------- a run that reaches both bounds ----------

  lemma {:induction false} RunsCompose(c: Config, s: State, r1: seq<Action>, t: State, r2: seq<Action>, u: State)
    requires Leads(c, s, r1, t) && Leads(c, t, r2, u)
    ensures Leads(c, s, r1 + r2, u)
    decreases |r1|
  {
    if r1 == [] {
      assert r1 + r2 == r2;
    } else {
      RunsCompose(c, Step(c, s, r1[0]), r1[1..], t, r2, u);
      assert (r1 + r2)[1..] == r1[1..] + r2;
    }
  }

  lemma Transitive(c: Config, s: State, t: State, u: State)
    requires CanReach(c, s, t) && CanReach(c, t, u)
    ensures CanReach(c, s, u)
  {
    var r1 :| Leads(c, s, r1, t);
    var r2 :| Leads(c, t, r2, u);
    RunsCompose(c, s, r1, t, r2, u);
  }

  lemma Stay(c: Config, s: State)
    ensures CanReach(c, s, s)
  {
    assert Leads(c, s, [], s);
  }

  lemma Then(c: Config, s: State, t: State, a: Action)
    requires CanReach(c, s, t) && Enabled(t, a)
    ensures CanReach(c, s, Step(c, t, a))
  {
    assert Leads(c, Step(c, t, a), [], Step(c, t, a));
    assert Leads(c, t, [a], Step(c, t, a));
    Transitive(c, s, t, Step(c, t, a));
  }

  lemma {:induction false} Supplied(c: Config, s: State, k: nat)
    ensures CanReach(c, s, s.(planes := s.planes + c.batch * k))
  {
    if k == 0 {
      Stay(c, s);
      assert s == s.(planes := s.planes + c.batch * 0);
    } else {
      Supplied(c, s, k - 1);
      var t := s.(planes := s.planes + c.batch * (k - 1));
      Then(c, s, t, Handle);
      assert c.batch * (k - 1) + c.batch == c.batch * k;
    }
  }

  predicate LocksFree(s: State) { s.stateLock.Free? && s.runway1.Free? && s.runway2.Free? }

  /** The counters after one takeoff of controller `i`, back at the loop test. */
  function Flown(c: Config, s: State, i: nat): State
    requires i < |s.workers|
  {
    var full := s.takeoffs + 1 == c.batch;
    s.(planes := s.planes - 1, total := s.total + 1,
       takeoffs := if full then 0 else s.takeoffs + 1,
       toRadio := if full then s.toRadio + 1 else s.toRadio,
       toGround := if full then s.toGround + 1 else s.toGround,
       workers := s.workers[i := LoopTest])
  }

  function Moved(c: Config, s: State, i: nat): State
    requires WorkerEnabled(s, i)
  {
    Step(c, s, Work(i))
  }

  /** From the first try-lock to the batch test, with nobody else moving. */
  lemma TakesOff(c: Config, s: State, i: nat)
    requires i < |s.workers| && s.workers[i] == TryOne && LocksFree(s)
    ensures CanReach(c, s, s.(planes := s.planes - 1, total := s.total + 1, takeoffs := s.takeoffs + 1,
                              stateLock := Held(i), runway1 := Held(i), workers := s.workers[i := BatchTest(One)]))
  {
    Stay(c, s);
    var s1 := Moved(c, s, i);
    assert s1 == s.(runway1 := Held(i), workers := s.workers[i := WaitState(One)]);
    Then(c, s, s, Work(i));
    var s2 := Moved(c, s1, i);
    assert s2 == s1.(stateLock := Held(i), workers := s.workers[i := DecPlanes(One)]);
    Then(c, s, s1, Work(i));
    var s3 := Moved(c, s2, i);
    assert s3 == s2.(planes := s.planes - 1, workers := s.workers[i := IncTakeoffs(One)]);
    Then(c, s, s2, Work(i));
    var s4 := Moved(c, s3, i);
    assert s4 == s3.(takeoffs := s.takeoffs + 1, workers := s.workers[i := IncTotal(One)]);
    Then(c, s, s3, Work(i));
    assert Moved(c, s4, i) == s4.(total := s.total + 1, workers := s.workers[i := BatchTest(One)]);
    Then(c, s, s4, Work(i));
  }

  lemma Announces(c: Config, s: State, i: nat)
    requires i < |s.workers| && s.workers[i] == BatchTest(One)
    ensures var full := s.takeoffs == c.batch;
            CanReach(c, s, s.(takeoffs := if full then 0 else s.takeoffs,
                              toRadio := if full then s.toRadio + 1 else s.toRadio,
                              toGround := if full then s.toGround + 1 else s.toGround,
                              workers := s.workers[i := UnlockState(One)]))
  {
    Stay(c, s);
    Then(c, s, s, Work(i));
    var s1 := Moved(c, s, i);
    if s.takeoffs == c.batch {
      assert s1 == s.(workers := s.workers[i := SignalRadio(One)]);
      Then(c, s, s1, Work(i));
      var s2 := Moved(c, s1, i);
      assert s2 == s.(toRadio := s.toRadio + 1, workers := s.workers[i := SignalGround(One)]);
      Then(c, s, s2, Work(i));
      var s3 := Moved(c, s2, i);
      assert s3 == s2.(toGround := s.toGround + 1, workers := s.workers[i := ResetTakeoffs(One)]);
      Then(c, s, s3, Work(i));
      assert Moved(c, s3, i) == s3.(takeoffs := 0, workers := s.workers[i := UnlockState(One)]);
    } else {
      assert s1 == s.(workers := s.workers[i := UnlockState(One)]);
    }
  }

  lemma Lands(c: Config, s: State, i: nat)
    requires i < |s.workers| && s.workers[i] == UnlockState(One)
    ensures CanReach(c, s, s.(stateLock := Free, runway1 := Free, workers := s.workers[i := LoopTest]))
  {
    Stay(c, s);
    Then(c, s, s, Work(i));
    var s1 := Moved(c, s, i);
    assert s1 == s.(stateLock := Free, workers := s.workers[i := Airborne(One)]);
    Then(c, s, s1, Work(i));
    assert Moved(c, s1, i) == s.(stateLock := Free, runway1 := Free, workers := s.workers[i := LoopTest]);
  }

  lemma Flies(c: Config, s: State, i: nat)
    requires i < |s.workers| && s.workers[i] == TryOne && LocksFree(s)
    ensures CanReach(c, s, Flown(c, s, i))
  {
    var t := s.(planes := s.planes - 1, total := s.total + 1, takeoffs := s.takeoffs + 1,
                stateLock := Held(i), runway1 := Held(i), workers := s.workers[i := BatchTest(One)]);
    TakesOff(c, s, i);
    Announces(c, t, i);
    var full := t.takeoffs == c.batch;
    var u := t.(takeoffs := if full then 0 else t.takeoffs,
                toRadio := if full then t.toRadio + 1 else t.toRadio,
                toGround := if full then t.toGround + 1 else t.toGround,
                workers := t.workers[i := UnlockState(One)]);
    Transitive(c, s, t, u);
    Lands(c, u, i);
    var v := u.(stateLock := Free, runway1 := Free, workers := u.workers[i := LoopTest]);
    Transitive(c, s, u, v);
    assert v.workers == s.workers[i := LoopTest];
    assert v == Flown(c, s, i);
  }

  /** Both unlocked checks pass. */
  lemma Commits(c: Config, s: State, i: nat)
    requires i < |s.workers| && s.workers[i] == LoopTest && s.total < c.limit && s.planes > 0
    ensures CanReach(c, s, s.(workers := s.workers[i := TryOne]))
  {
    Stay(c, s);
    Then(c, s, s, Work(i));
    var s1 := Moved(c, s, i);
    assert s1 == s.(workers := s.workers[i := QuickCheck]);
    Then(c, s, s1, Work(i));
    assert Moved(c, s1, i) == s.(workers := s.workers[i := TryOne]);
  }

  /** `n` takeoffs in a row by controller 0. */
  lemma {:induction false} Serial(c: Config, s: State, n: nat) returns (t: State)
    requires |s.workers| > 0 && s.workers[0] == LoopTest && LocksFree(s)
    requires s.total + n <= c.limit && s.planes >= n
    ensures CanReach(c, s, t) && LocksFree(t) && t.workers == s.workers
    ensures t.total == s.total + n && t.planes == s.planes - n
    decreases n
  {
    if n == 0 {
      Stay(c, s);
      t := s;
    } else {
      Commits(c, s, 0);
      var u := s.(workers := s.workers[0 := TryOne]);
      Flies(c, u, 0);
      Transitive(c, s, u, Flown(c, u, 0));
      assert Flown(c, u, 0).workers == s.workers;
      t := Serial(c, Flown(c, u, 0), n - 1);
      Transitive(c, s, Flown(c, u, 0), t);
    }
  }

  function Line(n: nat, k: nat, first: Pc, last: Pc): seq<Pc>
    requires k <= n
  {
    seq(n, i requires 0 <= i < n => if i < k then first else last)
  }

  /** All controllers pass both checks before anyone takes off. */
  lemma {:induction false} AllCommit(c: Config, s: State, k: nat)
    requires k <= c.threads && s.workers == Line(c.threads, 0, TryOne, LoopTest)
    requires s.total < c.limit && s.planes > 0
    ensures CanReach(c, s, s.(workers := Line(c.threads, k, TryOne, LoopTest)))
  {
    if k == 0 {
      Stay(c, s);
    } else {
      AllCommit(c, s, k - 1);
      var t := s.(workers := Line(c.threads, k - 1, TryOne, LoopTest));
      Commits(c, t, k - 1);
      assert t.workers[k - 1 := TryOne] == Line(c.threads, k, TryOne, LoopTest);
      Transitive(c, s, t, t.(workers := t.workers[k - 1 := TryOne]));
    }
  }

  /** Then they take off one after the other. */
  lemma {:induction false} AllFly(c: Config, s: State, k: nat) returns (t: State)
    requires k <= c.threads && s.workers == Line(c.threads, 0, LoopTest, TryOne) && LocksFree(s)
    ensures CanReach(c, s, t) && LocksFree(t) && t.workers == Line(c.threads, k, LoopTest, TryOne)
    ensures t.total == s.total + k && t.planes == s.planes - k
  {
    if k == 0 {
      Stay(c, s);
      t := s;
    } else {
      var u := AllFly(c, s, k - 1);
      Flies(c, u, k - 1);
      t := Flown(c, u, k - 1);
      Transitive(c, s, u, t);
      assert u.workers[k - 1 := LoopTest] == Line(c.threads, k, LoopTest, TryOne);
    }
  }

  /** After `k` batches and all takeoffs but `left` planes, everybody commits, then everybody flies. */
  lemma Rush(c: Config, k: nat, left: nat) returns (s: State)
    requires c.Valid() && 1 <= left <= c.batch * k < c.limit + left
    ensures Reachable(c, s) && s.total == c.batch * k - left + c.threads && s.planes == left - c.threads
    ensures LocksFree(s) && s.workers == Line(c.threads, c.threads, LoopTest, TryOne)
  {
    var s0 := Init(c);
    Supplied(c, s0, k);
    var s1 := s0.(planes := s0.planes + c.batch * k);
    var s2 := Serial(c, s1, c.batch * k - left);
    Transitive(c, s0, s1, s2);
    assert s2.workers == Line(c.threads, 0, TryOne, LoopTest);
    AllCommit(c, s2, c.threads);
    var s3 := s2.(workers := Line(c.threads, c.threads, TryOne, LoopTest));
    Transitive(c, s0, s2, s3);
    assert s3.workers == Line(c.threads, 0, LoopTest, TryOne);
    s := AllFly(c, s3, c.threads);
    Transitive(c, s0, s3, s);
  }

  // ---------- how many batches a run takes ----------

  /** How often the SIGUSR2 handler has run. */
  function Deliveries(run: seq<Action>): nat {
    if run == [] then 0 else Delivery(run[0]) + Deliveries(run[1..])
  }

  function Delivery(a: Action): nat { if a.Handle? then 1 else 0 }

  /** Reached with at most `k` batches of planes; ground control sends as many as make up its supply. */
  ghost predicate ReachedOn(c: Config, k: nat, s: State) {
    exists run :: Leads(c, Init(c), run, s) && Deliveries(run) <= k
  }

  /** 1 while a plane has left `planes` but is not in `total_takeoffs` yet. */
  function InFlight(s: State): int {
    if Critical(s).IncTakeoffs? || Critical(s).IncTotal? then 1 else 0
  }

  /** Every plane of the `k` batches delivered so far is waiting, taking off or counted. */
  ghost predicate Balanced(c: Config, s: State, k: nat) {
    s.planes + s.total + InFlight(s) == c.batch * k
  }

  lemma WorkKeepsBalance(c: Config, s: State, i: nat, k: nat)
    requires Inv(c, s) && WorkerEnabled(s, i) && Balanced(c, s, k)
    ensures Balanced(c, Step(c, s, Work(i)), k)
  {
    WorkKeepsLocks(c, s, i);
    CountMoves(c, s, i, s.workers[i]);
  }

  lemma StepBalances(c: Config, s: State, a: Action, k: nat)
    requires Inv(c, s) && Enabled(s, a) && Balanced(c, s, k)
    ensures Balanced(c, Step(c, s, a), k + Delivery(a))
  {
    if a.Work? {
      WorkKeepsBalance(c, s, a.i, k);
    } else {
      assert c.batch * (k + 1) == c.batch * k + c.batch;
    }
  }

  lemma {:induction false} RunBalances(c: Config, s: State, run: seq<Action>, t: State, k: nat, n: nat)
    requires c.Valid() && Inv(c, s) && Leads(c, s, run, t) && Balanced(c, s, k) && n == k + Deliveries(run)
    ensures Balanced(c, t, n)
    decreases |run|
  {
    if run != [] {
      var u := Step(c, s, run[0]);
      StepKeepsInv(c, s, run[0]);
      StepBalances(c, s, run[0], k);
      RunBalances(c, u, run[1..], t, k + Delivery(run[0]), n);
    }
  }

  /** Every plane of every batch that came is accounted for. */
  lemma AllBalances(c: Config, run: seq<Action>, s: State)
    requires c.Valid() && Leads(c, Init(c), run, s)
    ensures Balanced(c, s, Deliveries(run))
  {
    InitInv(c);
    RunBalances(c, Init(c), run, s, 0, Deliveries(run));
  }

  /** With the locks free, the planes tell how many batches came. */
  lemma TookBatches(c: Config, s: State, k: nat)
    requires c.Valid() && Reachable(c, s) && LocksFree(s) && s.planes + s.total == c.batch * k
    ensures ReachedOn(c, k, s)
  {
    var run :| Leads(c, Init(c), run, s);
    AllBalances(c, run, s);
    DivideUnique(c.batch, k, 0, c.batch * k);
    DivideUnique(c.batch, Deliveries(run), 0, c.batch * k);
  }

  lemma MoreBatches(batch: nat, k: nat, n: nat)
    requires k <= n
    ensures batch * k <= batch * n
  {
  }

  /** Each takeoff needs a plane that came, but for one a controller. */
  lemma TotalNeeds(c: Config, k: nat, s: State)
    requires c.Valid() && ReachedOn(c, k, s)
    ensures s.total <= c.batch * k + c.threads - 1
  {
    var run :| Leads(c, Init(c), run, s) && Deliveries(run) <= k;
    AllBalances(c, run, s);
    MoreBatches(c.batch, Deliveries(run), k);
    BoundedOvershoot(c, s);
  }

  /** Everybody rushes for the last planes, or for the last takeoffs the limit allows. */
  lemma RushOn(c: Config, k: nat) returns (s: State)
    requires c.Valid() && k >= 1
    ensures ReachedOn(c, k, s)
    ensures s.total == (if c.batch * k < c.limit then c.batch * k else c.limit) + c.threads - 1
    ensures s.planes == c.batch * k - s.total
    ensures Reachable(c, s) && LocksFree(s) && s.workers == Line(c.threads, c.threads, LoopTest, TryOne)
  {
    ProductAtLeast(c.batch, k);
    s := Rush(c, k, if c.batch * k < c.limit then 1 else c.batch * k - c.limit + 1);
    TookBatches(c, s, k);
  }

  /** With `k` batches, the bound on the total is attained exactly when they reach the limit. */
  lemma TotalIsReachedIff(c: Config, k: nat)
    requires c.Valid()
    ensures (exists s :: ReachedOn(c, k, s) && s.total == c.limit + c.threads - 1) <==> c.batch * k >= c.limit
  {
    if s :| ReachedOn(c, k, s) && s.total == c.limit + c.threads - 1 {
      TotalNeeds(c, k, s);
    }
    if c.batch * k >= c.limit {
      var s := RushOn(c, k);
    }
  }

  /** With `k` batches, the limit can be exceeded exactly when two race and the planes come close enough to it. */
  lemma OvershootsIff(c: Config, k: nat)
    requires c.Valid()
    ensures (exists s :: ReachedOn(c, k, s) && s.total > c.limit) <==>
            k >= 1 && c.threads >= 2 && c.batch * k + c.threads - 1 > c.limit
  {
    if s :| ReachedOn(c, k, s) && s.total > c.limit {
      TotalNeeds(c, k, s);
      BoundedOvershoot(c, s);
      if k == 0 {
        NothingCame(c, s);
      }
    }
    if k >= 1 && c.threads >= 2 && c.batch * k + c.threads - 1 > c.limit {
      var s := RushOn(c, k);
    }
  }

  lemma {:induction false} NobodyCounts(ws: seq<Pc>, i: nat)
    requires i < |ws| && Counters(ws) == 0
    ensures !MayCount(ws[i])
  {
    if i > 0 {
      NobodyCounts(ws[1..], i - 1);
    }
  }

  lemma BoundsAreReached(c: Config, k: nat)
    requires c.Valid() && c.limit % c.batch == 0 && c.batch * k >= c.limit
    ensures exists s :: ReachedOn(c, k, s) && s.total == c.limit + c.threads - 1 && s.planes == 1 - c.threads
  {
    var n := c.limit / c.batch;
    assert c.batch * n == c.limit;
    var s := RushOn(c, n);
    assert c.batch * (k + 1) == c.batch * k + c.batch;
    if n > k {
      MoreBatches(c.batch, k + 1, n);
    }
  }

  /** With `k` batches, some run reaches both bounds at once exactly when some of them make up the limit. */
  lemma OvershootIsReached(c: Config, k: nat)
    requires c.Valid()
    ensures (exists s :: ReachedOn(c, k, s) && s.total == c.limit + c.threads - 1 && s.planes == 1 - c.threads) <==>
            c.limit % c.batch == 0 && c.batch * k >= c.limit
  {
    if s :| ReachedOn(c, k, s) && s.total == c.limit + c.threads - 1 && s.planes == 1 - c.threads {
      var run :| Leads(c, Init(c), run, s) && Deliveries(run) <= k;
      AllBalances(c, run, s);
      ReachableInv(c, s);
      if InFlight(s) == 1 {
        NobodyCounts(s.workers, s.stateLock.id);
      }
      DivideUnique(c.batch, Deliveries(run), 0, c.limit);
      TotalNeeds(c, k, s);
    }
    if c.limit % c.batch == 0 && c.batch * k >= c.limit {
      BoundsAreReached(c, k);
    }
  }

  lemma {:induction false} CountersAreThere(ws: seq<Pc>, i: nat)
    requires i < |ws| && MayCount(ws[i])
    ensures Counters(ws) >= 1
  {
    if i > 0 {
      CountersAreThere(ws[1..], i - 1);
    }
  }

  lemma {:induction false} NobodyTakes(ws: seq<Pc>, i: nat)
    requires i < |ws| && Takers(ws) == 0
    ensures !MayTake(ws[i])
  {
    if i > 0 {
      NobodyTakes(ws[1..], i - 1);
    }
  }

  lemma WorkKeepsNone(c: Config, s: State, i: nat)
    requires WorkerEnabled(s, i) && s.planes == 0 && Takers(s.workers) == 0
    ensures var t := Step(c, s, Work(i)); t.planes == 0 && Takers(t.workers) == 0
  {
    NobodyTakes(s.workers, i);
    CountMoves(c, s, i, s.workers[i]);
    TakersUpdate(s.workers, i, NextPc(c, s, s.workers[i]));
  }

  /** Without a batch there is nothing to take. */
  lemma {:induction false} NoBatchNoPlane(c: Config, s: State, run: seq<Action>, t: State)
    requires c.Valid() && Leads(c, s, run, t) && Deliveries(run) == 0
    requires s.planes == 0 && Takers(s.workers) == 0
    ensures t.planes == 0
    decreases |run|
  {
    if run != [] {
      WorkKeepsNone(c, s, run[0].i);
      NoBatchNoPlane(c, Step(c, s, run[0]), run[1..], t);
    }
  }

  lemma NothingCame(c: Config, s: State)
    requires c.Valid() && ReachedOn(c, 0, s)
    ensures s.planes == 0 && s.total <= 0
  {
    var run :| Leads(c, Init(c), run, s) && Deliveries(run) <= 0;
    NobodyStarted(Init(c).workers);
    NoBatchNoPlane(c, Init(c), run, s);
    AllBalances(c, run, s);
  }

  lemma NegativeNeeds(c: Config, k: nat, s: State)
    requires c.Valid() && ReachedOn(c, k, s) && s.planes < 0
    ensures k >= 1 && c.threads >= 2 && c.batch < c.limit + c.threads - 1
  {
    var run :| Leads(c, Init(c), run, s) && Deliveries(run) <= k;
    AllBalances(c, run, s);
    if Deliveries(run) == 0 {
      assert ReachedOn(c, 0, s);
      NothingCame(c, s);
    }
    ProductAtLeast(c.batch, Deliveries(run));
    ReachableInv(c, s);
    if InFlight(s) == 1 {
      CountersAreThere(s.workers, s.stateLock.id);
    }
  }

  /** `planes` can go below zero exactly when two controllers can race and one batch does not outlast the limit. */
  lemma GoesNegativeIff(c: Config, k: nat)
    requires c.Valid()
    ensures (exists s :: ReachedOn(c, k, s) && s.planes < 0) <==>
            k >= 1 && c.threads >= 2 && c.batch < c.limit + c.threads - 1
  {
    if s :| ReachedOn(c, k, s) && s.planes < 0 {
      NegativeNeeds(c, k, s);
    }
    if k >= 1 && c.threads >= 2 && c.batch < c.limit + c.threads - 1 {
      var s := RushOn(c, 1);
    }
  }

  /** The programs' own numbers: 5 controllers, 20 takeoffs, and 20 planes in batches of 5. */
  lemma AsConfigured()
    ensures var c := Config(5, 20, 5);
            && (forall s :: Reachable(c, s) ==> s.total <= 24 && s.planes >= -4)
            && (exists s :: ReachedOn(c, 4, s) && s.total == 24 && s.planes == -4)
  {
    var c := Config(5, 20, 5);
    forall s | Reachable(c, s) ensures s.total <= 24 && s.planes >= -4 {
      BoundedOvershoot(c, s);
    }
    BoundsAreReached(c, 4);
  }
}
