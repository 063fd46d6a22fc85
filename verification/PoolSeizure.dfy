/**
 * What a raising health check costs: if it raises inside `_acquire`, the environment keeps its slot until shutdown, and
 * once there are as many of these as slots nobody gets a session any more.
 */
module PoolSeizure {
  import opened Prelude
  import opened PoolProtocol
  import opened PoolSafety
  import opened PoolTheorems
  import opened PoolLimits
  import opened PoolRuns

  /** The call of task `t` has ended because the health check of environment `e` raised. */
  predicate Raised(s: State, t: TaskId, e: EnvId) { t in s.tasks && s.tasks[t] == Ended(CheckRaised(e)) }

  lemma EndedStays(c: Config, s: State, step: Step, t: TaskId)
    requires Enabled(c, s, step) && t in s.tasks && s.tasks[t].Ended?
    ensures t in Do(c, s, step).tasks && Do(c, s, step).tasks[t] == s.tasks[t]
  {
    match step
    case Acquire(u, a) =>
      AcquireMovesOne(c, s, u, a);
    case Release(u, r) =>
    case Reap(p) =>
    case Shutdown(q) =>
  }

  lemma AcquireMovesOne(c: Config, s: State, t: TaskId, a: AcquireStep)
    requires CanAcquire(c, s, t, a)
    ensures var s' := DoAcquire(c, s, t, a); t in s'.tasks && s'.tasks == s.tasks[t := s'.tasks[t]]
  {
  }

  lemma {:induction false} EndedForGood(c: Config, s: State, steps: seq<Step>, t: TaskId)
    requires Legal(c, s, steps) && t in s.tasks && s.tasks[t].Ended?
    ensures t in After(c, s, steps).tasks && After(c, s, steps).tasks[t] == s.tasks[t]
    decreases |steps|
  {
    if steps == [] {
    } else {
      EndedStays(c, s, steps[0], t);
      EndedForGood(c, Do(c, s, steps[0]), steps[1..], t);
    }
  }

  /**
   * From then on, until shutdown is done, the environment fills a slot, is never queued and is
   * held by no session.
   */
  lemma RaisedCheckKeepsItsSlot(c: Config, s: State, steps: seq<Step>, t: TaskId, e: EnvId)
    requires ReachableTame(c, 2, s) && Raised(s, t, e)
    requires Legal(c, s, steps) && All(TameSteps(2), steps) && !After(c, s, steps).phase.Done?
    ensures var s' := After(c, s, steps);
      Env(e) in s'.inUse && e !in s'.idle && forall u :: Holds(s', u, e) ==> u == t
  {
    PlacesReachable(c, s);
    PlacesAlways(c, s, steps);
    EndedForGood(c, s, steps, t);
    assert Holds(After(c, s, steps), t, e);
  }

  /** Every raised check so far. */
  ghost predicate RaisedKeepSlots(s: State) {
    forall t, e :: Raised(s, t, e) ==> Env(e) in s.inUse && e !in s.idle && forall u :: Holds(s, u, e) ==> u == t
  }

  /** True of all runs of exactly the configurations in which no environment is ever leased twice. */
  lemma RaisedKeepSlotsIff(c: Config)
    requires ValidConfig(c)
    ensures (forall s :: Reachable(c, s) && !s.phase.Done? ==> RaisedKeepSlots(s)) <==> c.minIdle <= 2
  {
    if c.minIdle <= 2 {
      forall s | Reachable(c, s) && !s.phase.Done?
        ensures RaisedKeepSlots(s)
      {
        ReachableIsTame(c, 2, s);
        PlacesReachable(c, s);
        assert forall t, e :: Raised(s, t, e) ==> Holds(s, t, e);
      }
    } else {
      var s := RaisedIsReturned(c);
    }
  }

  /** Of two sessions with one environment, the health check of one raises; the other gives it back. */
  lemma RaisedIsReturned(c: Config) returns (s: State)
    requires ValidConfig(c) && c.minIdle >= 3
    ensures Reachable(c, s) && s.phase.Open? && Raised(s, 5, 1) && Env(1) !in s.inUse && s.idle == [1]
  {
    var ok := NoWarmUps();
    NoWarmUpsAllow();
    var s1 := SurvivorIsLeased(c);
    var s2 := LeaseIdle(c, ok, START, s1, 4);
    var s3 := RaiseOnIdle(c, ok, START, s2, 5);
    s := Return(c, ok, START, s3, 3);
    AnyRun(c, ok, s);
  }

  // ---- A pool full of them ----------------------------------------------------------------

  ghost function RaisedTasks(s: State): set<TaskId> {
    set t | t in s.tasks && s.tasks[t].Ended? && s.tasks[t].outcome.CheckRaised?
  }

  /** The slots of the tasks in `a`, which hold one environment each. */
  ghost function SlotsOf(s: State, a: set<TaskId>): set<Slot>
    requires a <= RaisedTasks(s)
  {
    set t | t in a :: Env(s.tasks[t].outcome.env)
  }

  lemma LockOwner(s: State) returns (t: TaskId)
    requires SlotsMatch(s) && s.lock.Some?
    ensures s.lock == Some(t) && t in s.tasks && s.tasks[t].Creating?
  {
    t := s.lock.value;
    assert s.lock == Some(t);
  }

  /** When every call has ended, raised checks are all that fills `in_use`. */
  lemma OnlyRaisedSlotsRemain(c: Config, s: State)
    requires ReachableTame(c, 2, s) && !s.phase.Done? && forall t :: t in s.tasks ==> s.tasks[t].Ended?
    ensures s.inUse == SlotsOf(s, RaisedTasks(s))
  {
    PlacesReachable(c, s);
    if s.lock.Some? { var t := LockOwner(s); }
    forall x | x in s.inUse
      ensures x in SlotsOf(s, RaisedTasks(s))
    {
      if x.Env? {
        var t :| Holds(s, t, x.id);
        assert t in RaisedTasks(s);
      }
    }
    forall x | x in SlotsOf(s, RaisedTasks(s))
      ensures x in s.inUse
    {
      var t :| t in RaisedTasks(s) && x == Env(s.tasks[t].outcome.env);
      assert Holds(s, t, x.id);
    }
  }

  lemma Pick<T>(a: set<T>) returns (t: T)
    requires a != {}
    ensures t in a
  {
    t :| t in a;
  }

  lemma {:induction false} SlotsAreDistinct(s: State, a: set<TaskId>)
    requires Places(s) && a <= RaisedTasks(s)
    ensures |SlotsOf(s, a)| == |a|
    decreases a
  {
    if a == {} {
    } else {
      var t := Pick(a);
      var rest, x := a - {t}, Env(s.tasks[t].outcome.env);
      SlotsAreDistinct(s, rest);
      forall u | u in rest
        ensures Env(s.tasks[u].outcome.env) != x
      {
        assert Holds(s, t, x.id);
        assert Holds(s, u, s.tasks[u].outcome.env);
      }
      assert SlotsOf(s, a) == SlotsOf(s, rest) + {x};
    }
  }

  lemma SubsetOfSameSize<T>(a: set<T>, b: set<T>)
    requires a <= b && |b| <= |a|
    ensures a == b
  {
    assert |b - a| == |b| - |a|;
  }

  /** `max_size` raised checks: nothing is idle, nothing is being created, nobody else holds anything. */
  lemma SeizedIsFull(c: Config, s: State)
    requires Within(c, s) && !s.phase.Done? && |RaisedTasks(s)| >= c.maxSize
    ensures s.idle == [] && s.lock.None? && Total(s) == c.maxSize
    ensures forall t, e :: Holds(s, t, e) ==> t in RaisedTasks(s)
  {
    var slots := SlotsOf(s, RaisedTasks(s));
    SlotsAreDistinct(s, RaisedTasks(s));
    forall x | x in slots
      ensures x in s.inUse
    {
      var t :| t in RaisedTasks(s) && x == Env(s.tasks[t].outcome.env);
      assert Holds(s, t, x.id);
    }
    SubsetOfSameSize(slots, s.inUse);
    forall t, e | Holds(s, t, e)
      ensures t in RaisedTasks(s)
    {
      assert Env(e) in slots;
      var u :| u in RaisedTasks(s) && Env(e) == Env(s.tasks[u].outcome.env);
      assert Holds(s, u, e);
    }
  }

  lemma SeizedStep(c: Config, s: State, step: Step)
    requires Within(c, s) && !s.phase.Done? && |RaisedTasks(s)| >= c.maxSize && Enabled(c, s, step)
    ensures Do(c, s, step).totalLeases == s.totalLeases
  {
    SeizedIsFull(c, s);
    if step.Acquire? && (step.a.CreateOk? || step.a.Confirm?) {
      if step.a.Confirm? { assert Holds(s, step.t, s.tasks[step.t].env); }
      assert false;
    }
  }

  lemma CardGrows<T>(a: set<T>, b: set<T>)
    requires a <= b
    ensures |a| <= |b|
  {
    assert |b - a| == |b| - |a|;
  }

  lemma OneMore<T>(a: set<T>, b: set<T>) returns (x: T)
    requires |b| < |a|
    ensures x in a && x !in b
  {
    if a <= b { CardGrows(a, b); }
    x :| x in a && x !in b;
  }

  lemma RaisedGrow(c: Config, s: State, step: Step)
    requires Enabled(c, s, step)
    ensures |RaisedTasks(s)| <= |RaisedTasks(Do(c, s, step))|
  {
    forall t | t in RaisedTasks(s)
      ensures t in RaisedTasks(Do(c, s, step))
    {
      EndedStays(c, s, step, t);
    }
    CardGrows(RaisedTasks(s), RaisedTasks(Do(c, s, step)));
  }

  lemma {:induction false} SeizedForGood(c: Config, s: State, steps: seq<Step>)
    requires Within(c, s) && |RaisedTasks(s)| >= c.maxSize
    requires Legal(c, s, steps) && All(QuietSteps(), steps) && !After(c, s, steps).phase.Done?
    ensures Within(c, After(c, s, steps)) && |RaisedTasks(After(c, s, steps))| >= c.maxSize
    ensures After(c, s, steps).totalLeases == s.totalLeases
    decreases |steps|
  {
    if s.phase.Done? { StaysDone(c, s, steps); }
    if steps == [] {
    } else {
      assert QuietSteps()(steps[0]);
      WithinKept(c, s, steps[0]);
      SeizedStep(c, s, steps[0]);
      RaisedGrow(c, s, steps[0]);
      SeizedForGood(c, Do(c, s, steps[0]), steps[1..]);
    }
  }

  lemma {:induction false} StaysDone(c: Config, s: State, steps: seq<Step>)
    requires Legal(c, s, steps) && s.phase.Done?
    ensures After(c, s, steps).phase.Done?
    decreases |steps|
  {
    if steps == [] {
    } else {
      StaysDone(c, Do(c, s, steps[0]), steps[1..]);
    }
  }

  /**
   * Once `max_size` health checks have raised, no session is handed out any more until shutdown is
   * done, whatever else runs except warm-ups, and nobody is inside one.
   */
  lemma RaisedChecksSeizeThePool(c: Config, s: State, steps: seq<Step>)
    requires ReachableBy(c, QuietSteps(), s) && |RaisedTasks(s)| >= c.maxSize
    requires Legal(c, s, steps) && All(QuietSteps(), steps) && !After(c, s, steps).phase.Done?
    ensures var s' := After(c, s, steps);
      s'.totalLeases == s.totalLeases && forall t :: t in s'.tasks ==> !s'.tasks[t].Leased?
  {
    WithinReachable(c, s);
    SeizedForGood(c, s, steps);
    var s' := After(c, s, steps);
    SeizedIsFull(c, s');
    forall t | t in s'.tasks
      ensures !s'.tasks[t].Leased?
    {
      assert s'.tasks[t].Leased? ==> Holds(s', t, s'.tasks[t].env);
    }
  }

  lemma WithinReachable(c: Config, s: State)
    requires ReachableBy(c, QuietSteps(), s)
    ensures Within(c, s)
  {
    var steps :| Legal(c, START, steps) && After(c, START, steps) == s && All(QuietSteps(), steps);
    StartPlaces();
    TotalWithoutWarmUps(c, START, steps);
  }

  // ---- A pool that is not full of them ----------------------------------------------------

  /** Without a warm-up, and before shutdown is done, some session is still handed out. */
  ghost predicate CanStillLease(c: Config, s: State) {
    exists s' :: Leads(c, QuietSteps(), s, s') && !s'.phase.Done? && s'.totalLeases > s.totalLeases
  }

  lemma {:induction false} Above(a: set<int>) returns (k: int)
    ensures forall x :: x in a ==> x < k
    decreases a
  {
    if a == {} {
      k := 0;
    } else {
      var x := Pick(a);
      var rest := Above(a - {x});
      assert a == a - {x} + {x};
      k := if rest > x then rest else x + 1;
    }
  }

  /** Where a newcomer finds something idle, or room. */
  ghost predicate Welcoming(c: Config, s: State) {
    Ready(s) && NoPending(s) && (s.idle != [] || Total(s) < c.maxSize)
  }

  lemma NewcomerLeases(c: Config, from: State, s: State) returns (s': State)
    requires Leads(c, QuietSteps(), from, s) && Welcoming(c, s)
    ensures Leads(c, QuietSteps(), from, s') && s'.phase.Open? && s'.totalLeases == s.totalLeases + 1
  {
    var t := Above(s.tasks.Keys);
    if s.idle != [] {
      s' := LeaseIdle(c, QuietSteps(), from, s, t);
    } else {
      var e := Above(s.created);
      s' := LeaseNew(c, QuietSteps(), from, s, t, e);
    }
  }

  /** A holder on its way to a session gets it, or gives up its slot. */
  lemma AcquirerMakesWay(c: Config, s: State, t: TaskId) returns (s': State)
    requires Ready(s) && NoPending(s) && t in s.tasks && Leads(c, QuietSteps(), s, s)
    requires s.tasks[t].Checking? || s.tasks[t].Confirming? || s.tasks[t].Condemning?
    requires Env(s.tasks[t].env) in s.inUse && |s.inUse| <= c.maxSize
    ensures Leads(c, QuietSteps(), s, s') && s'.phase.Open?
    ensures s'.totalLeases > s.totalLeases || (Welcoming(c, s') && s'.totalLeases == s.totalLeases) || s.idle != []
  {
    var ok := QuietSteps();
    match s.tasks[t]
    case Checking(e) =>
      var s1 := Next(c, ok, s, s, Acquire(t, Checked(true)));
      s' := Next(c, ok, s, s1, Acquire(t, Confirm));
    case Confirming(e) =>
      s' := Next(c, ok, s, s, Acquire(t, Confirm));
    case Condemning(e) =>
      s' := Next(c, ok, s, s, Acquire(t, Condemn));
      CardRemove(s.inUse, Env(e));
  }

  /** A holder whose session is over or can end gives its environment back, or up. */
  lemma ReleaserMakesWay(c: Config, s: State, t: TaskId) returns (s': State)
    requires Ready(s) && NoPending(s) && t in s.tasks && Leads(c, QuietSteps(), s, s) && s.idle == []
    requires s.tasks[t].ReleaseChecking? || s.tasks[t].ReleaseSettling? || s.tasks[t].ReleaseDropping?
    requires Env(s.tasks[t].env) in s.inUse && |s.inUse| <= c.maxSize
    ensures Leads(c, QuietSteps(), s, s') && Welcoming(c, s') && s'.totalLeases == s.totalLeases
  {
    var ok := QuietSteps();
    CardRemove(s.inUse, Env(s.tasks[t].env));
    match s.tasks[t]
    case ReleaseChecking(e) =>
      var s1 := Next(c, ok, s, s, Release(t, ReleaseChecked(true)));
      s' := Next(c, ok, s, s1, Release(t, Settle));
    case ReleaseSettling(e, alive) =>
      s' := Next(c, ok, s, s, Release(t, Settle));
    case ReleaseDropping(e) =>
      s' := Next(c, ok, s, s, Release(t, Drop));
  }

  lemma HolderMakesWay(c: Config, s: State, t: TaskId, e: EnvId) returns (s': State)
    requires Ready(s) && NoPending(s) && s.idle == [] && Holds(s, t, e) && t !in RaisedTasks(s)
    requires Env(e) in s.inUse && |s.inUse| <= c.maxSize
    ensures Leads(c, QuietSteps(), s, s') && s'.phase.Open?
    ensures s'.totalLeases > s.totalLeases || (Welcoming(c, s') && s'.totalLeases == s.totalLeases)
  {
    Start(c, QuietSteps(), s);
    if s.tasks[t].Leased? {
      s' := Return(c, QuietSteps(), s, s, t);
    } else if s.tasks[t].Checking? || s.tasks[t].Confirming? || s.tasks[t].Condemning? {
      s' := AcquirerMakesWay(c, s, t);
    } else {
      s' := ReleaserMakesWay(c, s, t);
    }
  }

  /** Fewer raised checks than slots, in a full pool: somebody else holds one of the slots. */
  lemma SomebodyElseHolds(c: Config, s: State) returns (t: TaskId, e: EnvId)
    requires Places(s) && !s.phase.Done? && s.lock.None? && |RaisedTasks(s)| < |s.inUse|
    ensures Holds(s, t, e) && t !in RaisedTasks(s) && Env(e) in s.inUse
  {
    var slots := SlotsOf(s, RaisedTasks(s));
    SlotsAreDistinct(s, RaisedTasks(s));
    var x := OneMore(s.inUse, slots);
    e := x.id;
    t :| Holds(s, t, e);
  }

  /** With the lock free: newcomer, or holder first and newcomer then. */
  lemma UnlockedCanLease(c: Config, s: State)
    requires Within(c, s) && Ready(s) && |RaisedTasks(s)| < c.maxSize
    ensures CanStillLease(c, s)
  {
    Start(c, QuietSteps(), s);
    assert NoPending(s);
    if Welcoming(c, s) {
      var s' := NewcomerLeases(c, s, s);
    } else {
      var t, e := SomebodyElseHolds(c, s);
      var s1 := HolderMakesWay(c, s, t, e);
      if s1.totalLeases == s.totalLeases {
        var s' := NewcomerLeases(c, s, s1);
      }
    }
  }

  /** With the lock taken: the creation under way succeeds. */
  lemma LockedCanLease(c: Config, s: State)
    requires Within(c, s) && s.phase.Open? && s.lock.Some?
    ensures CanStillLease(c, s)
  {
    Start(c, QuietSteps(), s);
    var t := LockOwner(s);
    var e := Above(s.created);
    var s' := Next(c, QuietSteps(), s, s, Acquire(t, CreateOk(e)));
  }

  /** Before shutdown a session can still be handed out exactly if fewer than `max_size` checks have raised. */
  lemma CanStillLeaseIff(c: Config, s: State)
    requires ReachableBy(c, QuietSteps(), s) && s.phase.Open?
    ensures CanStillLease(c, s) <==> |RaisedTasks(s)| < c.maxSize
  {
    if |RaisedTasks(s)| < c.maxSize {
      WithinReachable(c, s);
      if s.lock.None? {
        UnlockedCanLease(c, s);
      } else {
        LockedCanLease(c, s);
      }
    } else {
      forall s' | Leads(c, QuietSteps(), s, s') && !s'.phase.Done?
        ensures s'.totalLeases == s.totalLeases
      {
        var steps :| Legal(c, s, steps) && After(c, s, steps) == s' && All(QuietSteps(), steps);
        RaisedChecksSeizeThePool(c, s, steps);
      }
    }
  }

  // ---- It happens -------------------------------------------------------------------------

  lemma OneIdle(c: Config, ok: Step -> bool, s: State, k: int) returns (s': State)
    requires ReachableBy(c, ok, s) && Sessions(ok) && Ready(s) && s.idle == [] && Total(s) < c.maxSize
    requires Unused(s, k) && NoPending(s)
    ensures ReachableBy(c, ok, s') && Ready(s') && s'.idle == [k] && s'.inUse == s.inUse && s'.reaper == s.reaper
    ensures s'.created == s.created + {k}
    ensures s'.tasks == s.tasks[k := Ended(Released)]
  {
    UnusedId(s, k);
    AddRemove(s.inUse, Env(k));
    var s1 := LeaseNew(c, ok, START, s, k, k);
    s' := Return(c, ok, START, s1, k);
    ThriceUpdated(s.tasks, k, Leased(k), Leased(k), Ended(Released));
  }

  /** A session creates an environment and gives it back; the next one's health check raises. */
  lemma RaiseOne(c: Config, ok: Step -> bool, s: State, k: int) returns (s': State)
    requires ReachableBy(c, ok, s) && Sessions(ok) && Ready(s) && s.idle == [] && Total(s) < c.maxSize
    requires Unused(s, k) && NoPending(s)
    ensures ReachableBy(c, ok, s') && Ready(s') && s'.idle == [] && s'.reaper == s.reaper && Total(s') == Total(s) + 1
    ensures Unused(s', k + 2) && NoPending(s')
    ensures s'.tasks == s.tasks[k := Ended(Released)][k + 1 := Ended(CheckRaised(k))]
  {
    var s1 := OneIdle(c, ok, s, k);
    AddRemove(s.inUse, Env(k));
    s' := RaiseOnIdle(c, ok, START, s1, k + 1);
  }

  lemma OneMoreRaised(s: State, s': State, k: int)
    requires k !in s.tasks && k + 1 !in s.tasks
    requires s'.tasks == s.tasks[k := Ended(Released)][k + 1 := Ended(CheckRaised(k))]
    ensures |RaisedTasks(s')| == |RaisedTasks(s)| + 1
  {
    assert RaisedTasks(s') == RaisedTasks(s) + {k + 1};
  }

  lemma {:induction false} RaiseMany(c: Config, ok: Step -> bool, s: State, n: nat, k: int) returns (s': State)
    requires ReachableBy(c, ok, s) && Sessions(ok) && Ready(s) && s.idle == [] && Total(s) + n <= c.maxSize
    requires Unused(s, k) && NoPending(s)
    ensures ReachableBy(c, ok, s') && Ready(s') && s'.idle == [] && s'.reaper == s.reaper
    ensures Unused(s', k + 2 * n) && |RaisedTasks(s')| == |RaisedTasks(s)| + n
    decreases n
  {
    if n == 0 {
      s' := s;
    } else {
      var s1 := RaiseOne(c, ok, s, k);
      OneMoreRaised(s, s1, k);
      s' := RaiseMany(c, ok, s1, n - 1, k + 2);
    }
  }

  /** In every configuration some run seizes the pool up before shutdown. */
  lemma PoolCanSeize(c: Config) returns (s: State)
    ensures ReachableBy(c, QuietSteps(), s) && s.phase.Open? && |RaisedTasks(s)| == c.maxSize
  {
    Start(c, QuietSteps(), START);
    assert RaisedTasks(START) == {};
    s := RaiseMany(c, QuietSteps(), START, c.maxSize, 0);
  }

  // ---- In which configurations it is final ------------------------------------------------

  /** Once `max_size` checks have raised, no steps that are all `ok` hand out a session before shutdown is done. */
  ghost predicate SeizesUp(c: Config, ok: Step -> bool) {
    forall s, s' :: ReachableBy(c, ok, s) && |RaisedTasks(s)| >= c.maxSize && Leads(c, ok, s, s') && !s'.phase.Done? ==>
      s'.totalLeases == s.totalLeases
  }

  /** Without warm-ups: exactly if `min_idle` is at most 1. */
  lemma SeizesUpWithoutWarmUpsIff(c: Config)
    requires ValidConfig(c)
    ensures SeizesUp(c, NoWarmUps()) <==> c.minIdle <= 1
  {
    if c.minIdle <= 1 {
      forall s, s' | ReachableBy(c, NoWarmUps(), s) && |RaisedTasks(s)| >= c.maxSize &&
          Leads(c, NoWarmUps(), s, s') && !s'.phase.Done?
        ensures s'.totalLeases == s.totalLeases
      {
        SmallMinIdleIsQuiet(c, s);
        var steps :| Legal(c, s, steps) && After(c, s, steps) == s' && All(NoWarmUps(), steps);
        QuietIfNoWarmUps(c, s, steps);
        RaisedChecksSeizeThePool(c, s, steps);
      }
    } else {
      var s, s' := PutBackIsLeased(c);
    }
  }

  lemma QuietIfNoWarmUps(c: Config, s: State, steps: seq<Step>)
    requires c.minIdle <= 1 && Legal(c, s, steps) && All(NoWarmUps(), steps)
    ensures All(QuietSteps(), steps)
  {
    SmallMinIdleIsTame(c, 1, s, steps);
    forall i | 0 <= i < |steps|
      ensures QuietSteps()(steps[i])
    {
      assert NoWarmUps()(steps[i]) && TameSteps(1)(steps[i]);
    }
  }

  /** While an entry ages out, `max_size` checks raise; then the survivor is put back and leased. */
  lemma PutBackIsLeased(c: Config) returns (s: State, s': State)
    requires ValidConfig(c) && c.minIdle >= 2
    ensures ReachableBy(c, NoWarmUps(), s) && |RaisedTasks(s)| == c.maxSize
    ensures Leads(c, NoWarmUps(), s, s') && s'.phase.Open? && s'.totalLeases > s.totalLeases
  {
    var ok := NoWarmUps();
    NoWarmUpsAllow();
    var s1 := OlderAgedOutRaises(c);
    s := RaiseMany(c, ok, s1, c.maxSize - 1, 3);
    Start(c, ok, s);
    var s2 := Next(c, ok, s, s, Reap(ReapRefill));
    s' := LeaseIdle(c, ok, s, s2, 3 + 2 * (c.maxSize - 1));
  }

  lemma OlderAgedOutRaises(c: Config) returns (s: State)
    requires ValidConfig(c) && c.minIdle >= 2
    ensures ReachableBy(c, NoWarmUps(), s) && Ready(s) && s.reaper == AgingOut([1], [], []) && s.idle == []
    ensures Total(s) == 1 && Unused(s, 3) && NoPending(s) && |RaisedTasks(s)| == 1
  {
    NoWarmUpsAllow();
    var s1 := OlderAgedOut(c);
    s := RaiseOnIdle(c, NoWarmUps(), START, s1, 2);
    assert RaisedTasks(s) == {2} && s.inUse == {Env(0)};
  }

  /** In all runs: exactly if `min_idle` is 0, when nothing is ever warmed up. */
  lemma SeizesUpIff(c: Config)
    requires ValidConfig(c)
    ensures SeizesUp(c, AnyStep()) <==> c.minIdle == 0
  {
    if c.minIdle == 0 {
      SeizesUpWithoutWarmUpsIff(c);
      forall s, s' | Reachable(c, s) && |RaisedTasks(s)| >= c.maxSize && Leads(c, AnyStep(), s, s') && !s'.phase.Done?
        ensures s'.totalLeases == s.totalLeases
      {
        var before :| Legal(c, START, before) && After(c, START, before) == s && All(AnyStep(), before);
        var steps :| Legal(c, s, steps) && After(c, s, steps) == s' && All(AnyStep(), steps);
        NothingToWarm(c, START, before);
        NothingToWarm(c, s, steps);
        assert ReachableBy(c, NoWarmUps(), s) && Leads(c, NoWarmUps(), s, s');
      }
    } else {
      var s, s' := WarmedIsLeased(c);
    }
  }

  lemma {:induction false} NothingToWarm(c: Config, s: State, steps: seq<Step>)
    requires c.minIdle == 0 && !s.reaper.Warming? && Legal(c, s, steps)
    ensures All(NoWarmUps(), steps) && !After(c, s, steps).reaper.Warming?
    decreases |steps|
  {
    if steps == [] {
    } else {
      var s1 := Do(c, s, steps[0]);
      NothingWarmed(c, s, steps[0]);
      NothingToWarm(c, s1, steps[1..]);
      assert NoWarmUps()(steps[0]);
    }
  }

  lemma NothingWarmed(c: Config, s: State, step: Step)
    requires c.minIdle == 0 && !s.reaper.Warming? && Enabled(c, s, step)
    ensures !Warms(step) && !Do(c, s, step).reaper.Warming?
  {
    match step
    case Acquire(t, a) => assert DoAcquire(c, s, t, a).reaper == s.reaper;
    case Release(t, r) => assert DoRelease(s, t, r).reaper == s.reaper;
    case Reap(p) =>
    case Shutdown(q) =>
  }

  /** A warm-up begun before the checks raised delivers an environment for the next session. */
  lemma WarmedIsLeased(c: Config) returns (s: State, s': State)
    requires ValidConfig(c) && c.minIdle >= 1
    ensures Reachable(c, s) && |RaisedTasks(s)| == c.maxSize
    ensures Leads(c, AnyStep(), s, s') && s'.phase.Open? && s'.totalLeases > s.totalLeases
  {
    var ok, k := AnyStep(), 2 * c.maxSize;
    Start(c, ok, START);
    var s1 := Next(c, ok, START, START, Reap(WarmBegin));
    assert RaisedTasks(s1) == {};
    s := RaiseMany(c, ok, s1, c.maxSize, 0);
    Start(c, ok, s);
    var s2 := Next(c, ok, s, s, Reap(WarmOk(k)));
    s' := LeaseIdle(c, ok, s, s2, k);
  }
}
