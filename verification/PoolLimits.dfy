/**
 * Where the pool's promises end: for each the configurations in which every run keeps it, and a run that
 * breaks it in every other.
 */
module PoolLimits {
  import opened Prelude
  import opened PoolProtocol
  import opened PoolSafety
  import opened PoolLedger
  import opened PoolShutdown
  import opened PoolHealth
  import opened PoolTheorems
  import opened PoolRuns

  function NoWarmUps(): Step -> bool { step => !Warms(step) }

  lemma NoWarmUpsAllow()
    ensures Sessions(NoWarmUps()) && forall q :: NoWarmUps()(Shutdown(q))
  {
  }

  lemma AnyRun(c: Config, ok: Step -> bool, s: State)
    requires ReachableBy(c, ok, s)
    ensures Reachable(c, s)
  {
    var steps :| Legal(c, START, steps) && After(c, START, steps) == s && All(ok, steps);
    assert All(AnyStep(), steps);
  }

  // ---- Lost: an environment released while an entry ages out ------------------------------

  lemma OneAgedOut(c: Config) returns (s: State)
    requires ValidConfig(c) && c.minIdle >= 1
    ensures ReachableBy(c, NoWarmUps(), s) && Ready(s) && s.reaper == AgingOut([], [], [])
    ensures s.idle == [] && s.inUse == {} && s.created == {0} && s.destroyed == {0} && s.abandoned == {}
    ensures s.reaped == 1 && s.totalKills == 0
    ensures s.tasks == map[0 := Ended(Released)]
  {
    var ok := NoWarmUps();
    NoWarmUpsAllow();
    Start(c, ok, START);
    var s1 := LeaseNew(c, ok, START, START, 0, 0);
    var s2 := Return(c, ok, START, s1, 0);
    s := Next(c, ok, START, s2, Reap(ReapPass([0], 0, [])));
  }

  /**
   * One idle entry ages out.  While its destruction is awaited, a session creates environment 1 and
   * gives it back; then the queue is drained and refilled without it.
   */
  lemma AgingOutLosesOne(c: Config) returns (s: State)
    requires ValidConfig(c) && c.minIdle >= 1
    ensures ReachableBy(c, NoWarmUps(), s) && s.phase.Open? && s.reaper == Destroying([])
    ensures s.idle == [] && s.inUse == {} && s.created == {0, 1} && s.destroyed == {0} && s.abandoned == {}
    ensures s.reaped == 1 && s.totalKills == 0
    ensures s.tasks == map[0 := Ended(Released), 1 := Ended(Released)]
  {
    var ok := NoWarmUps();
    NoWarmUpsAllow();
    var s1 := OneAgedOut(c);
    var s2 := LeaseNew(c, ok, START, s1, 1, 1);
    var s3 := Return(c, ok, START, s2, 1);
    s := Next(c, ok, START, s3, Reap(ReapRefill));
  }

  /** No environment is ever lost: true of exactly the configurations that keep nothing warm. */
  lemma NothingIsLostIff(c: Config)
    requires ValidConfig(c)
    ensures (forall s :: Reachable(c, s) && s.phase.Open? ==> Accounted(s)) <==> c.minIdle == 0
  {
    if c.minIdle == 0 {
      forall s | Reachable(c, s) && s.phase.Open?
        ensures Accounted(s)
      {
        ReachableIsTame(c, 0, s);
        NothingIsLost(c, s);
      }
    } else {
      var s := AgingOutLosesOne(c);
      AnyRun(c, NoWarmUps(), s);
      assert 1 in s.created && 1 !in s.destroyed;
    }
  }

  /** The counters add up in all runs of exactly the same configurations. */
  lemma CreatedBalancesIff(c: Config)
    requires ValidConfig(c)
    ensures (forall s :: Reachable(c, s) && s.phase.Open? ==> Balances(s)) <==> c.minIdle == 0
  {
    if c.minIdle == 0 {
      forall s | Reachable(c, s) && s.phase.Open?
        ensures Balances(s)
      {
        ReachableIsTame(c, 0, s);
        CreatedBalances(c, s);
      }
    } else {
      var s := AgingOutLosesOne(c);
      AnyRun(c, NoWarmUps(), s);
      assert EnvSlots(s) == {} && |s.created| == 2;
    }
  }

  // ---- Left behind: what a cancelled pass had not reached ---------------------------------

  /** Shutdown cancels a pass that has two surplus entries to destroy while it awaits the first. */
  lemma CancelledPassLeavesOne(c: Config) returns (s: State)
    requires ValidConfig(c) && c.minIdle == 0 && c.maxSize >= 2
    ensures ReachableTame(c, 0, s) && Finished(s)
    ensures s.created == {0, 1} && s.destroyed == {1} && s.abandoned == {0}
  {
    var ok := NoWarmUps();
    NoWarmUpsAllow();
    var s1 := TwoIdle(c, ok);
    assert multiset([]) + multiset([1, 0]) == multiset([0, 1]);
    var s2 := Next(c, ok, START, s1, Reap(ReapPass([], 0, [1, 0])));
    s := ShutDown(c, ok, START, s2);
    AnyRun(c, ok, s);
    ReachableIsTame(c, 0, s);
  }

  lemma LostOutlivesShutdown(c: Config) returns (s: State)
    requires ValidConfig(c) && c.minIdle >= 1
    ensures Reachable(c, s) && Finished(s) && s.abandoned == {} && 1 in s.created && 1 !in s.destroyed
  {
    var ok := NoWarmUps();
    NoWarmUpsAllow();
    var s1 := AgingOutLosesOne(c);
    s := ShutDown(c, ok, START, s1);
    AnyRun(c, ok, s);
  }

  /** What a finished shutdown leaves is what a cancelled pass had not reached: exactly if `min_idle` is 0. */
  lemma OnlyAbandonedOutliveIff(c: Config)
    requires ValidConfig(c)
    ensures (forall s :: Reachable(c, s) && Finished(s) ==> s.created - s.destroyed == s.abandoned) <==> c.minIdle == 0
  {
    if c.minIdle == 0 {
      forall s | Reachable(c, s) && Finished(s)
        ensures s.created - s.destroyed == s.abandoned
      {
        ReachableIsTame(c, 0, s);
        NothingOutlivesShutdown(c, s);
      }
    } else {
      var s := LostOutlivesShutdown(c);
      assert 1 in s.created - s.destroyed;
    }
  }

  /**
   * A finished shutdown has destroyed every environment there ever was: true of all runs in exactly
   * one configuration, a pool of one that keeps nothing warm.
   */
  lemma ShutdownDestroysEverythingIff(c: Config)
    requires ValidConfig(c)
    ensures (forall s :: Reachable(c, s) && Finished(s) ==> s.created == s.destroyed) <==>
              c.maxSize == 1 && c.minIdle == 0
  {
    if c.minIdle > 0 {
      var s := LostOutlivesShutdown(c);
    } else if c.maxSize > 1 {
      var s := CancelledPassLeavesOne(c);
      TameIsReachable(c, 0, 0, s);
    } else {
      forall s | Reachable(c, s) && Finished(s)
        ensures s.created == s.destroyed
      {
        LonePoolIsEmptied(c, s);
      }
    }
  }

  // ---- Used after destruction, and more than max_size -------------------------------------

  lemma OlderAgedOut(c: Config) returns (s: State)
    requires ValidConfig(c) && c.minIdle >= 2
    ensures ReachableBy(c, NoWarmUps(), s) && Ready(s) && s.reaper == AgingOut([1], [], [])
    ensures s.idle == [0] && s.inUse == {} && s.created == {0, 1} && s.destroyed == {0}
    ensures s.tasks == map[0 := Ended(Released), 1 := Ended(Released)]
  {
    NoWarmUpsAllow();
    var s1 := TwoIdle(c, NoWarmUps());
    assert multiset([1, 0]) + multiset([]) == multiset([0, 1]);
    s := Next(c, NoWarmUps(), START, s1, Reap(ReapPass([1, 0], 1, [])));
  }

  /** Of two kept entries the older has aged out; the younger is popped in its stead, and the older leased. */
  lemma AgedOutIsLeased(c: Config) returns (s: State)
    requires ValidConfig(c) && c.minIdle >= 2
    ensures ReachableBy(c, NoWarmUps(), s) && Ready(s) && s.reaper == AgingOut([1], [], [])
    ensures s.idle == [] && s.inUse == {Env(0)} && s.created == {0, 1} && s.destroyed == {0}
    ensures s.tasks.Keys == {0, 1, 2} && s.tasks[2] == Leased(0)
  {
    var ok := NoWarmUps();
    NoWarmUpsAllow();
    var s1 := OlderAgedOut(c);
    s := LeaseIdle(c, ok, START, s1, 2);
  }

  /** No session ever holds an environment that was passed to destroy: exactly if `min_idle` is at most 1. */
  lemma NoUseAfterDestroyIff(c: Config)
    requires ValidConfig(c)
    ensures (forall s :: Reachable(c, s) && s.phase.Open? ==> NoneDestroyedHeld(s)) <==> c.minIdle <= 1
  {
    if c.minIdle <= 1 {
      forall s | Reachable(c, s) && s.phase.Open?
        ensures NoneDestroyedHeld(s)
      {
        ReachableIsTame(c, 1, s);
        DestroyedStaysUnused(c, s);
      }
    } else {
      var s := AgedOutIsLeased(c);
      AnyRun(c, NoWarmUps(), s);
      assert Holds(s, 2, 0);
    }
  }

  /** Nor does it lie idle: exactly the same configurations. */
  lemma NoIdleAfterDestroyIff(c: Config)
    requires ValidConfig(c)
    ensures (forall s :: Reachable(c, s) && s.phase.Open? ==> NoneDestroyedIdle(s)) <==> c.minIdle <= 1
  {
    if c.minIdle <= 1 {
      forall s | Reachable(c, s) && s.phase.Open?
        ensures NoneDestroyedIdle(s)
      {
        ReachableIsTame(c, 1, s);
        DestroyedStaysUnused(c, s);
      }
    } else {
      var s := OlderAgedOut(c);
      AnyRun(c, NoWarmUps(), s);
    }
  }

  /** While the older entry is leased, sessions fill the pool; then the younger is put back as well. */
  lemma AgingOutOvershoots(c: Config) returns (s: State)
    requires ValidConfig(c) && c.minIdle >= 2
    ensures ReachableBy(c, NoWarmUps(), s) && s.phase.Open? && Total(s) == c.maxSize + 1
  {
    var ok := NoWarmUps();
    NoWarmUpsAllow();
    var s1 := AgedOutIsLeased(c);
    assert Total(s1) == 1;
    var s2 := FillUp(c, ok, START, s1, c.maxSize - 1, 3);
    s := Next(c, ok, START, s2, Reap(ReapRefill));
  }

  lemma SmallMinIdleIsQuiet(c: Config, s: State)
    requires c.minIdle <= 1 && ReachableBy(c, NoWarmUps(), s)
    ensures ReachableBy(c, QuietSteps(), s)
  {
    var steps :| Legal(c, START, steps) && After(c, START, steps) == s && All(NoWarmUps(), steps);
    SmallMinIdleIsTame(c, 1, START, steps);
    forall i | 0 <= i < |steps|
      ensures QuietSteps()(steps[i])
    {
      assert NoWarmUps()(steps[i]) && TameSteps(1)(steps[i]);
    }
  }

  /** Without warm-ups `total <= max_size` holds in all runs exactly if `min_idle` is at most 1. */
  lemma MaxSizeWithoutWarmUpsIff(c: Config)
    requires ValidConfig(c)
    ensures (forall s :: ReachableBy(c, NoWarmUps(), s) && !s.phase.Done? ==> Total(s) <= c.maxSize) <==> c.minIdle <= 1
  {
    if c.minIdle <= 1 {
      forall s | ReachableBy(c, NoWarmUps(), s) && !s.phase.Done?
        ensures Total(s) <= c.maxSize
      {
        SmallMinIdleIsQuiet(c, s);
        MaxSizeRespected(c, s);
      }
    } else {
      var s := AgingOutOvershoots(c);
    }
  }

  // ---- Leased twice -----------------------------------------------------------------------

  lemma OldestAgedOut(c: Config) returns (s: State)
    requires ValidConfig(c) && c.minIdle >= 3
    ensures ReachableBy(c, NoWarmUps(), s) && Ready(s) && s.idle == [1, 0] && s.reaper == AgingOut([2, 1], [], [])
    ensures s.inUse == {} && s.created == {0, 1, 2} && s.tasks.Keys == {0, 1, 2}
  {
    NoWarmUpsAllow();
    var s1 := ThreeIdle(c, NoWarmUps());
    assert multiset([2, 1, 0]) + multiset([]) == multiset([0, 1, 2]);
    s := Next(c, NoWarmUps(), START, s1, Reap(ReapPass([2, 1, 0], 2, [])));
  }

  /** Of three kept entries the oldest has aged out; a survivor is leased meanwhile. */
  lemma SurvivorIsAside(c: Config) returns (s: State)
    requires ValidConfig(c) && c.minIdle >= 3
    ensures ReachableBy(c, NoWarmUps(), s) && Ready(s) && s.reaper == AgingOut([2, 1], [], []) && Holds(s, 3, 1)
    ensures s.inUse == {Env(1)} && s.created == {0, 1, 2} && s.tasks.Keys == {0, 1, 2, 3} && s.tasks[3] == Leased(1)
  {
    NoWarmUpsAllow();
    var s1 := OldestAgedOut(c);
    s := LeaseIdle(c, NoWarmUps(), START, s1, 3);
  }

  /** It is put back all the same. */
  lemma SurvivorIsLeased(c: Config) returns (s: State)
    requires ValidConfig(c) && c.minIdle >= 3
    ensures ReachableBy(c, NoWarmUps(), s) && Ready(s) && s.idle == [2, 1] && s.reaper == Destroying([])
    ensures Holds(s, 3, 1)
    ensures s.inUse == {Env(1)} && s.created == {0, 1, 2} && s.tasks.Keys == {0, 1, 2, 3} && s.tasks[3] == Leased(1)
  {
    NoWarmUpsAllow();
    var s1 := SurvivorIsAside(c);
    s := Next(c, NoWarmUps(), START, s1, Reap(ReapRefill));
  }

  /** And so it is leased again. */
  lemma SurvivorIsLeasedTwice(c: Config) returns (s: State)
    requires ValidConfig(c) && c.minIdle >= 3
    ensures Reachable(c, s) && Ready(s) && s.idle == [] && s.reaper == Destroying([])
    ensures Holds(s, 3, 1) && Holds(s, 5, 1)
    ensures s.inUse == {Env(1), Env(2)} && s.created == {0, 1, 2} && s.tasks.Keys == {0, 1, 2, 3, 4, 5}
    ensures s.tasks[3] == Leased(1) && s.tasks[4] == Leased(2) && s.tasks[5] == Leased(1)
  {
    var ok := NoWarmUps();
    NoWarmUpsAllow();
    var s1 := SurvivorIsLeased(c);
    var s2 := LeaseIdle(c, ok, START, s1, 4);
    s := LeaseIdle(c, ok, START, s2, 5);
    AnyRun(c, ok, s);
  }

  /** No environment is ever leased twice: exactly if `min_idle` is at most 2. */
  lemma NoDoubleLeaseIff(c: Config)
    requires ValidConfig(c)
    ensures (forall s :: Reachable(c, s) ==> OneHolderEach(s)) <==> c.minIdle <= 2
  {
    if c.minIdle <= 2 {
      forall s | Reachable(c, s)
        ensures OneHolderEach(s)
      {
        ReachableIsTame(c, 2, s);
        EachEnvironmentInOnePlace(c, s);
      }
    } else {
      var s := SurvivorIsLeasedTwice(c);
    }
  }

  /** Nor is a leased one idle, set aside by the reaper, or idle twice: the same configurations. */
  lemma OnePlaceIffs(c: Config)
    requires ValidConfig(c)
    ensures (forall s :: Reachable(c, s) ==> HeldIsNotIdle(s)) <==> c.minIdle <= 2
    ensures (forall s :: Reachable(c, s) ==> HeldIsNotAside(s)) <==> c.minIdle <= 2
    ensures (forall s :: Reachable(c, s) ==> NoDup(s.idle)) <==> c.minIdle <= 2
    ensures (forall s :: Reachable(c, s) ==> InUseIsHeld(s)) <==> c.minIdle <= 2
  {
    if c.minIdle <= 2 {
      forall s | Reachable(c, s)
        ensures NoDup(s.idle) && HeldIsNotIdle(s) && HeldIsNotAside(s) && InUseIsHeld(s)
      {
        ReachableIsTame(c, 2, s);
        EachEnvironmentInOnePlace(c, s);
      }
    } else {
      var s1 := SurvivorIsLeased(c);
      AnyRun(c, NoWarmUps(), s1);
      var s2 := SurvivorIsAside(c);
      AnyRun(c, NoWarmUps(), s2);
      var s3 := SurvivorIsIdleTwice(c);
      var s4 := HiddenLease(c);
    }
  }

  lemma SurvivorIsIdleTwice(c: Config) returns (s: State)
    requires ValidConfig(c) && c.minIdle >= 3
    ensures Reachable(c, s) && !NoDup(s.idle)
  {
    NoWarmUpsAllow();
    var s1 := SurvivorIsLeased(c);
    s := Return(c, NoWarmUps(), START, s1, 3);
    assert s.idle[1] == s.idle[2];
    AnyRun(c, NoWarmUps(), s);
  }

  /** A command starts only on an environment its session alone holds: the same configurations. */
  lemma ExecOnlyOnOwnIff(c: Config)
    requires ValidConfig(c)
    ensures (forall s, step :: Reachable(c, s) && Enabled(c, s, step) ==> StartsOnlyOwn(c, s, step)) <==> c.minIdle <= 2
  {
    if c.minIdle <= 2 {
      forall s, step | Reachable(c, s) && Enabled(c, s, step)
        ensures StartsOnlyOwn(c, s, step)
      {
        ReachableIsTame(c, 2, s);
        ExecOnlyOnOwnEnvironment(c, s, step);
      }
    } else {
      var s := SurvivorIsLeasedTwice(c);
      var step := Release(3, Run);
      assert Enabled(c, s, step) && |Do(c, s, step).execs| == |s.execs| + 1;
      assert !StartsOnlyOwn(c, s, step);
    }
  }

  /** The verdicts of health checks stand: the same configurations. */
  lemma VerdictsStandIff(c: Config)
    requires ValidConfig(c)
    ensures (forall steps :: Legal(c, START, steps) ==> VerdictsStand(c, steps)) <==> c.minIdle <= 2
  {
    if c.minIdle <= 2 {
      forall steps | Legal(c, START, steps)
        ensures VerdictsStand(c, steps)
      {
        SmallMinIdleIsTame(c, 2, START, steps);
        OnlyVettedEnvironmentsAreLeased(c, steps);
      }
    } else {
      var steps := FailedIsLeased(c);
    }
  }

  /** One of its two sessions finds the environment dead; the other still has it. */
  lemma FailedIsLeased(c: Config) returns (steps: seq<Step>)
    requires ValidConfig(c) && c.minIdle >= 3
    ensures Legal(c, START, steps) && !VerdictsStand(c, steps)
  {
    var s := SurvivorIsLeasedTwice(c);
    var before :| Legal(c, START, before) && After(c, START, before) == s && All(AnyStep(), before);
    var exit, check := Release(3, Exit), Release(3, ReleaseChecked(false));
    AfterSnoc(c, START, before, exit);
    AfterSnoc(c, START, before + [exit], check);
    JudgeSnoc(c, START, NONE_YET, before + [exit], check);
    steps := before + [exit] + [check];
    assert 1 in JudgeRun(c, START, NONE_YET, steps).failed;
    assert After(c, START, steps).tasks[5] == Leased(1);
  }

  // ---- A lease that fills no slot ---------------------------------------------------------

  /** The first of the two leases of environment 1 has ended; the environment was dropped while an entry aged out. */
  lemma HiddenLease(c: Config) returns (s: State)
    requires ValidConfig(c) && c.minIdle >= 3
    ensures Reachable(c, s) && Ready(s) && s.idle == [] && s.inUse == {} && s.reaper == Destroying([])
    ensures s.created == {0, 1, 2} && s.tasks.Keys == {0, 1, 2, 3, 4, 5} && s.tasks[5] == Leased(1) && Holds(s, 5, 1)
  {
    var s1 := OtherIsAgingOut(c);
    var s2 := Return(c, AnyStep(), START, s1, 3);
    s := Next(c, AnyStep(), START, s2, Reap(ReapRefill));
  }

  lemma OtherIsAgingOut(c: Config) returns (s: State)
    requires ValidConfig(c) && c.minIdle >= 3
    ensures Reachable(c, s) && Ready(s) && s.idle == [] && s.inUse == {Env(1)} && s.reaper == AgingOut([], [], [])
    ensures s.created == {0, 1, 2} && s.tasks.Keys == {0, 1, 2, 3, 4, 5}
    ensures s.tasks[3] == Leased(1) && s.tasks[5] == Leased(1)
  {
    var s1 := OtherIsIdle(c);
    s := Next(c, AnyStep(), START, s1, Reap(ReapPass([2], 0, [])));
  }

  /** The second environment is given back; the warm-up after the pass fails. */
  lemma OtherIsIdle(c: Config) returns (s: State)
    requires ValidConfig(c) && c.minIdle >= 3
    ensures Reachable(c, s) && Ready(s) && s.idle == [2] && s.inUse == {Env(1)} && s.reaper == Resting
    ensures s.created == {0, 1, 2} && s.tasks.Keys == {0, 1, 2, 3, 4, 5}
    ensures s.tasks[3] == Leased(1) && s.tasks[5] == Leased(1)
  {
    var s1 := SurvivorIsLeasedTwice(c);
    var s2 := Return(c, AnyStep(), START, s1, 4);
    assert Total(s2) == 2;
    var s3 := Next(c, AnyStep(), START, s2, Reap(WarmBegin));
    s := Next(c, AnyStep(), START, s3, Reap(WarmFail));
  }

  // ---- Warm-ups ---------------------------------------------------------------------------

  /** The warm-up delivers all it owes, although the pool is full by now. */
  lemma {:induction false} WarmAll(c: Config, s: State, n: nat, k: int) returns (s': State)
    requires Reachable(c, s) && s.phase.Open? && s.reaper == Warm(n) && Unused(s, k)
    ensures Reachable(c, s') && s'.phase.Open? && Total(s') == Total(s) + n && s'.reaper == Resting
    ensures s'.tasks == s.tasks && s'.inUse == s.inUse && s'.lock == s.lock
    decreases n
  {
    if n == 0 {
      s' := s;
    } else {
      var s1 := Next(c, AnyStep(), START, s, Reap(WarmOk(k)));
      s' := WarmAll(c, s1, n - 1, k + 1);
    }
  }

  /** For every configuration some run reaches `max_size + min_idle`. */
  lemma OvershootReached(c: Config) returns (s: State)
    requires ValidConfig(c)
    ensures Reachable(c, s) && s.phase.Open? && Total(s) == c.maxSize + c.minIdle
  {
    Start(c, AnyStep(), START);
    var s1 := Next(c, AnyStep(), START, START, Reap(WarmBegin));
    var s2 := FillUp(c, AnyStep(), START, s1, c.maxSize, 0);
    s := WarmAll(c, s2, c.minIdle, c.maxSize);
  }

  /** The documented `total <= max_size, always` is true of exactly the configurations that keep nothing warm. */
  lemma MaxSizeAlwaysIff(c: Config)
    requires ValidConfig(c)
    ensures (forall s :: Reachable(c, s) && !s.phase.Done? ==> Total(s) <= c.maxSize) <==> c.minIdle == 0
  {
    if c.minIdle == 0 {
      forall s | Reachable(c, s) && !s.phase.Done?
        ensures Total(s) <= c.maxSize
      {
        ReachableIsTame(c, 2, s);
        WarmUpsOvershootAtMostMinIdle(c, s);
      }
    } else {
      var s := OvershootReached(c);
    }
  }

  /** The bound with warm-ups is exceeded when a lease that fills no slot ends in a full pool. */
  lemma HiddenLeaseOvershoots(c: Config) returns (s: State)
    requires ValidConfig(c) && c.minIdle >= 3
    ensures Reachable(c, s) && s.phase.Open? && Total(s) == c.maxSize + c.minIdle + 1
  {
    var s1 := HiddenLease(c);
    var s2 := Next(c, AnyStep(), START, s1, Reap(WarmBegin));
    var s3 := FillUp(c, AnyStep(), START, s2, c.maxSize, 6);
    var s4 := WarmAll(c, s3, c.minIdle, 6 + c.maxSize);
    s := Return(c, AnyStep(), START, s4, 5);
    assert s4.inUse - {Env(1)} == s4.inUse;
  }

  /** With warm-ups `max_size + min_idle` is never exceeded: exactly if `min_idle` is at most 2. */
  lemma MaxSizePlusMinIdleIff(c: Config)
    requires ValidConfig(c)
    ensures (forall s :: Reachable(c, s) && !s.phase.Done? ==> Total(s) + Owed(s) <= c.maxSize + c.minIdle) <==>
              c.minIdle <= 2
  {
    if c.minIdle <= 2 {
      forall s | Reachable(c, s) && !s.phase.Done?
        ensures Total(s) + Owed(s) <= c.maxSize + c.minIdle
      {
        ReachableIsTame(c, 2, s);
        WarmUpsOvershootAtMostMinIdle(c, s);
      }
    } else {
      var s := HiddenLeaseOvershoots(c);
    }
  }
}
