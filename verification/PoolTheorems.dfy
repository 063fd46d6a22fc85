/**
 * The promises of the pool, each for the interleavings in which the code keeps it, and for all in which
 * it does.
 */
module PoolTheorems {
  import opened Prelude
  import opened PoolProtocol
  import opened PoolSafety
  import opened PoolLedger
  import opened PoolShutdown

  /*
   * The promises hold for every interleaving of any number of sessions, reaper passes, warm-ups and
   * shutdown.  A pass that meets a kept entry past its TTL awaits while the queue it put back is
   * open to everybody, and then drains and rebuilds it.  Each promise but the count of leases says how
   * many entries such a pass may keep; `PoolLimits` shows that none holds for more.
   */

  lemma PlacesReachable(c: Config, s: State)
    requires ReachableTame(c, 2, s)
    ensures Places(s)
  {
    var steps :| Legal(c, START, steps) && After(c, START, steps) == s && All(TameSteps(2), steps);
    StartPlaces();
    PlacesAlways(c, START, steps);
  }

  ghost predicate HeldIsNotIdle(s: State) { forall t, e :: Holds(s, t, e) ==> e !in s.idle }

  ghost predicate HeldIsNotAside(s: State) { forall t, e :: Holds(s, t, e) ==> e !in Aside(s) }

  ghost predicate OneHolderEach(s: State) { forall t, u, e :: Holds(s, t, e) && Holds(s, u, e) ==> t == u }

  ghost predicate InUseIsHeld(s: State) {
    !s.phase.Done? ==> forall e :: Env(e) in s.inUse <==> exists t :: Holds(s, t, e)
  }

  /**
   * `idle` holds an environment at most once, and an idle environment is held by nobody; no
   * environment is held by two tasks; until shutdown empties it, `in_use` lists exactly the
   * environments that tasks hold.
   */
  lemma EachEnvironmentInOnePlace(c: Config, s: State)
    requires ReachableTame(c, 2, s)
    ensures NoDup(s.idle) && HeldIsNotIdle(s) && HeldIsNotAside(s) && OneHolderEach(s) && InUseIsHeld(s)
  {
    PlacesReachable(c, s);
  }

  /** Before shutdown every environment not yet destroyed is idle, in use, or with the reaper. */
  ghost predicate Accounted(s: State) {
    forall e :: e in s.created && e !in s.destroyed ==> e in s.idle || e in Aside(s) || Env(e) in s.inUse
  }

  lemma NothingIsLost(c: Config, s: State)
    requires ReachableTame(c, 0, s) && s.phase.Open?
    ensures Accounted(s)
  {
    InvReachable(c, s);
    assert Covered(s) && Unspoiled(s) && SlotsMatch(s);
  }

  /** Nobody holds what has been passed to destroy. */
  ghost predicate NoneDestroyedHeld(s: State) { forall t, e :: Holds(s, t, e) ==> e !in s.destroyed }

  ghost predicate NoneDestroyedIdle(s: State) { forall e :: e in s.destroyed ==> e !in s.idle }

  lemma DestroyedStaysUnused(c: Config, s: State)
    requires ReachableTame(c, 1, s) && s.phase.Open?
    ensures NoneDestroyedHeld(s) && NoneDestroyedIdle(s)
  {
    var steps :| Legal(c, START, steps) && After(c, START, steps) == s && All(TameSteps(1), steps);
    StartPlaces();
    UnspoiledAlways(c, START, steps);
  }

  /** A step of task `t` that starts `exec_in_environment` on the environment only `t` holds. */
  ghost predicate RunsOwn(s: State, step: Step) {
    && step.Release? && step.r.Run? && step.t in s.tasks && s.tasks[step.t].Leased?
    && var e := s.tasks[step.t].env;
    && (forall u :: Holds(s, u, e) <==> u == step.t)
    && e !in s.idle && e !in Aside(s)
    && (!s.phase.Done? ==> Env(e) in s.inUse)
  }

  /** A call of `exec` on a session that is still open starts a command, and nothing else does. */
  ghost predicate StartsOnlyOwn(c: Config, s: State, step: Step)
    requires Enabled(c, s, step)
  {
    var starts := step.Release? && step.r.Run? && step.t in s.tasks && s.tasks[step.t].Leased?;
    && Do(c, s, step).execs == (if starts then s.execs + [Exec(step.t, s.tasks[step.t].env)] else s.execs)
    && (starts ==> RunsOwn(s, step))
  }

  /**
   * Only a call on a session whose task is still inside its `async with` starts a command, and it
   * starts it on the environment which that task, and no other, holds.
   */
  lemma ExecOnlyOnOwnEnvironment(c: Config, s: State, step: Step)
    requires ReachableTame(c, 2, s) && Enabled(c, s, step)
    ensures StartsOnlyOwn(c, s, step)
  {
    PlacesReachable(c, s);
    match step
    case Release(t, r) => RunUsesOwnEnvironment(c, s, t, r);
    case _ => assert Do(c, s, step).execs == s.execs;
  }

  lemma RunUsesOwnEnvironment(c: Config, s: State, t: TaskId, r: ReleaseStep)
    requires Places(s) && CanRelease(s, t, r)
    ensures StartsOnlyOwn(c, s, Release(t, r))
  {
    if r.Run? && s.tasks[t].Leased? { assert Holds(s, t, s.tasks[t].env); }
  }

  /** In every interleaving of sessions, reaper passes and shutdown, but no warm-up, `max_size` is kept. */
  lemma MaxSizeRespected(c: Config, s: State)
    requires ReachableBy(c, QuietSteps(), s) && !s.phase.Done?
    ensures |s.idle| + |s.inUse| <= c.maxSize
  {
    var steps :| Legal(c, START, steps) && After(c, START, steps) == s && All(QuietSteps(), steps);
    StartPlaces();
    TotalWithoutWarmUps(c, START, steps);
  }

  /** With warm-ups, `total` and what is still owed exceed `max_size` by at most `min_idle`. */
  lemma WarmUpsOvershootAtMostMinIdle(c: Config, s: State)
    requires ValidConfig(c) && ReachableTame(c, 2, s) && !s.phase.Done?
    ensures |s.idle| + |s.inUse| + Owed(s) <= c.maxSize + c.minIdle
  {
    var steps :| Legal(c, START, steps) && After(c, START, steps) == s && All(TameSteps(2), steps);
    StartPlaces();
    TotalWithWarmUps(c, START, steps);
  }

  ghost predicate Balances(s: State) {
    |s.created| == |s.idle| + |EnvSlots(s)| + s.totalKills + s.reaped
  }

  /** Before shutdown: created is idle, really in use, killed or reaped. */
  lemma CreatedBalances(c: Config, s: State)
    requires ReachableTame(c, 0, s) && s.phase.Open?
    ensures Balances(s)
  {
    InvReachable(c, s);
    EnvSlotCount(s);
  }

  /** In every run each counted lease is one session handed out. */
  lemma LeasesBalance(c: Config, s: State)
    requires Reachable(c, s)
    ensures s.totalLeases == |Lessees(s)|
  {
    var steps :| Legal(c, START, steps) && After(c, START, steps) == s && All(AnyStep(), steps);
    assert Lessees(START) == {};
    LeasesAlwaysCounted(c, START, steps);
  }
}
