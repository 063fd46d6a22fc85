/**
 * What a finished shutdown leaves behind when sessions, creations and releases were in flight as it began and
 * no pass met a kept entry past its TTL.
 */
module PoolShutdown {
  import opened Prelude
  import opened PoolProtocol
  import opened PoolSafety
  import opened PoolLedger

  /** The copy of `in_use` that shutdown still has to destroy. */
  function Todo(s: State): seq<Slot> { if s.phase.Killing? then s.phase.todo else [] }

  /** Someone is still responsible for every environment ever created. */
  ghost predicate Covered(s: State) {
    forall e :: e in s.created ==>
      e in s.idle || e in Aside(s) || e in s.destroyed || e in s.abandoned || exists t :: Holds(s, t, e)
  }

  /** Passed to destroy, or about to be by the shutdown loop over `in_use`. */
  predicate Gone(s: State, e: EnvId) { e in s.destroyed || Env(e) in Todo(s) }

  /** The holder may still put the environment back to `idle`, or leave it behind. */
  predicate MayLinger(t: Task) { Held(t).Some? && !t.Leased? && !t.ReleaseDropping? }

  /** Once `in_use` has been copied, whatever can still reach `idle` is already taken care of. */
  ghost predicate Swept(s: State) {
    (s.phase.Killing? || s.phase.Done?) ==>
      && (forall e :: e in s.idle ==> Gone(s, e))
      && (forall t, e :: Holds(s, t, e) && MayLinger(s.tasks[t]) ==> Gone(s, e))
  }

  /** What a cancelled reaper pass still had to destroy is never seen again. */
  ghost predicate Stranded(s: State) {
    && (Closed(s) ==> s.reaper.Resting?)
    && (forall e :: Env(e) in Todo(s) ==> e in s.created && e !in s.abandoned)
    && (forall e :: e in s.abandoned ==> e in s.created && e !in s.destroyed && e !in s.idle && e !in Aside(s))
    && (forall t, e :: Holds(s, t, e) ==> e !in s.abandoned)
  }

  // ---- Covered ----------------------------------------------------------------------------

  lemma AcquireCovers(c: Config, s: State, t: TaskId, a: AcquireStep)
    requires Covered(s) && CanAcquire(c, s, t, a)
    ensures Covered(DoAcquire(c, s, t, a))
  {
    var s' := DoAcquire(c, s, t, a);
    OnlyOneMoves(s, s', t);
    if s.idle != [] { assert s.idle == [s.idle[0]] + s.idle[1..]; }
    if HeldBy(s', t).Some? { assert Holds(s', t, HeldBy(s', t).value); }
  }

  lemma ReleaseCovers(s: State, t: TaskId, r: ReleaseStep)
    requires Covered(s) && CanRelease(s, t, r)
    ensures Covered(DoRelease(s, t, r))
  {
    var s' := DoRelease(s, t, r);
    OnlyOneMoves(s, s', t);
    if HeldBy(s', t).Some? { assert Holds(s', t, HeldBy(s', t).value); }
  }

  lemma ReapCovers(c: Config, s: State, p: ReapStep)
    requires Covered(s) && CanReap(c, s, p) && TamePass(0, s) && Tame(0, Reap(p))
    ensures Covered(DoReap(c, s, p))
  {
    OthersHoldOn(s, DoReap(c, s, p));
    if p.ReapPass? {
      forall e | e in s.idle
        ensures e in p.kept || e in p.doomed
      {
        assert e in multiset(s.idle);
      }
      if p.doomed != [] { assert p.doomed == [p.doomed[0]] + p.doomed[1..]; }
    }
    if p.ReapDestroy? { assert s.reaper.rest == [s.reaper.rest[0]] + s.reaper.rest[1..]; }
  }

  lemma ShutdownCovers(s: State, q: ShutdownStep)
    requires Covered(s) && CanShutdown(s, q) && TamePass(0, s) && (q.ShutdownBegin? ==> s.abandoned == {})
    ensures Covered(DoShutdown(s, q))
  {
    OthersHoldOn(s, DoShutdown(s, q));
    if q.DrainOne? { assert s.idle == [s.idle[0]] + s.idle[1..]; }
  }

  // ---- Swept ------------------------------------------------------------------------------

  lemma AcquireSwept(c: Config, s: State, t: TaskId, a: AcquireStep)
    requires Swept(s) && CanAcquire(c, s, t, a)
    ensures Swept(DoAcquire(c, s, t, a))
  {
    var s' := DoAcquire(c, s, t, a);
    OnlyOneMoves(s, s', t);
    assert forall e :: Gone(s, e) ==> Gone(s', e);
    if HeldBy(s, t).Some? { assert Holds(s, t, HeldBy(s, t).value); }
  }

  lemma ReleaseSwept(s: State, t: TaskId, r: ReleaseStep)
    requires Swept(s) && CanRelease(s, t, r)
    ensures Swept(DoRelease(s, t, r))
  {
    var s' := DoRelease(s, t, r);
    OnlyOneMoves(s, s', t);
    assert forall e :: Gone(s, e) ==> Gone(s', e);
    if HeldBy(s, t).Some? { assert Holds(s, t, HeldBy(s, t).value); }
  }

  lemma ShutdownSwept(s: State, q: ShutdownStep)
    requires Places(s) && Swept(s) && CanShutdown(s, q)
    ensures Swept(DoShutdown(s, q))
  {
    var s' := DoShutdown(s, q);
    OthersHoldOn(s, s');
    match q
    case CopyInUse(todo) =>
      forall t, e | Holds(s', t, e)
        ensures Env(e) in todo
      {
        assert Holds(s, t, e);
        assert Env(e) in (set x | x in todo);
      }
    case KillOne =>
      assert s.phase.todo == [s.phase.todo[0]] + s.phase.todo[1..];
      assert forall e :: Gone(s, e) ==> Gone(s', e);
    case ShutdownEnd => assert forall e :: Gone(s, e) ==> Gone(s', e);
    case _ =>
  }

  // ---- Stranded ---------------------------------------------------------------------------

  lemma AcquireStrands(c: Config, s: State, t: TaskId, a: AcquireStep)
    requires Stranded(s) && CanAcquire(c, s, t, a)
    ensures Stranded(DoAcquire(c, s, t, a))
  {
    var s' := DoAcquire(c, s, t, a);
    OnlyOneMoves(s, s', t);
    if HeldBy(s, t).Some? { assert Holds(s, t, HeldBy(s, t).value); }
  }

  lemma ReleaseStrands(s: State, t: TaskId, r: ReleaseStep)
    requires Stranded(s) && CanRelease(s, t, r)
    ensures Stranded(DoRelease(s, t, r))
  {
    var s' := DoRelease(s, t, r);
    OnlyOneMoves(s, s', t);
    if HeldBy(s, t).Some? { assert Holds(s, t, HeldBy(s, t).value); }
  }

  lemma ReapStrands(c: Config, s: State, p: ReapStep)
    requires Unspoiled(s) && Stranded(s) && CanReap(c, s, p)
    ensures Stranded(DoReap(c, s, p))
  {
    OthersHoldOn(s, DoReap(c, s, p));
  }

  lemma ShutdownStrands(s: State, q: ShutdownStep)
    requires Places(s) && Unspoiled(s) && Stranded(s) && CanShutdown(s, q)
    ensures Stranded(DoShutdown(s, q))
  {
    var s' := DoShutdown(s, q);
    OthersHoldOn(s, s');
    match q
    case CopyInUse(todo) =>
      forall e | Env(e) in todo
        ensures e in s.created && e !in s.abandoned
      {
        assert Env(e) in (set x | x in todo);
        var t :| Holds(s, t, e);
      }
    case _ =>
  }

  // ---- Whole runs -------------------------------------------------------------------------

  /** Everything that holds at every await point of every run whose passes keep no entry past its TTL. */
  ghost predicate Inv(s: State) {
    && Places(s) && Unspoiled(s) && Balanced(s) && LeasesCounted(s)
    && Covered(s) && Swept(s) && Stranded(s) && TamePass(0, s)
  }

  lemma InvKept(c: Config, s: State, step: Step)
    requires Inv(s) && Enabled(c, s, step) && Tame(0, step)
    ensures Inv(Do(c, s, step))
  {
    PlacesKept(c, s, step);
    BalancedKept(c, s, step);
    LeasesCountedKept(c, s, step);
    TamePassKept(c, 0, s, step);
    match step
    case Acquire(t, a) =>
      AcquireUnspoiled(c, s, t, a);
      AcquireCovers(c, s, t, a);
      AcquireSwept(c, s, t, a);
      AcquireStrands(c, s, t, a);
    case Release(t, r) =>
      ReleaseUnspoiled(s, t, r);
      ReleaseCovers(s, t, r);
      ReleaseSwept(s, t, r);
      ReleaseStrands(s, t, r);
    case Reap(p) =>
      ReapUnspoiled(c, s, p);
      ReapCovers(c, s, p);
      ReapStrands(c, s, p);
    case Shutdown(q) =>
      ShutdownUnspoiled(s, q);
      ShutdownCovers(s, q);
      ShutdownSwept(s, q);
      ShutdownStrands(s, q);
  }

  lemma {:induction false} InvAlways(c: Config, s: State, steps: seq<Step>)
    requires Inv(s) && Legal(c, s, steps) && All(TameSteps(0), steps)
    ensures Inv(After(c, s, steps))
    decreases |steps|
  {
    if steps == [] {
    } else {
      assert TameSteps(0)(steps[0]);
      InvKept(c, s, steps[0]);
      InvAlways(c, Do(c, s, steps[0]), steps[1..]);
    }
  }

  lemma InvReachable(c: Config, s: State)
    requires ReachableTame(c, 0, s)
    ensures Inv(s)
  {
    var steps :| Legal(c, START, steps) && After(c, START, steps) == s && All(TameSteps(0), steps);
    assert Lessees(START) == {};
    InvAlways(c, START, steps);
  }

  /** `shutdown` has returned and every session has ended. */
  ghost predicate Finished(s: State) { s.phase.Done? && forall t :: t in s.tasks ==> s.tasks[t].Ended? }

  /**
   * If no pass meets a kept entry past its TTL, the environments that a finished shutdown has never
   * passed to `destroy_environment` are exactly those a cancelled reaper pass had drained and not
   * reached.
   */
  lemma NothingOutlivesShutdown(c: Config, s: State)
    requires ReachableTame(c, 0, s) && Finished(s)
    ensures s.created - s.destroyed == s.abandoned
    ensures s.destroyed <= s.created
    ensures s.created == s.destroyed <==> s.abandoned == {}
  {
    InvReachable(c, s);
    assert Unspoiled(s) && Stranded(s) && Swept(s) && Covered(s);
    forall e
      ensures e in s.created && e !in s.destroyed <==> e in s.abandoned
      ensures e in s.destroyed ==> e in s.created
    {
      assert e in s.idle ==> Gone(s, e);
      assert forall t :: Holds(s, t, e) ==> MayLinger(s.tasks[t]) && Gone(s, e);
    }
  }

  // ---- When a cancelled pass leaves nothing -----------------------------------------------

  /** A pool of one never has two surplus entries, so a pass destroys its only one before it first awaits. */
  ghost predicate NoBacklog(c: Config, s: State) {
    Places(s) && Bounded(c, s) && Aside(s) == [] && s.abandoned == {}
  }

  lemma NoBacklogKept(c: Config, s: State, step: Step)
    requires c.maxSize == 1 && c.minIdle == 0 && NoBacklog(c, s) && Enabled(c, s, step)
    ensures NoBacklog(c, Do(c, s, step))
  {
    PlacesKept(c, s, step);
    BoundedStep(c, s, step);
    match step
    case Acquire(t, a) => assert DoAcquire(c, s, t, a).reaper == s.reaper;
    case Release(t, r) => assert DoRelease(s, t, r).reaper == s.reaper;
    case Reap(p) => if p.ReapPass? { PassTotal(c, s, p); }
    case Shutdown(q) => assert Surplus(s.reaper) == [] && (set e | e in Surplus(s.reaper)) == {};
  }

  lemma {:induction false} NoBacklogAlways(c: Config, s: State, steps: seq<Step>)
    requires c.maxSize == 1 && c.minIdle == 0 && NoBacklog(c, s) && Legal(c, s, steps)
    ensures NoBacklog(c, After(c, s, steps))
    decreases |steps|
  {
    if steps == [] {
    } else {
      NoBacklogKept(c, s, steps[0]);
      NoBacklogAlways(c, Do(c, s, steps[0]), steps[1..]);
    }
  }

  /** In a pool of one without warm entries a finished shutdown has destroyed all there ever was. */
  lemma LonePoolIsEmptied(c: Config, s: State)
    requires c.maxSize == 1 && c.minIdle == 0 && Reachable(c, s) && Finished(s)
    ensures s.created == s.destroyed
  {
    var steps :| Legal(c, START, steps) && After(c, START, steps) == s && All(AnyStep(), steps);
    NoBacklogAlways(c, START, steps);
    ReachableIsTame(c, 0, s);
    NothingOutlivesShutdown(c, s);
  }
}
