/**
 * Slots change under `sp.lock`, which a task keeps while its environment is being created: what the others can
 * do meanwhile, and when a call waits or creates.
 */
module PoolLock {
  import opened Prelude
  import opened PoolProtocol

  // ---- The lock ---------------------------------------------------------------------------

  ghost predicate OwnerCreates(s: State) { forall t :: t in s.tasks && s.tasks[t].Creating? <==> s.lock == Some(t) }

  /** `step` is one of task `t`. */
  predicate IsOf(t: TaskId, step: Step) { (step.Acquire? || step.Release?) && step.t == t }

  lemma OwnerKept(c: Config, s: State, step: Step)
    requires OwnerCreates(s) && Enabled(c, s, step)
    ensures OwnerCreates(Do(c, s, step))
  {
    match step
    case Acquire(t, a) => OthersStay(s, DoAcquire(c, s, t, a), t);
    case Release(t, r) => if !r.Run? { OthersStay(s, DoRelease(s, t, r), t); }
    case Reap(p) => assert DoReap(c, s, p).tasks == s.tasks;
    case Shutdown(q) => assert DoShutdown(s, q).tasks == s.tasks;
  }

  /** Where only task `t` moves, it gets the lock by starting a creation and loses it by ending it. */
  lemma OthersStay(s: State, s': State, t: TaskId)
    requires OwnerCreates(s) && t in s'.tasks && s'.tasks == s.tasks[t := s'.tasks[t]]
    requires s'.tasks[t].Creating? ==> s'.lock == Some(t) && (s.lock.None? || s.lock == Some(t))
    requires !s'.tasks[t].Creating? ==> s'.lock == if s.lock == Some(t) then None else s.lock
    ensures OwnerCreates(s')
  {
    assert t in s.tasks && s.tasks[t].Creating? <==> s.lock == Some(t);
    forall u | u != t
      ensures u in s'.tasks && s'.tasks[u].Creating? <==> s.lock == Some(u)
    {
      assert u in s.tasks && s.tasks[u].Creating? <==> s.lock == Some(u);
    }
  }

  lemma {:induction false} OwnerAlways(c: Config, s: State, steps: seq<Step>)
    requires OwnerCreates(s) && Legal(c, s, steps)
    ensures OwnerCreates(After(c, s, steps))
    decreases |steps|
  {
    if steps == [] {
    } else {
      OwnerKept(c, s, steps[0]);
      OwnerAlways(c, Do(c, s, steps[0]), steps[1..]);
    }
  }

  /** In every run one task at most is creating, and it is the one that holds the lock. */
  lemma OneCreationAtATime(c: Config, s: State)
    requires Reachable(c, s)
    ensures forall t :: t in s.tasks && s.tasks[t].Creating? <==> s.lock == Some(t)
  {
    var steps :| Legal(c, START, steps) && After(c, START, steps) == s && All(AnyStep(), steps);
    OwnerAlways(c, START, steps);
  }

  /** Nobody's slot, no counter and no place in the queue has changed, but perhaps the queue's order. */
  ghost predicate SlotsStay(s: State, s': State) {
    && s'.lock == s.lock && s'.inUse == s.inUse && s'.totalLeases == s.totalLeases && s'.totalKills == s.totalKills
    && multiset(s'.idle) == multiset(s.idle) && s'.destroyed == s.destroyed
  }

  lemma AcquireUnderLock(c: Config, s: State, t: TaskId, a: AcquireStep)
    requires OwnerCreates(s) && CanAcquire(c, s, t, a) && s.lock.Some? && s.lock != Some(t)
    ensures SlotsStay(s, DoAcquire(c, s, t, a))
  {
    if a.Wake? { assert s.idle == [s.idle[0]] + s.idle[1..]; }
  }

  lemma ReleaseUnderLock(s: State, t: TaskId, r: ReleaseStep)
    requires CanRelease(s, t, r) && s.lock.Some?
    ensures SlotsStay(s, DoRelease(s, t, r))
  {
  }

  /**
   * While an environment is being created nobody but its creator changes a slot or a counter, or
   * takes an environment off the queue for itself; only the end of shutdown clears the slots.
   */
  lemma SlotsChangeUnderLock(c: Config, s: State, step: Step, owner: TaskId)
    requires Reachable(c, s) && Enabled(c, s, step) && s.lock == Some(owner) && !IsOf(owner, step)
    ensures var s' := Do(c, s, step);
      && (step.Acquire? || step.Release? ==> SlotsStay(s, s'))
      && s'.lock == s.lock && s'.totalLeases == s.totalLeases && s'.totalKills == s.totalKills
      && s'.inUse == (if step == Shutdown(ShutdownEnd) then {} else s.inUse)
  {
    OneCreationAtATime(c, s);
    match step
    case Acquire(t, a) => AcquireUnderLock(c, s, t, a);
    case Release(t, r) => ReleaseUnderLock(s, t, r);
    case Reap(p) =>
    case Shutdown(q) =>
  }

  // ---- A full pool ------------------------------------------------------------------------

  ghost predicate Full(c: Config, s: State) { s.idle == [] && |s.idle| + |s.inUse| >= c.maxSize }

  /** The pool was full at some moment of the run. */
  ghost predicate OnceFull(c: Config, s: State, steps: seq<Step>)
    requires Legal(c, s, steps)
    decreases |steps|
  {
    Full(c, s) || (steps != [] && OnceFull(c, Do(c, s, steps[0]), steps[1..]))
  }

  /** The task waits for a release, or has given up. */
  predicate HasWaited(s: State, t: TaskId) {
    t in s.tasks && (s.tasks[t] == Waiting || s.tasks[t] == Ended(Exhausted))
  }

  lemma WaitsIfFull(c: Config, s: State, step: Step, t: TaskId)
    requires Enabled(c, s, step) && !HasWaited(s, t) && HasWaited(Do(c, s, step), t)
    ensures Full(c, s)
  {
    match step
    case Acquire(u, a) =>
    case Release(u, r) =>
    case Reap(p) =>
    case Shutdown(q) =>
  }

  /** A creation begins only while nothing is idle and there is room. */
  lemma CreatesOnlyIfNoneIdle(c: Config, s: State, step: Step, t: TaskId)
    requires Enabled(c, s, step) && !(t in s.tasks && s.tasks[t].Creating?)
    requires t in Do(c, s, step).tasks && Do(c, s, step).tasks[t].Creating?
    ensures s.idle == [] && |s.inUse| < c.maxSize && s.lock == None
  {
    match step
    case Acquire(u, a) =>
    case Release(u, r) =>
    case Reap(p) =>
    case Shutdown(q) =>
  }

  /** A session waits, or ends as exhausted, only if the pool has been full since it entered. */
  lemma {:induction false} ExhaustedOnlyIfFull(c: Config, s: State, steps: seq<Step>, t: TaskId)
    requires Legal(c, s, steps) && !HasWaited(s, t) && HasWaited(After(c, s, steps), t)
    ensures OnceFull(c, s, steps)
    decreases |steps|
  {
    if steps == [] {
    } else if HasWaited(Do(c, s, steps[0]), t) {
      WaitsIfFull(c, s, steps[0], t);
    } else {
      ExhaustedOnlyIfFull(c, Do(c, s, steps[0]), steps[1..], t);
    }
  }
}
