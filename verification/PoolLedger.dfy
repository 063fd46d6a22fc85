/**
 * What has been destroyed is not used again before shutdown, and the counters count what they say:
 * what every step keeps, and what a step of the reaper keeps under which condition.  The state's
 * history fields are there for this: what was ever created, what was passed to destroy, and how many
 * environments the reaper took off the queue.
 */
module PoolLedger {
  import opened Prelude
  import opened PoolProtocol
  import opened PoolSafety

  // ---- Before shutdown nothing that was destroyed is used again ---------------------------

  ghost predicate Unspoiled(s: State) {
    && (forall e :: e in s.destroyed ==> e in s.created)
    && (s.phase.Open? ==>
          && s.abandoned == {}
          && (forall e :: e in s.destroyed ==> e !in s.idle && e !in Aside(s))
          && (forall t, e :: Holds(s, t, e) ==> e !in s.destroyed)
          && (forall t :: t in s.tasks ==> !s.tasks[t].ReleaseDropping?))
  }

  /** Task `t` moves on; only what it gives up meanwhile is destroyed. */
  predicate MovesClean(s: State, s': State, t: TaskId) {
    && MovesOn(s, s', t) && s'.phase == s.phase && s'.abandoned == s.abandoned
    && (s.phase.Open? ==> !s'.tasks[t].ReleaseDropping?)
    && (s'.destroyed == s.destroyed ||
        (HeldBy(s, t).Some? && HeldBy(s', t) == None && s'.destroyed == s.destroyed + {HeldBy(s, t).value}))
  }

  lemma MoveUnspoiled(s: State, s': State, t: TaskId)
    requires Places(s) && Unspoiled(s) && MovesClean(s, s', t)
    ensures Unspoiled(s')
  {
    OnlyOneMoves(s, s', t);
    if HeldBy(s, t).Some? { assert Holds(s, t, HeldBy(s, t).value); }
  }

  lemma QueueStepUnspoiled(c: Config, s: State, t: TaskId, a: AcquireStep)
    requires Places(s) && Unspoiled(s) && CanAcquire(c, s, t, a) && Queues(a)
    ensures Unspoiled(DoAcquire(c, s, t, a))
  {
    OnlyOneMoves(s, DoAcquire(c, s, t, a), t);
    HeadLeaves(s.idle);
  }

  lemma NewUnspoiled(c: Config, s: State, t: TaskId, env: EnvId)
    requires Places(s) && Unspoiled(s) && CanAcquire(c, s, t, CreateOk(env))
    ensures Unspoiled(DoAcquire(c, s, t, CreateOk(env)))
  {
    OnlyOneMoves(s, DoAcquire(c, s, t, CreateOk(env)), t);
  }

  lemma AcquireMovesClean(c: Config, s: State, t: TaskId, a: AcquireStep)
    requires CanAcquire(c, s, t, a) && !Queues(a) && !a.CreateOk?
    ensures MovesClean(s, DoAcquire(c, s, t, a), t)
  {
  }

  lemma AcquireUnspoiled(c: Config, s: State, t: TaskId, a: AcquireStep)
    requires Places(s) && Unspoiled(s) && CanAcquire(c, s, t, a)
    ensures Unspoiled(DoAcquire(c, s, t, a))
  {
    if Queues(a) {
      QueueStepUnspoiled(c, s, t, a);
    } else if a.CreateOk? {
      NewUnspoiled(c, s, t, a.env);
    } else {
      AcquireMovesClean(c, s, t, a);
      MoveUnspoiled(s, DoAcquire(c, s, t, a), t);
    }
  }

  lemma RequeueUnspoiled(s: State, t: TaskId)
    requires Places(s) && Unspoiled(s) && CanRelease(s, t, Settle) && Requeues(s, t, Settle)
    ensures Unspoiled(DoRelease(s, t, Settle))
  {
    assert Holds(s, t, s.tasks[t].env);
    OnlyOneMoves(s, DoRelease(s, t, Settle), t);
  }

  lemma ReleaseUnspoiled(s: State, t: TaskId, r: ReleaseStep)
    requires Places(s) && Unspoiled(s) && CanRelease(s, t, r)
    ensures Unspoiled(DoRelease(s, t, r))
  {
    if Requeues(s, t, r) {
      RequeueUnspoiled(s, t);
    } else {
      MoveUnspoiled(s, DoRelease(s, t, r), t);
    }
  }

  /** Nobody moves; what is destroyed comes from the queue or the surplus and does not stay there. */
  lemma TakenUnspoiled(s: State, s': State)
    requires Places(s) && Unspoiled(s) && s'.tasks == s.tasks && s'.created == s.created
    requires s'.phase == s.phase && s'.abandoned == s.abandoned
    requires forall e :: e in s'.idle || e in Aside(s') ==>
               (e in s.idle || e in Aside(s)) && (e in s'.destroyed ==> e in s.destroyed)
    requires forall e :: e in s'.destroyed ==> e in s.destroyed || e in s.idle || e in Aside(s)
    ensures Unspoiled(s')
  {
    OthersHoldOn(s, s');
  }

  lemma PutBackUnspoiled(s: State, r: State, kept: seq<EnvId>, doomed: seq<EnvId>)
    requires Places(s) && Unspoiled(s) && r == PutBack(s.(reaped := r.reaped), kept, doomed)
    requires NoDup(doomed) && s.reaper.Resting?
    requires forall e :: e in kept ==> e in s.idle && e !in doomed
    requires forall e :: e in doomed ==> e in s.idle
    ensures Unspoiled(r)
  {
    TailOf(doomed);
    TakenUnspoiled(s, r);
  }

  lemma PassUnspoiled(c: Config, s: State, p: ReapStep)
    requires Places(s) && Unspoiled(s) && CanReap(c, s, p) && p.ReapPass? && Tame(1, Reap(p))
    ensures Unspoiled(DoReap(c, s, p))
  {
    SplitNoDup(s.idle, p.kept, p.doomed);
    if p.young == |p.kept| {
      PutBackUnspoiled(s, DoReap(c, s, p), p.kept, p.doomed);
    } else {
      LoneEntryUnspoiled(c, s, p);
    }
  }

  lemma LoneEntryUnspoiled(c: Config, s: State, p: ReapStep)
    requires Places(s) && Unspoiled(s) && CanReap(c, s, p) && AgesOut(Reap(p)) && |p.kept| == 1
    requires p.kept[0] in s.idle && p.kept[0] !in p.doomed && forall e :: e in p.doomed ==> e in s.idle
    ensures Unspoiled(DoReap(c, s, p))
  {
    assert p.young == 0 && p.kept[..0] + p.doomed == p.doomed;
    TakenUnspoiled(s, DoReap(c, s, p));
  }

  lemma AgingUnspoiled(c: Config, s: State, p: ReapStep)
    requires Places(s) && Unspoiled(s) && CanReap(c, s, p) && (p.ReapRefill? || p.ReapAge?) && TamePass(1, s)
    ensures Unspoiled(DoReap(c, s, p))
  {
    OthersHoldOn(s, DoReap(c, s, p));
    assert s.reaper.surviving + s.reaper.doomed == s.reaper.doomed;
    TailOf(s.reaper.doomed);
  }

  lemma OtherReapUnspoiled(c: Config, s: State, p: ReapStep)
    requires Places(s) && Unspoiled(s) && CanReap(c, s, p) && !p.ReapPass? && !p.ReapAge? && !p.ReapRefill?
    ensures Unspoiled(DoReap(c, s, p))
  {
    OthersHoldOn(s, DoReap(c, s, p));
    TailOf(Aside(s));
  }

  lemma ReapUnspoiled(c: Config, s: State, p: ReapStep)
    requires Places(s) && Unspoiled(s) && CanReap(c, s, p) && TamePass(1, s) && Tame(1, Reap(p))
    ensures Unspoiled(DoReap(c, s, p))
  {
    match p
    case ReapPass(_, _, _) => PassUnspoiled(c, s, p);
    case ReapAge => AgingUnspoiled(c, s, p);
    case ReapRefill => AgingUnspoiled(c, s, p);
    case _ => OtherReapUnspoiled(c, s, p);
  }

  lemma ShutdownUnspoiled(s: State, q: ShutdownStep)
    requires Places(s) && Unspoiled(s) && CanShutdown(s, q)
    requires s.phase.Killing? ==> forall x :: x in s.phase.todo && x.Env? ==> x.id in s.created
    ensures Unspoiled(DoShutdown(s, q))
  {
  }

  lemma OpenStepUnspoiled(c: Config, s: State, step: Step)
    requires Places(s) && Unspoiled(s) && TamePass(1, s)
    requires Enabled(c, s, step) && Tame(1, step) && Do(c, s, step).phase.Open?
    ensures Unspoiled(Do(c, s, step))
  {
    match step
    case Acquire(t, a) => AcquireUnspoiled(c, s, t, a);
    case Release(t, r) => ReleaseUnspoiled(s, t, r);
    case Reap(p) => ReapUnspoiled(c, s, p);
    case Shutdown(q) =>
  }

  /** Until shutdown, unless a pass ages out one of several kept entries. */
  lemma {:induction false} UnspoiledAlways(c: Config, s: State, steps: seq<Step>)
    requires Places(s) && Unspoiled(s) && TamePass(1, s) && s.phase.Open?
    requires Legal(c, s, steps) && All(TameSteps(1), steps)
    ensures After(c, s, steps).phase.Open? ==> Unspoiled(After(c, s, steps))
    decreases |steps|
  {
    if steps == [] {
    } else {
      assert TameSteps(1)(steps[0]);
      var s1 := Do(c, s, steps[0]);
      if s1.phase.Open? {
        PlacesKept(c, s, steps[0]);
        TamePassKept(c, 1, s, steps[0]);
        OpenStepUnspoiled(c, s, steps[0]);
        UnspoiledAlways(c, s1, steps[1..]);
      } else {
        StaysClosed(c, s1, steps[1..]);
      }
    }
  }

  lemma {:induction false} StaysClosed(c: Config, s: State, steps: seq<Step>)
    requires Legal(c, s, steps) && Closed(s)
    ensures Closed(After(c, s, steps))
    decreases |steps|
  {
    if steps == [] {
    } else {
      StaysClosed(c, Do(c, s, steps[0]), steps[1..]);
    }
  }

  // ---- Counting ---------------------------------------------------------------------------

  function LockSlots(s: State): nat { if s.lock.Some? then 1 else 0 }

  /** The slots of `in_use` that are real environments. */
  ghost function EnvSlots(s: State): set<Slot> { set x | x in s.inUse && x.Env? }

  /** The placeholder is the only slot that is not an environment. */
  lemma EnvSlotCount(s: State)
    requires Places(s) && !s.phase.Done?
    ensures |EnvSlots(s)| + LockSlots(s) == |s.inUse|
  {
    if s.lock.Some? {
      var t := s.lock.value;
      assert s.lock == Some(t) && s.tasks[t].Creating?;
      var p := Pending(s.tasks[t].stamp);
      assert EnvSlots(s) == s.inUse - {p};
      CardRemove(s.inUse, p);
    } else {
      assert EnvSlots(s) == s.inUse;
    }
  }

  /** Created is idle, in use, killed by a health check, or taken out by the reaper. */
  ghost predicate Balanced(s: State) {
    s.phase.Open? ==> |s.created| + LockSlots(s) == Total(s) + s.totalKills + s.reaped
  }

  lemma AcquireBalanced(c: Config, s: State, t: TaskId, a: AcquireStep)
    requires Places(s) && Balanced(s) && CanAcquire(c, s, t, a)
    ensures Balanced(DoAcquire(c, s, t, a))
  {
    if s.phase.Open? {
      AcquireTotal(c, s, t, a);
      if a.CreateOk? { CardAdd(s.created, a.env); }
    }
  }

  lemma ReapBalanced(c: Config, s: State, p: ReapStep)
    requires Balanced(s) && CanReap(c, s, p) && TamePass(0, s) && Tame(0, Reap(p))
    ensures Balanced(DoReap(c, s, p))
  {
    if p.ReapPass? { PassTotal(c, s, p); }
    if p.WarmOk? { CardAdd(s.created, p.env); }
  }

  lemma ReleaseBalanced(s: State, t: TaskId, r: ReleaseStep)
    requires Places(s) && Unspoiled(s) && Balanced(s) && CanRelease(s, t, r)
    ensures Balanced(DoRelease(s, t, r))
  {
    if s.phase.Open? { ReleaseTotal(s, t, r); }
  }

  lemma BalancedKept(c: Config, s: State, step: Step)
    requires Places(s) && Unspoiled(s) && Balanced(s) && Enabled(c, s, step)
    requires TamePass(0, s) && Tame(0, step)
    ensures Balanced(Do(c, s, step))
  {
    match step
    case Acquire(t, a) => AcquireBalanced(c, s, t, a);
    case Release(t, r) => ReleaseBalanced(s, t, r);
    case Reap(p) => ReapBalanced(c, s, p);
    case Shutdown(q) =>
  }

  /** The tasks that were handed a session. */
  ghost function Lessees(s: State): set<TaskId> { set t | t in s.tasks && HasSession(s.tasks[t]) }

  ghost predicate LeasesCounted(s: State) { s.totalLeases == |Lessees(s)| }

  lemma HandOffCounts(c: Config, s: State, t: TaskId, a: AcquireStep)
    requires LeasesCounted(s) && CanAcquire(c, s, t, a) && (a.CreateOk? || a.Confirm?)
    ensures LeasesCounted(DoAcquire(c, s, t, a))
  {
    assert Lessees(DoAcquire(c, s, t, a)) == Lessees(s) + {t};
    CardAdd(Lessees(s), t);
  }

  /** Task `t` moves on, with a session or without as before. */
  lemma SameLessees(s: State, s': State, t: TaskId)
    requires t in s'.tasks && s'.tasks == s.tasks[t := s'.tasks[t]]
    requires HasSession(s'.tasks[t]) <==> t in s.tasks && HasSession(s.tasks[t])
    ensures Lessees(s') == Lessees(s)
  {
  }

  lemma AcquireCounts(c: Config, s: State, t: TaskId, a: AcquireStep)
    requires LeasesCounted(s) && CanAcquire(c, s, t, a)
    ensures LeasesCounted(DoAcquire(c, s, t, a))
  {
    if a.CreateOk? || a.Confirm? {
      HandOffCounts(c, s, t, a);
    } else {
      SameLessees(s, DoAcquire(c, s, t, a), t);
    }
  }

  lemma ReleaseCounts(s: State, t: TaskId, r: ReleaseStep)
    requires LeasesCounted(s) && CanRelease(s, t, r)
    ensures LeasesCounted(DoRelease(s, t, r))
  {
    SameLessees(s, DoRelease(s, t, r), t);
  }

  lemma LeasesCountedKept(c: Config, s: State, step: Step)
    requires LeasesCounted(s) && Enabled(c, s, step)
    ensures LeasesCounted(Do(c, s, step))
  {
    match step
    case Acquire(t, a) => AcquireCounts(c, s, t, a);
    case Release(t, r) => ReleaseCounts(s, t, r);
    case Reap(p) => assert Lessees(DoReap(c, s, p)) == Lessees(s);
    case Shutdown(q) => assert Lessees(DoShutdown(s, q)) == Lessees(s);
  }

  lemma {:induction false} LeasesAlwaysCounted(c: Config, s: State, steps: seq<Step>)
    requires LeasesCounted(s) && Legal(c, s, steps)
    ensures LeasesCounted(After(c, s, steps))
    decreases |steps|
  {
    if steps == [] {
    } else {
      LeasesCountedKept(c, s, steps[0]);
      LeasesAlwaysCounted(c, Do(c, s, steps[0]), steps[1..]);
    }
  }
}
