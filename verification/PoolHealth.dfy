/**
 * What the driver's answers say about the environments a session works on, and that its verdicts
 * are not forgotten.
 */
module PoolHealth {
  import opened Prelude
  import opened PoolProtocol
  import opened PoolSafety
  import opened PoolRuns

  /**
   * The driver's verdicts in a run.  `vetted`: created, or found healthy, since it last lay idle.
   * `failed`: some health check has answered no.
   */
  datatype Verdicts = Verdicts(vetted: set<EnvId>, failed: set<EnvId>)

  const NONE_YET := Verdicts({}, {})

  /** What the driver says about environment `e` in one step. */
  datatype Answer = Silent | Good(e: EnvId) | Bad(e: EnvId) | Raised(e: EnvId)

  function Answered(c: Config, s: State, step: Step): Answer
    requires step.Acquire? ==> CanAcquire(c, s, step.t, step.a)
    requires step.Release? ==> CanRelease(s, step.t, step.r)
  {
    match step
    case Acquire(_, CreateOk(e)) => Good(e)
    case Acquire(t, Checked(healthy)) => if healthy then Good(s.tasks[t].env) else Bad(s.tasks[t].env)
    case Acquire(t, CheckRaise) => Raised(s.tasks[t].env)
    case Release(t, ReleaseChecked(alive)) => if alive then Good(s.tasks[t].env) else Bad(s.tasks[t].env)
    case _ => Silent
  }

  /** The verdicts after a step that leaves the queue `idle`. */
  function Judge(v: Verdicts, a: Answer, idle: seq<EnvId>): Verdicts {
    var vetted :=
      match a
      case Silent => v.vetted
      case Good(e) => v.vetted + {e}
      case Bad(e) => v.vetted - {e}
      case Raised(e) => v.vetted - {e};
    Verdicts(set e | e in vetted && e !in idle, if a.Bad? then v.failed + {a.e} else v.failed)
  }

  ghost function JudgeRun(c: Config, s: State, v: Verdicts, steps: seq<Step>): Verdicts
    requires Legal(c, s, steps)
    decreases |steps|
  {
    if steps == [] then v
    else
      var s' := Do(c, s, steps[0]);
      JudgeRun(c, s', Judge(v, Answered(c, s, steps[0]), s'.idle), steps[1..])
  }

  /** The program points at which a task relies on its environment. */
  predicate Relies(t: Task) {
    t.Confirming? || t.Leased? || t.ReleaseChecking? || t.ReleaseDropping? || (t.ReleaseSettling? && t.alive)
  }

  ghost predicate Sound(s: State, v: Verdicts) {
    && (forall t, e :: Holds(s, t, e) && Relies(s.tasks[t]) ==> e in v.vetted && e !in v.failed)
    && (forall e :: e in v.failed ==> e in s.created && e !in s.idle && e !in Aside(s))
    && (forall t, e :: Holds(s, t, e) && s.tasks[t].Checking? ==> e !in v.failed)
  }

  predicate Decides(a: AcquireStep) { a.CreateOk? || a.Checked? || a.CheckRaise? }

  lemma QueueStepSound(c: Config, s: State, v: Verdicts, t: TaskId, a: AcquireStep)
    requires Places(s) && Sound(s, v) && CanAcquire(c, s, t, a) && Queues(a)
    ensures var s' := DoAcquire(c, s, t, a); Sound(s', Judge(v, Silent, s'.idle))
  {
    OnlyOneMoves(s, DoAcquire(c, s, t, a), t);
    HeadLeaves(s.idle);
  }

  lemma VerdictSound(c: Config, s: State, v: Verdicts, t: TaskId, a: AcquireStep)
    requires Places(s) && Sound(s, v) && CanAcquire(c, s, t, a) && Decides(a)
    ensures var s' := DoAcquire(c, s, t, a); Sound(s', Judge(v, Answered(c, s, Acquire(t, a)), s'.idle))
  {
    OnlyOneMoves(s, DoAcquire(c, s, t, a), t);
    if HeldBy(s, t).Some? { assert Holds(s, t, HeldBy(s, t).value); }
  }

  /** Task `t` moves on and relies on what it holds no more than before. */
  predicate ReliesNoMore(s: State, s': State, t: TaskId) {
    && MovesOn(s, s', t) && (HeldBy(s', t).Some? ==> !s'.tasks[t].Checking?)
    && (Relies(s'.tasks[t]) ==> t in s.tasks && Relies(s.tasks[t]))
  }

  lemma ReliesNoMoreSound(s: State, s': State, v: Verdicts, t: TaskId)
    requires Places(s) && Sound(s, v) && ReliesNoMore(s, s', t)
    ensures Sound(s', Judge(v, Silent, s'.idle))
  {
    OnlyOneMoves(s, s', t);
    if HeldBy(s, t).Some? { assert Holds(s, t, HeldBy(s, t).value); }
  }

  lemma OthersMoveOn(c: Config, s: State, t: TaskId, a: AcquireStep)
    requires CanAcquire(c, s, t, a) && !Queues(a) && !Decides(a)
    ensures ReliesNoMore(s, DoAcquire(c, s, t, a), t) && Answered(c, s, Acquire(t, a)) == Silent
  {
  }

  lemma AcquireSound(c: Config, s: State, v: Verdicts, t: TaskId, a: AcquireStep)
    requires Places(s) && Sound(s, v) && CanAcquire(c, s, t, a)
    ensures Sound(DoAcquire(c, s, t, a), Judge(v, Answered(c, s, Acquire(t, a)), DoAcquire(c, s, t, a).idle))
  {
    if Queues(a) {
      QueueStepSound(c, s, v, t, a);
    } else if Decides(a) {
      VerdictSound(c, s, v, t, a);
    } else {
      OthersMoveOn(c, s, t, a);
      ReliesNoMoreSound(s, DoAcquire(c, s, t, a), v, t);
    }
  }

  lemma RequeueSound(s: State, v: Verdicts, t: TaskId)
    requires Places(s) && Sound(s, v) && CanRelease(s, t, Settle) && Requeues(s, t, Settle)
    ensures Sound(DoRelease(s, t, Settle), Judge(v, Silent, DoRelease(s, t, Settle).idle))
  {
    assert Holds(s, t, s.tasks[t].env);
    OnlyOneMoves(s, DoRelease(s, t, Settle), t);
  }

  lemma CheckedSound(c: Config, s: State, v: Verdicts, t: TaskId, alive: bool)
    requires Places(s) && Sound(s, v) && CanRelease(s, t, ReleaseChecked(alive))
    ensures var s' := DoRelease(s, t, ReleaseChecked(alive));
      Sound(s', Judge(v, Answered(c, s, Release(t, ReleaseChecked(alive))), s'.idle))
  {
    assert Holds(s, t, s.tasks[t].env);
    OnlyOneMoves(s, DoRelease(s, t, ReleaseChecked(alive)), t);
  }

  lemma ReleaseSound(c: Config, s: State, v: Verdicts, t: TaskId, r: ReleaseStep)
    requires Places(s) && Sound(s, v) && CanRelease(s, t, r)
    ensures Sound(DoRelease(s, t, r), Judge(v, Answered(c, s, Release(t, r)), DoRelease(s, t, r).idle))
  {
    if Requeues(s, t, r) {
      RequeueSound(s, v, t);
    } else if r.ReleaseChecked? {
      CheckedSound(c, s, v, t, r.alive);
    } else {
      ReliesNoMoreSound(s, DoRelease(s, t, r), v, t);
    }
  }

  /** Reaper and shutdown steps: nobody moves, and only new environments join the queue or the reaper's list. */
  lemma OthersSound(s: State, s': State, v: Verdicts)
    requires Sound(s, v) && OnePlace(s') && s'.tasks == s.tasks && s.created <= s'.created
    requires forall e :: e in s'.idle || e in Aside(s') ==> e in s.idle || e in Aside(s) || e !in s.created
    ensures Sound(s', Judge(v, Silent, s'.idle))
  {
    OthersHoldOn(s, s');
  }

  /** What a pass puts in the queue or sets aside was in one of the two. */
  lemma ReapTakesOld(c: Config, s: State, p: ReapStep)
    requires OnePlace(s) && CanReap(c, s, p)
    ensures var s' := DoReap(c, s, p);
      forall e :: e in s'.idle || e in Aside(s') ==> e in s.idle || e in Aside(s) || e !in s.created
  {
    match p
    case ReapPass(kept, young, doomed) =>
      SplitNoDup(s.idle, kept, doomed);
    case ReapRefill => PartsOf(s.reaper.surviving, s.reaper.doomed);
    case _ =>
  }

  lemma ReapSound(c: Config, s: State, v: Verdicts, p: ReapStep)
    requires Places(s) && Sound(s, v) && CanReap(c, s, p) && Tame(2, Reap(p))
    ensures var s' := DoReap(c, s, p); Sound(s', Judge(v, Silent, s'.idle))
  {
    ReapKeepsOnePlace(c, s, p);
    ReapTakesOld(c, s, p);
    OthersSound(s, DoReap(c, s, p), v);
  }

  lemma ShutdownSound(s: State, v: Verdicts, q: ShutdownStep)
    requires Places(s) && Sound(s, v) && CanShutdown(s, q)
    ensures var s' := DoShutdown(s, q); Sound(s', Judge(v, Silent, s'.idle))
  {
    ShutdownKeepsOnePlace(s, q);
    OthersSound(s, DoShutdown(s, q), v);
  }

  lemma StepSound(c: Config, s: State, v: Verdicts, step: Step)
    requires Places(s) && Sound(s, v) && Enabled(c, s, step) && Tame(2, step)
    ensures var s' := Do(c, s, step); Sound(s', Judge(v, Answered(c, s, step), s'.idle))
  {
    match step
    case Acquire(t, a) => AcquireSound(c, s, v, t, a);
    case Release(t, r) => ReleaseSound(c, s, v, t, r);
    case Reap(p) => ReapSound(c, s, v, p);
    case Shutdown(q) => ShutdownSound(s, v, q);
  }

  lemma {:induction false} SoundAfter(c: Config, s: State, v: Verdicts, steps: seq<Step>)
    requires Places(s) && Sound(s, v) && Legal(c, s, steps) && All(TameSteps(2), steps)
    ensures Sound(After(c, s, steps), JudgeRun(c, s, v, steps))
    decreases |steps|
  {
    if steps == [] {
    } else {
      assert TameSteps(2)(steps[0]);
      var s' := Do(c, s, steps[0]);
      PlacesKept(c, s, steps[0]);
      StepSound(c, s, v, steps[0]);
      SoundAfter(c, s', Judge(v, Answered(c, s, steps[0]), s'.idle), steps[1..]);
    }
  }

  /** At the end of the run. */
  ghost predicate VerdictsStand(c: Config, steps: seq<Step>)
    requires Legal(c, START, steps)
  {
    var s, v := After(c, START, steps), JudgeRun(c, START, NONE_YET, steps);
    && (forall t :: t in s.tasks && s.tasks[t].Leased? ==> s.tasks[t].env in v.vetted && s.tasks[t].env !in v.failed)
    && (forall e :: e in v.failed ==> e !in s.idle && e !in Aside(s))
  }

  lemma {:induction false} JudgeSnoc(c: Config, s: State, v: Verdicts, steps: seq<Step>, step: Step)
    requires Legal(c, s, steps) && Enabled(c, After(c, s, steps), step)
    ensures Legal(c, s, steps + [step])
    ensures var before := After(c, s, steps);
      JudgeRun(c, s, v, steps + [step]) ==
        Judge(JudgeRun(c, s, v, steps), Answered(c, before, step), Do(c, before, step).idle)
    decreases |steps|
  {
    AfterSnoc(c, s, steps, step);
    if steps == [] {
      assert steps + [step] == [step] && [step][1..] == [];
    } else {
      var s1 := Do(c, s, steps[0]);
      JudgeSnoc(c, s1, Judge(v, Answered(c, s, steps[0]), s1.idle), steps[1..], step);
      assert (steps + [step])[1..] == steps[1..] + [step];
    }
  }

  /**
   * Health checks run before hand-off and after release, and their verdicts stand: whatever a
   * session holds was created or found healthy since it last lay idle, and an environment that has
   * ever failed a check is never queued or leased again.  (Passes that age out one of three or
   * more kept entries apart: those may lease one environment to two sessions.)
   */
  lemma OnlyVettedEnvironmentsAreLeased(c: Config, steps: seq<Step>)
    requires Legal(c, START, steps) && All(TameSteps(2), steps)
    ensures VerdictsStand(c, steps)
  {
    var s := After(c, START, steps);
    StartPlaces();
    SoundAfter(c, START, NONE_YET, steps);
    forall t | t in s.tasks && s.tasks[t].Leased?
      ensures Holds(s, t, s.tasks[t].env)
    {
    }
  }
}
