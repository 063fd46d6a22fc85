/**
 * Each operation of the concurrent pool alone: some run of it that nobody interferes with, the driver answering as
 * `healthy` and `answer` say, ends as the methods of `ContainerPool` do; and what a closed pool does with sessions.
 */
module PoolAlone {
  import opened Prelude
  import opened PoolProtocol
  import opened PoolSafety
  import opened PoolLedger
  import opened PoolRuns
  import opened ContainerPool
  import opened ReaperPass

  /** The driver's part in a step: health checks answer `healthy`, the one creation ends as `answer`. */
  predicate Honest(healthy: EnvId -> bool, answer: Option<EnvId>, s: State, step: Step) {
    match step
    case Acquire(t, a) => (
      match a
      case Checked(yes) => t in s.tasks && s.tasks[t].Checking? && yes == healthy(s.tasks[t].env)
      case CheckRaise => false
      case CreateOk(e) => answer == Some(e)
      case CreateFail => answer == None
      case FindFull(expired) => expired
      case _ => true)
    case Release(t, r) =>
      r.ReleaseChecked? ==> t in s.tasks && s.tasks[t].ReleaseChecking? && r.alive == healthy(s.tasks[t].env)
    case _ => true
  }

  /** All steps are task `t`'s own, and the driver is honest. */
  ghost predicate OwnRun(
    c: Config, t: TaskId, healthy: EnvId -> bool, answer: Option<EnvId>, s: State, steps: seq<Step>)
    decreases |steps|
  {
    steps == [] || (
      && (steps[0].Acquire? || steps[0].Release?) && steps[0].t == t
      && Enabled(c, s, steps[0]) && Honest(healthy, answer, s, steps[0])
      && OwnRun(c, t, healthy, answer, Do(c, s, steps[0]), steps[1..]))
  }

  ghost function End(
    c: Config, t: TaskId, healthy: EnvId -> bool, answer: Option<EnvId>, s: State, steps: seq<Step>): State
    requires OwnRun(c, t, healthy, answer, s, steps)
    decreases |steps|
  {
    if steps == [] then s else End(c, t, healthy, answer, Do(c, s, steps[0]), steps[1..])
  }

  /** What goes on in one task's own run: the driver's answers stay the same throughout. */
  datatype Solo = Solo(c: Config, t: TaskId, healthy: EnvId -> bool, answer: Option<EnvId>)

  /** Such a run leads from `s` to `s'`. */
  ghost predicate Alone(o: Solo, s: State, s': State) {
    exists steps ::
      OwnRun(o.c, o.t, o.healthy, o.answer, s, steps) && End(o.c, o.t, o.healthy, o.answer, s, steps) == s'
  }

  lemma Stay(o: Solo, s: State)
    ensures Alone(o, s, s)
  {
    var none: seq<Step> := [];
    assert OwnRun(o.c, o.t, o.healthy, o.answer, s, none) && End(o.c, o.t, o.healthy, o.answer, s, none) == s;
  }

  lemma First(o: Solo, s: State, step: Step, s': State)
    requires (step.Acquire? || step.Release?) && step.t == o.t
    requires Enabled(o.c, s, step) && Honest(o.healthy, o.answer, s, step) && Alone(o, Do(o.c, s, step), s')
    ensures Alone(o, s, s')
  {
    var s1 := Do(o.c, s, step);
    var rest :| OwnRun(o.c, o.t, o.healthy, o.answer, s1, rest) && End(o.c, o.t, o.healthy, o.answer, s1, rest) == s';
    var steps := [step] + rest;
    assert steps[1..] == rest;
    assert OwnRun(o.c, o.t, o.healthy, o.answer, s, steps) && End(o.c, o.t, o.healthy, o.answer, s, steps) == s';
  }

  // ---- _acquire ---------------------------------------------------------------------------

  /** The task has environment `e`, and its slot is counted. */
  ghost predicate Got(s: State, s': State, t: TaskId, e: EnvId) {
    && s'.tasks == s.tasks[t := Leased(e)] && s'.inUse == s.inUse + {Env(e)} && s'.totalLeases == s.totalLeases + 1
  }

  ghost predicate Failed(s: State, s': State, t: TaskId, outcome: Outcome) {
    && s'.tasks == s.tasks[t := Ended(outcome)] && s'.inUse == s.inUse && s'.totalLeases == s.totalLeases
  }

  /**
   * The first healthy environment in queue order, the unhealthy ones before it destroyed; else a new
   * one; and exhaustion only without room.
   */
  ghost predicate Acquired(o: Solo, s: State, s': State, idle: seq<Entry>) {
    var k := DeadHeads(o.healthy, idle);
    && s'.idle == Envs(idle[if k < |idle| then k + 1 else k..])
    && s'.destroyed == s.destroyed + AllOf(Envs(idle[..k])) && s'.totalKills == s.totalKills + k
    && s'.lock == None && s'.phase == s.phase && s'.reaper == s.reaper && s'.execs == s.execs
    && (if k < |idle| then Got(s, s', o.t, idle[k].env) && s'.created == s.created
        else if |s.inUse| >= o.c.maxSize then Failed(s, s', o.t, Exhausted) && s'.created == s.created
        else
          match o.answer
          case Some(e) => Got(s, s', o.t, e) && s'.created == s.created + {e}
          case None => Failed(s, s', o.t, CreateFailed) && s'.created == s.created)
  }

  /** No queued environment is in use or queued twice, and no placeholder is there. */
  ghost predicate Tidy(s: State, idle: seq<Entry>) {
    && s.idle == Envs(idle) && NoDup(s.idle) && (forall e :: e in s.idle ==> Env(e) !in s.inUse)
    && (forall x :: x in s.inUse ==> x.Env?) && s.lock == None
  }

  lemma FindsFull(o: Solo, s: State) returns (s': State)
    requires o.t in s.tasks && s.tasks[o.t] == WantLock && Tidy(s, []) && |s.inUse| >= o.c.maxSize
    ensures Alone(o, s, s') && Acquired(o, s, s', [])
  {
    s' := DoAcquire(o.c, s, o.t, FindFull(true));
    Stay(o, s');
    First(o, s, Acquire(o.t, FindFull(true)), s');
    assert s'.destroyed == s.destroyed + AllOf(Envs([]));
  }

  lemma Creates(o: Solo, s: State) returns (s': State)
    requires o.t in s.tasks && s.tasks[o.t] == WantLock && Tidy(s, []) && |s.inUse| < o.c.maxSize
    requires o.answer.Some? && o.answer.value !in s.created
    ensures Alone(o, s, s') && Acquired(o, s, s', [])
  {
    var e := o.answer.value;
    var s1 := DoAcquire(o.c, s, o.t, BeginCreate(0));
    AddRemove(s.inUse, Pending(0));
    s' := DoAcquire(o.c, s1, o.t, CreateOk(e));
    ThriceUpdated(s.tasks, o.t, Creating(0), Creating(0), Leased(e));
    Stay(o, s');
    First(o, s1, Acquire(o.t, CreateOk(e)), s');
    First(o, s, Acquire(o.t, BeginCreate(0)), s');
    assert s'.destroyed == s.destroyed + AllOf(Envs([]));
  }

  lemma FailsToCreate(o: Solo, s: State) returns (s': State)
    requires o.t in s.tasks && s.tasks[o.t] == WantLock && Tidy(s, []) && |s.inUse| < o.c.maxSize && o.answer.None?
    ensures Alone(o, s, s') && Acquired(o, s, s', [])
  {
    var s1 := DoAcquire(o.c, s, o.t, BeginCreate(0));
    AddRemove(s.inUse, Pending(0));
    s' := DoAcquire(o.c, s1, o.t, CreateFail);
    ThriceUpdated(s.tasks, o.t, Creating(0), Creating(0), Ended(CreateFailed));
    Stay(o, s');
    First(o, s1, Acquire(o.t, CreateFail), s');
    First(o, s, Acquire(o.t, BeginCreate(0)), s');
    assert s'.destroyed == s.destroyed + AllOf(Envs([]));
  }

  lemma HeadOfQueue(s: State, idle: seq<Entry>)
    requires Tidy(s, idle) && idle != []
    ensures s.idle != [] && s.idle[0] == idle[0].env && s.idle[1..] == Envs(idle[1..])
    ensures Env(s.idle[0]) !in s.inUse && NoDup(s.idle[1..]) && forall e :: e in s.idle[1..] ==> e in s.idle
  {
    HeadLeaves(s.idle);
  }

  /** The head of the queue is healthy. */
  lemma LeasesHead(o: Solo, s: State) returns (s': State)
    requires o.t in s.tasks && s.tasks[o.t] == WantLock && s.lock == None && s.idle != [] && o.healthy(s.idle[0])
    ensures Alone(o, s, s')
    ensures var e := s.idle[0];
      s' == s.(tasks := s.tasks[o.t := Leased(e)], idle := s.idle[1..], inUse := s.inUse + {Env(e)},
               totalLeases := s.totalLeases + 1)
  {
    var e := s.idle[0];
    var s1 := DoAcquire(o.c, s, o.t, TakeIdle);
    var s2 := DoAcquire(o.c, s1, o.t, Checked(true));
    s' := DoAcquire(o.c, s2, o.t, Confirm);
    ThriceUpdated(s.tasks, o.t, Checking(e), Confirming(e), Leased(e));
    Stay(o, s');
    First(o, s2, Acquire(o.t, Confirm), s');
    First(o, s1, Acquire(o.t, Checked(true)), s');
    First(o, s, Acquire(o.t, TakeIdle), s');
  }

  lemma TakesHealthy(o: Solo, s: State, idle: seq<Entry>) returns (s': State)
    requires o.t in s.tasks && s.tasks[o.t] == WantLock && Tidy(s, idle) && idle != [] && o.healthy(idle[0].env)
    ensures Alone(o, s, s') && Acquired(o, s, s', idle)
  {
    HeadOfQueue(s, idle);
    s' := LeasesHead(o, s);
    assert s'.destroyed == s.destroyed + AllOf(Envs(idle[..0]));
  }

  /** What is left to do once the unhealthy head of the queue is gone. */
  ghost function HeadGone(s: State, t: TaskId): State
    requires s.idle != []
  {
    s.(idle := s.idle[1..], totalKills := s.totalKills + 1, destroyed := s.destroyed + {s.idle[0]},
       tasks := s.tasks[t := WantLock])
  }

  /** Its disposal is under way. */
  ghost function HeadDisposed(s: State, t: TaskId): State
    requires s.idle != []
  {
    HeadGone(s, t).(tasks := s.tasks[t := Disposing])
  }

  lemma CondemnsHead(o: Solo, s: State, s': State)
    requires o.t in s.tasks && s.tasks[o.t] == WantLock && s.lock == None && s.idle != [] && !o.healthy(s.idle[0])
    requires Env(s.idle[0]) !in s.inUse && Alone(o, HeadDisposed(s, o.t), s')
    ensures Alone(o, s, s')
  {
    var e := s.idle[0];
    var s1 := DoAcquire(o.c, s, o.t, TakeIdle);
    var s2 := DoAcquire(o.c, s1, o.t, Checked(false));
    AddRemove(s.inUse, Env(e));
    ThriceUpdated(s.tasks, o.t, Checking(e), Condemning(e), Disposing);
    assert DoAcquire(o.c, s2, o.t, Condemn) == HeadDisposed(s, o.t);
    First(o, s2, Acquire(o.t, Condemn), s');
    First(o, s1, Acquire(o.t, Checked(false)), s');
    First(o, s, Acquire(o.t, TakeIdle), s');
  }

  lemma DropsDead(o: Solo, s: State, s': State)
    requires o.t in s.tasks && s.tasks[o.t] == WantLock && s.lock == None && s.idle != [] && !o.healthy(s.idle[0])
    requires Env(s.idle[0]) !in s.inUse && Alone(o, HeadGone(s, o.t), s')
    ensures Alone(o, s, s')
  {
    var s1 := HeadDisposed(s, o.t);
    ThriceUpdated(s.tasks, o.t, Disposing, Disposing, WantLock);
    assert DoAcquire(o.c, s1, o.t, Retry) == HeadGone(s, o.t);
    First(o, s1, Acquire(o.t, Retry), s');
    CondemnsHead(o, s, s');
  }

  /** Slices of a queue and of its tail. */
  lemma TailSlices(s: seq<Entry>, k: nat)
    requires s != [] && k <= |s[1..]|
    ensures s[..k + 1] == [s[0]] + s[1..][..k] && s[k + 1..] == s[1..][k..]
    ensures k < |s[1..]| ==> s[k + 2..] == s[1..][k + 1..] && s[k + 1] == s[1..][k]
  {
  }

  lemma EnvsOfHeads(e: Entry, rest: seq<Entry>)
    ensures AllOf(Envs([e] + rest)) == {e.env} + AllOf(Envs(rest))
  {
    EnvsCons(e, rest);
    AllOfCons([e.env] + Envs(rest));
    assert ([e.env] + Envs(rest))[1..] == Envs(rest);
  }

  lemma OneDeadHead(healthy: EnvId -> bool, idle: seq<Entry>)
    requires idle != [] && !healthy(idle[0].env)
    ensures var k, rest := DeadHeads(healthy, idle[1..]), idle[1..];
      && DeadHeads(healthy, idle) == k + 1
      && AllOf(Envs(idle[..k + 1])) == {idle[0].env} + AllOf(Envs(rest[..k]))
      && (if k < |rest| then idle[k + 2..] == rest[k + 1..] && idle[k + 1] == rest[k] else idle[k + 1..] == rest[k..])
  {
    var k := DeadHeads(healthy, idle[1..]);
    TailSlices(idle, k);
    EnvsOfHeads(idle[0], idle[1..][..k]);
  }

  lemma OneDeadMore(o: Solo, s: State, s': State, idle: seq<Entry>)
    requires Tidy(s, idle) && idle != [] && !o.healthy(idle[0].env) && o.t in s.tasks && s.tasks[o.t] == WantLock
    requires s.idle != [] && Acquired(o, HeadGone(s, o.t), s', idle[1..])
    ensures Acquired(o, s, s', idle)
  {
    HeadOfQueue(s, idle);
    OneDeadHead(o.healthy, idle);
    assert HeadGone(s, o.t).tasks == s.tasks;
  }

  lemma {:induction false} FromTheTop(o: Solo, s: State, idle: seq<Entry>) returns (s': State)
    requires o.t in s.tasks && s.tasks[o.t] == WantLock && Tidy(s, idle)
    requires o.answer.Some? ==> o.answer.value !in s.created
    ensures Alone(o, s, s') && Acquired(o, s, s', idle)
    decreases |idle|
  {
    if idle == [] {
      if |s.inUse| >= o.c.maxSize {
        s' := FindsFull(o, s);
      } else if o.answer.Some? {
        s' := Creates(o, s);
      } else {
        s' := FailsToCreate(o, s);
      }
    } else if o.healthy(idle[0].env) {
      s' := TakesHealthy(o, s, idle);
    } else {
      HeadOfQueue(s, idle);
      s' := FromTheTop(o, HeadGone(s, o.t), idle[1..]);
      DropsDead(o, s, s');
      OneDeadMore(o, s, s', idle);
    }
  }

  /** `session()` alone in an open pool ends as `SubPool.Acquire` does. */
  lemma UninterruptedAcquireIsARun(o: Solo, s: State, idle: seq<Entry>) returns (s': State)
    requires s.phase.Open? && o.t !in s.tasks && Tidy(s, idle)
    requires o.answer.Some? ==> o.answer.value !in s.created
    ensures Alone(o, s, s') && Acquired(o, s, s', idle)
  {
    s' := FromTheTop(o, AtTheTop(s, o.t), idle);
    EnterIsFirst(o, s, s');
    WhereverFrom(o, s, s', idle);
  }

  /** The task has entered. */
  ghost function AtTheTop(s: State, t: TaskId): State { s.(tasks := s.tasks[t := WantLock]) }

  lemma EnterIsFirst(o: Solo, s: State, s': State)
    requires s.phase.Open? && o.t !in s.tasks && Alone(o, AtTheTop(s, o.t), s')
    ensures Alone(o, s, s')
  {
    First(o, s, Acquire(o.t, Enter), s');
  }

  lemma WhereverFrom(o: Solo, s: State, s': State, idle: seq<Entry>)
    requires Acquired(o, AtTheTop(s, o.t), s', idle)
    ensures Acquired(o, s, s', idle)
  {
    if o.t in s'.tasks { ThriceUpdated(s.tasks, o.t, WantLock, WantLock, s'.tasks[o.t]); }
  }

  // ---- Waiting ----------------------------------------------------------------------------

  /** A call that finds the pool full waits, and ends as exhausted if nothing comes; nothing else changes. */
  lemma WaitIsInVain(c: Config, s: State, t: TaskId)
    requires t in s.tasks && s.tasks[t] == WantLock && s.lock == None && s.idle == [] && Total(s) >= c.maxSize
    ensures CanAcquire(c, s, t, FindFull(false))
    ensures var s1 := DoAcquire(c, s, t, FindFull(false));
      CanAcquire(c, s1, t, TimeOut) && DoAcquire(c, s1, t, TimeOut) == s.(tasks := s.tasks[t := Ended(Exhausted)])
  {
  }

  /**
   * A waiting call that is woken puts the head of the queue behind the others and then takes the new
   * head: the second entry, if there are two.
   */
  lemma WokenTakesTheNext(o: Solo, s: State, queue: seq<EnvId>) returns (s': State)
    requires o.t in s.tasks && s.tasks[o.t] == Waiting && s.lock == None && s.idle != []
    requires queue == s.idle[1..] + [s.idle[0]] && o.healthy(queue[0])
    ensures Alone(o, s, s')
    ensures s' == s.(tasks := s.tasks[o.t := Leased(queue[0])], idle := queue[1..], inUse := s.inUse + {Env(queue[0])},
                     totalLeases := s.totalLeases + 1)
  {
    var e := queue[0];
    var s1 := DoAcquire(o.c, s, o.t, Wake);
    s' := LeasesHead(o, s1);
    ThriceUpdated(s.tasks, o.t, WantLock, WantLock, Leased(e));
    First(o, s, Acquire(o.t, Wake), s');
  }

  // ---- _release ---------------------------------------------------------------------------

  /** As `SubPool.Release`: queued if alive and the pool is open, destroyed otherwise. */
  ghost predicate Given(o: Solo, s: State, s': State, e: EnvId) {
    var kept := s.phase.Open? && o.healthy(e);
    s' == s.(tasks := s.tasks[o.t := Ended(Released)], inUse := s.inUse - {Env(e)},
             idle := if kept then s.idle + [e] else s.idle,
             destroyed := if kept then s.destroyed else s.destroyed + {e},
             totalKills := s.totalKills + if s.phase.Open? && !o.healthy(e) then 1 else 0)
  }

  lemma ReturnsAlive(o: Solo, s: State, e: EnvId) returns (s': State)
    requires s.lock == None && o.t in s.tasks && s.tasks[o.t] == Leased(e) && s.phase.Open? && o.healthy(e)
    ensures Alone(o, s, s') && Given(o, s, s', e)
  {
    var s1 := DoRelease(s, o.t, Exit);
    var s2 := DoRelease(s1, o.t, ReleaseChecked(true));
    s' := DoRelease(s2, o.t, Settle);
    ThriceUpdated(s.tasks, o.t, ReleaseChecking(e), ReleaseSettling(e, true), Ended(Released));
    Stay(o, s');
    First(o, s2, Release(o.t, Settle), s');
    First(o, s1, Release(o.t, ReleaseChecked(true)), s');
    First(o, s, Release(o.t, Exit), s');
  }

  lemma ReturnsDead(o: Solo, s: State, e: EnvId) returns (s': State)
    requires s.lock == None && o.t in s.tasks && s.tasks[o.t] == Leased(e) && s.phase.Open? && !o.healthy(e)
    ensures Alone(o, s, s') && Given(o, s, s', e)
  {
    var s1 := DoRelease(s, o.t, Exit);
    var s2 := DoRelease(s1, o.t, ReleaseChecked(false));
    var s3 := DoRelease(s2, o.t, Settle);
    s' := DoRelease(s3, o.t, ReleaseEnd);
    ThriceUpdated(s.tasks, o.t, ReleaseChecking(e), ReleaseSettling(e, false), ReleaseDisposing);
    ThriceUpdated(s.tasks, o.t, ReleaseDisposing, ReleaseDisposing, Ended(Released));
    Stay(o, s');
    First(o, s3, Release(o.t, ReleaseEnd), s');
    First(o, s2, Release(o.t, Settle), s');
    First(o, s1, Release(o.t, ReleaseChecked(false)), s');
    First(o, s, Release(o.t, Exit), s');
  }

  lemma ReturnsAfterClosing(o: Solo, s: State, e: EnvId) returns (s': State)
    requires s.lock == None && o.t in s.tasks && s.tasks[o.t] == Leased(e) && Closed(s)
    ensures Alone(o, s, s') && Given(o, s, s', e)
  {
    var s1 := DoRelease(s, o.t, Exit);
    var s2 := DoRelease(s1, o.t, Drop);
    s' := DoRelease(s2, o.t, ReleaseEnd);
    ThriceUpdated(s.tasks, o.t, ReleaseDropping(e), ReleaseDisposing, Ended(Released));
    Stay(o, s');
    First(o, s2, Release(o.t, ReleaseEnd), s');
    First(o, s1, Release(o.t, Drop), s');
    First(o, s, Release(o.t, Exit), s');
  }

  /** The end of a session alone does what `SubPool.Release` does. */
  lemma UninterruptedReleaseIsARun(o: Solo, s: State, e: EnvId) returns (s': State)
    requires s.lock == None && o.t in s.tasks && s.tasks[o.t] == Leased(e)
    ensures Alone(o, s, s') && Given(o, s, s', e)
  {
    if Closed(s) {
      s' := ReturnsAfterClosing(o, s, e);
    } else if o.healthy(e) {
      s' := ReturnsAlive(o, s, e);
    } else {
      s' := ReturnsDead(o, s, e);
    }
  }

  // ---- _warm ------------------------------------------------------------------------------

  /** The creations of a warm-up, one after the other: their ids are new and all different. */
  ghost predicate NewIds(s: State, script: seq<Option<EnvId>>) {
    && (forall i :: 0 <= i < |script| && script[i].Some? ==> script[i].value !in s.created)
    && (forall i, j :: 0 <= i < j < |script| && script[i].Some? ==> script[i] != script[j])
  }

  /** The warm-up is over and has brought `more`. */
  ghost function Queued(s: State, more: seq<EnvId>): State {
    s.(reaper := Resting, idle := s.idle + more, created := s.created + AllOf(more))
  }

  /** Some reaper steps from `s` on bring `more` and end the warm-up. */
  ghost predicate Brings(c: Config, s: State, more: seq<EnvId>) {
    exists steps :: Legal(c, s, steps) && After(c, s, steps) == Queued(s, more)
  }

  lemma BringsNothing(c: Config, s: State)
    requires s.phase.Open? && (s.reaper == Resting || s.reaper.Warming?)
    ensures Brings(c, s, [])
  {
    var none: seq<Step> := [];
    assert s.idle + [] == s.idle && s.created + AllOf<EnvId>([]) == s.created;
    if s.reaper == Resting {
      assert Legal(c, s, none) && After(c, s, none) == Queued(s, []);
    } else {
      Cons(c, s, Reap(WarmFail), none);
    }
  }

  lemma BringsOneMore(c: Config, s: State, e: EnvId, more: seq<EnvId>)
    requires CanReap(c, s, WarmOk(e)) && Brings(c, DoReap(c, s, WarmOk(e)), more)
    ensures Brings(c, s, [e] + more)
  {
    var s1 := DoReap(c, s, WarmOk(e));
    var steps :| Legal(c, s1, steps) && After(c, s1, steps) == Queued(s1, more);
    Cons(c, s, Reap(WarmOk(e)), steps);
    Regroup(s.idle, [e], more);
    AllOfCons([e] + more);
    assert ([e] + more)[1..] == more;
    assert s1.created + AllOf(more) == s.created + AllOf([e] + more);
  }

  lemma {:induction false} Warms(c: Config, s: State, script: seq<Option<EnvId>>, n: nat, now: int)
    requires s.phase.Open? && s.reaper == Warm(n) && NewIds(s, script)
    ensures Brings(c, s, Envs(Warmed(script, n, now)))
    decreases n
  {
    if n == 0 || Coming(script).None? {
      BringsNothing(c, s);
    } else {
      var e, rest := script[0].value, script[1..];
      StillNew(s, script);
      Warms(c, DoReap(c, s, WarmOk(e)), rest, n - 1, now);
      EnvsCons(Entry(e, now), Warmed(rest, n - 1, now));
      BringsOneMore(c, s, e, Envs(Warmed(rest, n - 1, now)));
    }
  }

  lemma StillNew(s: State, script: seq<Option<EnvId>>)
    requires NewIds(s, script) && script != [] && script[0].Some?
    ensures NewIds(s.(created := s.created + {script[0].value}), script[1..])
  {
    forall i | 0 <= i < |script[1..]| && script[1..][i].Some?
      ensures script[1..][i].value !in s.created + {script[0].value}
    {
      assert script[1..][i] == script[i + 1] && script[0] != script[i + 1];
    }
  }

  lemma WarmBeginBrings(c: Config, s: State, more: seq<EnvId>)
    requires CanReap(c, s, WarmBegin) && Brings(c, DoReap(c, s, WarmBegin), more)
    ensures Brings(c, s, more)
  {
    var s1 := DoReap(c, s, WarmBegin);
    var steps :| Legal(c, s1, steps) && After(c, s1, steps) == Queued(s1, more);
    Cons(c, s, Reap(WarmBegin), steps);
  }

  /** A warm-up alone queues what `SubPool.Warm` queues, and ends. */
  lemma UninterruptedWarmIsARun(c: Config, s: State, script: seq<Option<EnvId>>, now: int)
    requires s.phase.Open? && (s.reaper == Resting || s.reaper == Destroying([])) && NewIds(s, script)
    ensures Brings(c, s, Envs(Warmed(script, if c.minIdle > Total(s) then c.minIdle - Total(s) else 0, now)))
  {
    var s1 := s.(reaper := Warm(Shortfall(c, Total(s))));
    Warms(c, s1, script, Shortfall(c, Total(s)), now);
    WarmBeginBrings(c, s, Envs(Warmed(script, Shortfall(c, Total(s)), now)));
  }

  // ---- shutdown ---------------------------------------------------------------------------

  ghost function SlotEnvs(todo: seq<Slot>): set<EnvId> { set x | x in todo && x.Env? :: x.id }

  lemma {:induction false} Kills(c: Config, s: State) returns (steps: seq<Step>)
    requires s.phase.Killing?
    ensures Legal(c, s, steps)
    ensures After(c, s, steps) == s.(phase := Done, inUse := {}, destroyed := s.destroyed + SlotEnvs(s.phase.todo))
    decreases |s.phase.todo|
  {
    if s.phase.todo == [] {
      var none: seq<Step> := [];
      Cons(c, s, Shutdown(ShutdownEnd), none);
      steps := [Shutdown(ShutdownEnd)] + none;
      assert s.destroyed + SlotEnvs([]) == s.destroyed;
    } else {
      var todo := s.phase.todo;
      var s1 := DoShutdown(s, KillOne);
      var more := Kills(c, s1);
      Cons(c, s, Shutdown(KillOne), more);
      steps := [Shutdown(KillOne)] + more;
      assert todo == [todo[0]] + todo[1..];
      assert s1.destroyed + SlotEnvs(todo[1..]) == s.destroyed + SlotEnvs(todo);
    }
  }

  lemma {:induction false} Drains(c: Config, s: State, todo: seq<Slot>) returns (steps: seq<Step>)
    requires s.phase.Draining? && NoDup(todo) && AllOf(todo) == s.inUse
    ensures Legal(c, s, steps)
    ensures After(c, s, steps) ==
      s.(phase := Done, idle := [], inUse := {}, destroyed := s.destroyed + AllOf(s.idle) + SlotEnvs(todo))
    decreases |s.idle|
  {
    if s.idle == [] {
      var s1 := DoShutdown(s, CopyInUse(todo));
      var more := Kills(c, s1);
      Cons(c, s, Shutdown(CopyInUse(todo)), more);
      steps := [Shutdown(CopyInUse(todo))] + more;
      assert s.destroyed + AllOf(s.idle) == s.destroyed;
    } else {
      var s1 := DoShutdown(s, DrainOne);
      var more := Drains(c, s1, todo);
      Cons(c, s, Shutdown(DrainOne), more);
      steps := [Shutdown(DrainOne)] + more;
      AllOfCons(s.idle);
      assert s1.destroyed + AllOf(s.idle[1..]) == s.destroyed + AllOf(s.idle);
    }
  }

  lemma {:induction false} InSomeOrder<T>(a: set<T>) returns (s: seq<T>)
    ensures NoDup(s) && AllOf(s) == a
    decreases a
  {
    if a == {} {
      s := [];
    } else {
      var x :| x in a;
      var rest := InSomeOrder(a - {x});
      s := [x] + rest;
      ConsNoDup(x, rest);
      AllOfCons(s);
      assert s[1..] == rest && a == {x} + (a - {x});
    }
  }

  /** Shutdown alone destroys what is idle and what is in use, and forgets both. */
  lemma UninterruptedShutdownIsARun(c: Config, s: State) returns (steps: seq<Step>)
    requires s.phase.Open?
    ensures Legal(c, s, steps)
    ensures var s' := After(c, s, steps);
      && s'.phase == Done && s'.reaper == Resting && s'.idle == [] && s'.inUse == {} && s'.tasks == s.tasks
      && (forall e :: e in s'.destroyed <==> e in s.destroyed || e in s.idle || Env(e) in s.inUse)
      && s'.abandoned == AllOf(Surplus(s.reaper))
  {
    var todo := InSomeOrder(s.inUse);
    var s1 := DoShutdown(s, ShutdownBegin);
    var more := Drains(c, s1, todo);
    Cons(c, s, Shutdown(ShutdownBegin), more);
    steps := [Shutdown(ShutdownBegin)] + more;
    assert forall x :: x in todo <==> x in s.inUse;
  }

  // ---- A closed pool ----------------------------------------------------------------------

  /** Once the pool is closed it stays so, and whoever has not entered yet is rejected. */
  lemma {:induction false} ClosedPoolRejects(c: Config, s: State, steps: seq<Step>, t: TaskId)
    requires !s.phase.Open? && Legal(c, s, steps)
    requires t in s.tasks ==> s.tasks[t] == Ended(Rejected)
    ensures var s' := After(c, s, steps); !s'.phase.Open? && (t in s'.tasks ==> s'.tasks[t] == Ended(Rejected))
    decreases |steps|
  {
    if steps == [] {
    } else {
      ClosedStepRejects(c, s, steps[0], t);
      ClosedPoolRejects(c, Do(c, s, steps[0]), steps[1..], t);
    }
  }

  lemma ClosedStepRejects(c: Config, s: State, step: Step, t: TaskId)
    requires !s.phase.Open? && Enabled(c, s, step) && (t in s.tasks ==> s.tasks[t] == Ended(Rejected))
    ensures var s' := Do(c, s, step); !s'.phase.Open? && (t in s'.tasks ==> s'.tasks[t] == Ended(Rejected))
  {
    match step
    case Acquire(u, a) => if u == t && t !in s.tasks { assert a.Enter?; }
    case Release(u, r) =>
    case Reap(p) =>
    case Shutdown(q) =>
  }

  lemma EnteredStep(c: Config, s: State, step: Step, t: TaskId)
    requires Enabled(c, s, step) && t in s.tasks && s.tasks[t] != Ended(Rejected)
    ensures t in Do(c, s, step).tasks && Do(c, s, step).tasks[t] != Ended(Rejected)
  {
    match step
    case Acquire(u, a) => if u == t { assert !a.Enter?; }
    case Release(u, r) =>
    case Reap(p) =>
    case Shutdown(q) =>
  }

  /** Whoever is in is never rejected. */
  lemma {:induction false} EnteredStaysIn(c: Config, s: State, steps: seq<Step>, t: TaskId)
    requires Legal(c, s, steps) && t in s.tasks && s.tasks[t] != Ended(Rejected)
    ensures t in After(c, s, steps).tasks && After(c, s, steps).tasks[t] != Ended(Rejected)
    decreases |steps|
  {
    if steps == [] {
    } else {
      EnteredStep(c, s, steps[0], t);
      EnteredStaysIn(c, Do(c, s, steps[0]), steps[1..], t);
    }
  }

  /** Every session handed out after shutdown has begun is that of a task that was already in. */
  lemma LateSessionsEnteredEarly(c: Config, s: State, steps: seq<Step>, t: TaskId)
    requires !s.phase.Open? && Legal(c, s, steps)
    requires t in After(c, s, steps).tasks && HasSession(After(c, s, steps).tasks[t])
    ensures t in s.tasks
  {
    if t !in s.tasks { ClosedPoolRejects(c, s, steps, t); }
  }

  /** The pool is closed exactly from the first step of shutdown on. */
  lemma {:induction false} ClosedByShutdown(c: Config, s: State, steps: seq<Step>)
    requires s.phase.Open? && Legal(c, s, steps)
    ensures !After(c, s, steps).phase.Open? <==> Shutdown(ShutdownBegin) in steps
    decreases |steps|
  {
    if steps == [] {
    } else {
      var s1 := Do(c, s, steps[0]);
      assert steps == [steps[0]] + steps[1..];
      FirstCloses(c, s, steps[0]);
      if s1.phase.Open? {
        ClosedByShutdown(c, s1, steps[1..]);
      } else {
        StaysClosed(c, s1, steps[1..]);
      }
    }
  }

  lemma FirstCloses(c: Config, s: State, step: Step)
    requires s.phase.Open? && Enabled(c, s, step)
    ensures !Do(c, s, step).phase.Open? <==> step == Shutdown(ShutdownBegin)
  {
  }

  /** A session is rejected exactly if shutdown had begun when it was asked for. */
  lemma RejectedIff(c: Config, before: seq<Step>, t: TaskId, after: seq<Step>)
    requires Legal(c, START, before) && t !in After(c, START, before).tasks
    requires Enabled(c, After(c, START, before), Acquire(t, Enter))
    requires Legal(c, Do(c, After(c, START, before), Acquire(t, Enter)), after)
    ensures var s' := After(c, Do(c, After(c, START, before), Acquire(t, Enter)), after);
      t in s'.tasks && (s'.tasks[t] == Ended(Rejected) <==> Shutdown(ShutdownBegin) in before)
  {
    var s := After(c, START, before);
    var s1 := Do(c, s, Acquire(t, Enter));
    ClosedByShutdown(c, START, before);
    if s.phase.Open? {
      EnteredStaysIn(c, s1, after, t);
    } else {
      ClosedPoolRejects(c, s, [], t);
      ClosedStepRejects(c, s, Acquire(t, Enter), t);
      ClosedPoolRejects(c, s1, after, t);
      StaysKnown(c, s1, after, t);
    }
  }

  lemma {:induction false} StaysKnown(c: Config, s: State, steps: seq<Step>, t: TaskId)
    requires Legal(c, s, steps) && t in s.tasks
    ensures t in After(c, s, steps).tasks
    decreases |steps|
  {
    if steps == [] {
    } else {
      assert t in Do(c, s, steps[0]).tasks;
      StaysKnown(c, Do(c, s, steps[0]), steps[1..], t);
    }
  }
}
