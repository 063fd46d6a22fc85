/**
 * One `_SubPool` shared by any number of asyncio tasks, as a state machine.
 *
 * A step is the code one task runs between two `await`s, so everything a step changes
 * changes at once.  Waiting for `sp.lock` is a program point of its own; the lock is held
 * across an `await` only while an environment is being created.  Driver answers, the clock
 * and the scheduler are the choice of the next step.
 */
module PoolProtocol {
  import opened Prelude

  type EnvId = int
  type TaskId = int

  /** What `in_use` holds: an environment id, or the `__pending__` placeholder of a creation. */
  datatype Slot = Env(id: EnvId) | Pending(stamp: nat)

  datatype Config = Config(maxSize: nat, minIdle: nat)

  ghost predicate ValidConfig(c: Config) { 1 <= c.maxSize && c.minIdle <= c.maxSize }

  /** How one `session()` ended. */
  datatype Outcome = Released | Rejected | Exhausted | CreateFailed | CheckRaised(env: EnvId)

  /** Where one task stands inside `session()`, `_acquire` and `_release`. */
  datatype Task =
    | WantLock                                      // top of the `_acquire` loop
    | Creating(stamp: nat)                          // awaiting create_environment, lock held
    | Checking(env: EnvId)                          // awaiting health_check before hand-off
    | Confirming(env: EnvId)                        // healthy, waiting for the lock to count the lease
    | Condemning(env: EnvId)                        // unhealthy, waiting for the lock to drop the slot
    | Disposing                                     // awaiting destroy_environment, then retries
    | Waiting                                       // awaiting idle.get()
    | Leased(env: EnvId)                            // inside the `async with` body
    | ReleaseChecking(env: EnvId)                   // awaiting health_check after use, slot still held
    | ReleaseSettling(env: EnvId, alive: bool)      // waiting for the lock to decide the fate
    | ReleaseDropping(env: EnvId)                   // pool closed: waiting for the lock, then destroys
    | ReleaseDisposing                              // awaiting destroy_environment, then done
    | Ended(outcome: Outcome)

  /** The background reaper, and the one `_warm` that may be in flight. */
  datatype Reaper =
    | Resting
    // Awaiting the destruction of a kept entry past its TTL: `rest` are the aged-out entries still
    // to come, `surviving` the entries to put back afterwards, `doomed` the surplus.
    | AgingOut(surviving: seq<EnvId>, rest: seq<EnvId>, doomed: seq<EnvId>)
    | Destroying(rest: seq<EnvId>)                  // surplus entries not yet passed to destroy
    | Warming(owed: nat)                            // environments the running `_warm` still has to create

  datatype Phase =
    | Open
    | Draining                                      // shutdown: emptying `idle`
    | Killing(todo: seq<Slot>)                      // shutdown: destroying the copy of `in_use`
    | Done

  datatype Exec = Exec(task: TaskId, env: EnvId)

  datatype State = State(
    idle: seq<EnvId>,
    inUse: set<Slot>,
    lock: Option<TaskId>,
    totalLeases: nat,
    totalKills: nat,
    tasks: map<TaskId, Task>,
    reaper: Reaper,
    phase: Phase,
    // History, never read by a step's guard except for the freshness of new ids.
    created: set<EnvId>,
    destroyed: set<EnvId>,
    reaped: nat,
    abandoned: set<EnvId>,
    execs: seq<Exec>)

  const START := State([], {}, None, 0, 0, map[], Resting, Open, {}, {}, 0, {}, [])

  function Total(s: State): nat { |s.idle| + |s.inUse| }

  function Owed(s: State): nat { if s.reaper.Warming? then s.reaper.owed else 0 }

  predicate Closed(s: State) { !s.phase.Open? }

  /** The environment a task is responsible for.  A raising health check ends the task but keeps its slot. */
  function Held(t: Task): Option<EnvId> {
    match t
    case Checking(e) => Some(e)
    case Confirming(e) => Some(e)
    case Condemning(e) => Some(e)
    case Leased(e) => Some(e)
    case ReleaseChecking(e) => Some(e)
    case ReleaseSettling(e, _) => Some(e)
    case ReleaseDropping(e) => Some(e)
    case Ended(CheckRaised(e)) => Some(e)
    case _ => None
  }

  /** The caller got a session object; it is usable only while the task is `Leased`. */
  predicate HasSession(t: Task) {
    t.Leased? || t.ReleaseChecking? || t.ReleaseSettling? || t.ReleaseDropping? || t.ReleaseDisposing?
    || t == Ended(Released)
  }

  /** Atomic steps of `session()` up to the hand-off, that is of `_acquire`. */
  datatype AcquireStep =
    | Enter
    | TakeIdle
    | BeginCreate(stamp: nat)
    | CreateOk(env: EnvId)
    | CreateFail
    | FindFull(expired: bool)
    | Checked(healthy: bool)
    | CheckRaise
    | Confirm
    | Condemn
    | Retry
    | Wake
    | TimeOut

  /** Atomic steps of a session in use and of `_release`. */
  datatype ReleaseStep =
    | Run
    | Exit
    | ReleaseChecked(alive: bool)
    | Settle
    | Drop
    | ReleaseEnd

  /**
   * Atomic steps of `_reap_once` and of `_warm`.  `ReapPass` runs up to the first await: `kept` are
   * the entries put back, youngest first, of which the first `young` are within their TTL.
   */
  datatype ReapStep =
    | ReapPass(kept: seq<EnvId>, young: nat, doomed: seq<EnvId>)
    | ReapAge
    | ReapRefill
    | ReapDestroy
    | WarmBegin
    | WarmOk(env: EnvId)
    | WarmFail

  /** Atomic steps of `shutdown`. */
  datatype ShutdownStep =
    | ShutdownBegin
    | DrainOne
    | CopyInUse(todo: seq<Slot>)
    | KillOne
    | ShutdownEnd

  datatype Step =
    | Acquire(t: TaskId, a: AcquireStep)
    | Release(t: TaskId, r: ReleaseStep)
    | Reap(p: ReapStep)
    | Shutdown(q: ShutdownStep)

  predicate At(s: State, t: TaskId, pc: Task) { t in s.tasks && s.tasks[t] == pc }

  predicate CanAcquire(c: Config, s: State, t: TaskId, a: AcquireStep) {
    match a
    case Enter => t !in s.tasks
    case TakeIdle => At(s, t, WantLock) && s.lock.None? && s.idle != []
    case BeginCreate(_) => At(s, t, WantLock) && s.lock.None? && s.idle == [] && Total(s) < c.maxSize
    case CreateOk(env) => t in s.tasks && s.tasks[t].Creating? && env !in s.created
    case CreateFail => t in s.tasks && s.tasks[t].Creating?
    case FindFull(_) => At(s, t, WantLock) && s.lock.None? && s.idle == [] && Total(s) >= c.maxSize
    case Checked(_) => t in s.tasks && s.tasks[t].Checking?
    case CheckRaise => t in s.tasks && s.tasks[t].Checking?
    case Confirm => t in s.tasks && s.tasks[t].Confirming? && s.lock.None?
    case Condemn => t in s.tasks && s.tasks[t].Condemning? && s.lock.None?
    case Retry => At(s, t, Disposing)
    case Wake => At(s, t, Waiting) && s.idle != []
    case TimeOut => At(s, t, Waiting)
  }

  predicate CanRelease(s: State, t: TaskId, r: ReleaseStep) {
    t in s.tasks &&
    match r
    case Run => HasSession(s.tasks[t])
    case Exit => s.tasks[t].Leased?
    case ReleaseChecked(_) => s.tasks[t].ReleaseChecking?
    case Settle => s.tasks[t].ReleaseSettling? && s.lock.None?
    case Drop => s.tasks[t].ReleaseDropping? && s.lock.None?
    case ReleaseEnd => s.tasks[t].ReleaseDisposing?
  }

  predicate CanReap(c: Config, s: State, p: ReapStep) {
    s.phase.Open? &&
    match p
    case ReapPass(kept, young, doomed) =>
      s.reaper.Resting?
      && multiset(kept) + multiset(doomed) == multiset(s.idle)
      && |kept| == Least(KeepTarget(c, |s.inUse|), |s.idle|) && young <= |kept|
    case ReapAge => s.reaper.AgingOut? && s.reaper.rest != []
    case ReapRefill => s.reaper.AgingOut? && s.reaper.rest == []
    case ReapDestroy => s.reaper.Destroying? && s.reaper.rest != []
    case WarmBegin => s.reaper.Resting? || s.reaper == Destroying([])
    case WarmOk(env) => s.reaper.Warming? && env !in s.created
    case WarmFail => s.reaper.Warming?
  }

  ghost predicate CanShutdown(s: State, q: ShutdownStep) {
    match q
    case ShutdownBegin => s.phase.Open?
    case DrainOne => s.phase.Draining? && s.idle != []
    case CopyInUse(todo) =>
      s.phase.Draining? && s.idle == [] && NoDup(todo) && (set x | x in todo) == s.inUse
    case KillOne => s.phase.Killing? && s.phase.todo != []
    case ShutdownEnd => s.phase == Killing([])
  }

  /** When `step` can be the next atomic step. */
  ghost predicate Enabled(c: Config, s: State, step: Step) {
    match step
    case Acquire(t, a) => CanAcquire(c, s, t, a)
    case Release(t, r) => CanRelease(s, t, r)
    case Reap(p) => CanReap(c, s, p)
    case Shutdown(q) => CanShutdown(s, q)
  }

  function Least(a: nat, b: nat): nat { if a < b then a else b }

  /** `max(min_idle - len(in_use), 0)`, the number of idle entries a reaper pass may keep. */
  function KeepTarget(c: Config, inUse: nat): nat {
    if c.minIdle > inUse then c.minIdle - inUse else 0
  }

  /** `max(0, min_idle - total)`. */
  function Shortfall(c: Config, total: nat): nat { if c.minIdle > total then c.minIdle - total else 0 }

  function Warm(n: nat): Reaper { if n == 0 then Resting else Warming(n) }

  function Move(s: State, t: TaskId, pc: Task): State { s.(tasks := s.tasks[t := pc]) }

  function DoAcquire(c: Config, s: State, t: TaskId, a: AcquireStep): State
    requires CanAcquire(c, s, t, a)
  {
    match a
    case Enter => Move(s, t, if Closed(s) then Ended(Rejected) else WantLock)
    case TakeIdle =>
      Move(s, t, Checking(s.idle[0])).(idle := s.idle[1..], inUse := s.inUse + {Env(s.idle[0])})
    case BeginCreate(stamp) =>
      Move(s, t, Creating(stamp)).(lock := Some(t), inUse := s.inUse + {Pending(stamp)})
    case CreateOk(env) =>
      Move(s, t, Leased(env)).(
        lock := None, inUse := s.inUse - {Pending(s.tasks[t].stamp)} + {Env(env)},
        totalLeases := s.totalLeases + 1, created := s.created + {env})
    case CreateFail =>
      Move(s, t, Ended(CreateFailed)).(lock := None, inUse := s.inUse - {Pending(s.tasks[t].stamp)})
    case FindFull(expired) => Move(s, t, if expired then Ended(Exhausted) else Waiting)
    case Checked(healthy) =>
      Move(s, t, if healthy then Confirming(s.tasks[t].env) else Condemning(s.tasks[t].env))
    case CheckRaise => Move(s, t, Ended(CheckRaised(s.tasks[t].env)))
    case Confirm => Move(s, t, Leased(s.tasks[t].env)).(totalLeases := s.totalLeases + 1)
    case Condemn =>
      Move(s, t, Disposing).(
        inUse := s.inUse - {Env(s.tasks[t].env)}, totalKills := s.totalKills + 1,
        destroyed := s.destroyed + {s.tasks[t].env})
    case Retry => Move(s, t, WantLock)
    case Wake => Move(s, t, WantLock).(idle := s.idle[1..] + [s.idle[0]])
    case TimeOut => Move(s, t, Ended(Exhausted))
  }

  function DoRelease(s: State, t: TaskId, r: ReleaseStep): State
    requires CanRelease(s, t, r)
  {
    match r
    case Run => if s.tasks[t].Leased? then s.(execs := s.execs + [Exec(t, s.tasks[t].env)]) else s
    case Exit =>
      Move(s, t, if Closed(s) then ReleaseDropping(s.tasks[t].env) else ReleaseChecking(s.tasks[t].env))
    case ReleaseChecked(alive) => Move(s, t, ReleaseSettling(s.tasks[t].env, alive))
    case Settle =>
      var e := s.tasks[t].env;
      if s.tasks[t].alive then
        Move(s, t, Ended(Released)).(inUse := s.inUse - {Env(e)}, idle := s.idle + [e])
      else
        Move(s, t, ReleaseDisposing).(
          inUse := s.inUse - {Env(e)}, totalKills := s.totalKills + 1, destroyed := s.destroyed + {e})
    case Drop =>
      Move(s, t, ReleaseDisposing).(
        inUse := s.inUse - {Env(s.tasks[t].env)}, destroyed := s.destroyed + {s.tasks[t].env})
    case ReleaseEnd => Move(s, t, Ended(Released))
  }

  /** The queue is drained and refilled with `kept`, and the first of the surplus passed to destroy. */
  function PutBack(s: State, kept: seq<EnvId>, doomed: seq<EnvId>): State {
    if doomed == [] then s.(idle := kept, reaper := Destroying([]))
    else s.(idle := kept, reaper := Destroying(doomed[1..]), destroyed := s.destroyed + {doomed[0]})
  }

  function DoReap(c: Config, s: State, p: ReapStep): State
    requires CanReap(c, s, p)
  {
    match p
    case ReapPass(kept, young, doomed) =>
      if young == |kept| then PutBack(s.(reaped := s.reaped + |doomed|), kept, doomed)
      else
        s.(idle := kept[1..], reaper := AgingOut(kept[..young], kept[young + 1..], doomed),
           destroyed := s.destroyed + {kept[young]}, reaped := s.reaped + |kept| - young + |doomed|)
    case ReapAge =>
      s.(idle := if s.idle == [] then [] else s.idle[1..], destroyed := s.destroyed + {s.reaper.rest[0]},
         reaper := s.reaper.(rest := s.reaper.rest[1..]))
    case ReapRefill => PutBack(s, s.reaper.surviving, s.reaper.doomed)
    case ReapDestroy =>
      s.(reaper := Destroying(s.reaper.rest[1..]), destroyed := s.destroyed + {s.reaper.rest[0]})
    case WarmBegin => s.(reaper := Warm(Shortfall(c, Total(s))))
    case WarmOk(env) =>
      s.(reaper := if s.reaper.owed <= 1 then Resting else Warming(s.reaper.owed - 1),
         idle := s.idle + [env], created := s.created + {env})
    case WarmFail => s.(reaper := Resting)
  }

  ghost function DoShutdown(s: State, q: ShutdownStep): State
    requires CanShutdown(s, q)
  {
    match q
    case ShutdownBegin =>
      s.(phase := Draining, reaper := Resting,
         abandoned := (set e | e in Surplus(s.reaper)))
    case DrainOne => s.(idle := s.idle[1..], destroyed := s.destroyed + {s.idle[0]})
    case CopyInUse(todo) => s.(phase := Killing(todo))
    case KillOne =>
      var x := s.phase.todo[0];
      s.(phase := Killing(s.phase.todo[1..]),
         destroyed := if x.Env? then s.destroyed + {x.id} else s.destroyed)
    case ShutdownEnd => s.(phase := Done, inUse := {})
  }

  /** The surplus a pass has not yet passed to destroy. */
  function Surplus(r: Reaper): seq<EnvId> {
    match r
    case Destroying(rest) => rest
    case AgingOut(_, _, doomed) => doomed
    case _ => []
  }

  /** The state after `step`. */
  ghost function Do(c: Config, s: State, step: Step): State
    requires Enabled(c, s, step)
  {
    match step
    case Acquire(t, a) => DoAcquire(c, s, t, a)
    case Release(t, r) => DoRelease(s, t, r)
    case Reap(p) => DoReap(c, s, p)
    case Shutdown(q) => DoShutdown(s, q)
  }

  /** `steps` can be taken one after the other from `s`. */
  ghost predicate Legal(c: Config, s: State, steps: seq<Step>)
    decreases |steps|
  {
    steps == [] || (Enabled(c, s, steps[0]) && Legal(c, Do(c, s, steps[0]), steps[1..]))
  }

  /** The state after `steps`. */
  ghost function After(c: Config, s: State, steps: seq<Step>): State
    requires Legal(c, s, steps)
    decreases |steps|
  {
    if steps == [] then s else After(c, Do(c, s, steps[0]), steps[1..])
  }

  /** Steps that are all `ok` lead from the state `from` to `s`. */
  ghost predicate Leads(c: Config, ok: Step -> bool, from: State, s: State) {
    exists steps :: Legal(c, from, steps) && After(c, from, steps) == s && All(ok, steps)
  }

  /** `s` is the state at some await point of some interleaving of steps that are all `ok`. */
  ghost predicate ReachableBy(c: Config, ok: Step -> bool, s: State) { Leads(c, ok, START, s) }

  ghost predicate All(ok: Step -> bool, steps: seq<Step>) { forall i :: 0 <= i < |steps| ==> ok(steps[i]) }

  function AnyStep(): Step -> bool { step => true }

  /** `s` is the state at some await point of some interleaving. */
  ghost predicate Reachable(c: Config, s: State) { ReachableBy(c, AnyStep(), s) }

  // ---- Passes that age entries out --------------------------------------------------------

  /** A pass that meets a kept entry past its TTL, and so awaits before it has rebuilt the queue. */
  predicate AgesOut(step: Step) { step.Reap? && step.p.ReapPass? && step.p.young < |step.p.kept| }

  /** A step other than such a pass, or a pass that keeps at most `k` entries. */
  predicate Tame(k: nat, step: Step) { AgesOut(step) ==> |step.p.kept| <= k }

  function TameSteps(k: nat): Step -> bool { step => Tame(k, step) }

  /** Reachable without a pass that meets a kept entry past its TTL and keeps more than `k`. */
  ghost predicate ReachableTame(c: Config, k: nat, s: State) { ReachableBy(c, TameSteps(k), s) }

  /** A pass never keeps more than `min_idle` entries. */
  lemma {:induction false} SmallMinIdleIsTame(c: Config, k: nat, s: State, steps: seq<Step>)
    requires c.minIdle <= k && Legal(c, s, steps)
    ensures All(TameSteps(k), steps)
    decreases |steps|
  {
    if steps == [] {
    } else {
      SmallMinIdleIsTame(c, k, Do(c, s, steps[0]), steps[1..]);
      assert Tame(k, steps[0]);
    }
  }

  lemma ReachableIsTame(c: Config, k: nat, s: State)
    requires c.minIdle <= k && Reachable(c, s)
    ensures ReachableTame(c, k, s)
  {
    var steps :| Legal(c, START, steps) && After(c, START, steps) == s && All(AnyStep(), steps);
    SmallMinIdleIsTame(c, k, START, steps);
  }

  lemma TameIsReachable(c: Config, k: nat, m: nat, s: State)
    requires ReachableTame(c, k, s) && k <= m
    ensures ReachableTame(c, m, s) && Reachable(c, s)
  {
    var steps :| Legal(c, START, steps) && After(c, START, steps) == s && All(TameSteps(k), steps);
    assert All(AnyStep(), steps);
    assert All(TameSteps(m), steps) by {
      forall i | 0 <= i < |steps|
        ensures TameSteps(m)(steps[i])
      {
        assert TameSteps(k)(steps[i]);
      }
    }
  }
}
