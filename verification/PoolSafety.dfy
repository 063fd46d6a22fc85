/**
 * Where every environment is, which slots of `in_use` are taken, and how many there are: what every
 * step of a session keeps, and what a step of the reaper or of shutdown keeps under which condition.
 * The three invariants are kept apart, since different steps endanger them: that each environment is
 * in one place, that slots match their owners, and that the total stays within its bound.
 */
module PoolSafety {
  import opened Prelude
  import opened PoolProtocol

  ghost predicate Holds(s: State, t: TaskId, e: EnvId) { t in s.tasks && Held(s.tasks[t]) == Some(e) }

  /** What a reaper pass has taken from the queue, to destroy it or to put it back. */
  function Aside(s: State): seq<EnvId> {
    match s.reaper
    case Destroying(rest) => rest
    case AgingOut(surviving, _, doomed) => surviving + doomed
    case _ => []
  }

  /** Every environment is in at most one place: once in `idle`, once with the reaper, or held by one task. */
  ghost predicate OnePlace(s: State) {
    && NoDup(s.idle) && NoDup(Aside(s))
    && (forall e :: e in s.idle ==> e in s.created && e !in Aside(s))
    && (forall e :: e in Aside(s) ==> e in s.created)
    && (forall t, e :: Holds(s, t, e) ==> e in s.created && e !in s.idle && e !in Aside(s))
    && (forall t, u, e :: Holds(s, t, e) && Holds(s, u, e) ==> t == u)
  }

  /** `in_use` is exactly what tasks hold, plus the placeholder of the lock owner, until shutdown clears it. */
  ghost predicate SlotsMatch(s: State) {
    && (forall t :: t in s.tasks && s.tasks[t].Creating? <==> s.lock == Some(t))
    && (forall e :: Env(e) in s.inUse ==> exists t :: Holds(s, t, e))
    && (forall n :: Pending(n) in s.inUse ==> s.lock.Some? && s.tasks[s.lock.value] == Creating(n))
    && (!s.phase.Done? ==>
          && (forall t, e :: Holds(s, t, e) ==> Env(e) in s.inUse)
          && (s.lock.Some? ==> Pending(s.tasks[s.lock.value].stamp) in s.inUse))
  }

  ghost predicate Places(s: State) { OnePlace(s) && SlotsMatch(s) }

  /** What task `t` holds; nothing before it has entered. */
  function HeldBy(s: State, t: TaskId): Option<EnvId> { if t in s.tasks then Held(s.tasks[t]) else None }

  /** A step of task `t` changes only what `t` holds. */
  lemma OnlyOneMoves(s: State, s': State, t: TaskId)
    requires t in s'.tasks && s'.tasks == s.tasks[t := s'.tasks[t]]
    ensures forall u: TaskId, e: EnvId {:trigger Holds(s', u, e)} {:trigger Holds(s, u, e)} ::
              Holds(s', u, e) == if u == t then HeldBy(s', t) == Some(e) else Holds(s, u, e)
  {
  }

  /** Taking the head of `idle`, and putting it back behind the others. */
  lemma HeadLeaves<T>(s: seq<T>)
    requires s != [] && NoDup(s)
    ensures NoDup(s[1..]) && s[0] !in s[1..] && NoDup(s[1..] + [s[0]])
    ensures forall x :: x in s <==> x in s[1..] + [s[0]]
    ensures forall x :: x in s[1..] <==> x in s && x != s[0]
  {
    assert s == [s[0]] + s[1..];
  }

  // ---- One place --------------------------------------------------------------------------

  /** Task `t` moves on with what it held, or with nothing; queue and reaper stay as they are. */
  predicate MovesOn(s: State, s': State, t: TaskId) {
    && s'.idle == s.idle && s'.reaper == s.reaper && s'.created == s.created
    && t in s'.tasks && s'.tasks == s.tasks[t := s'.tasks[t]]
    && (HeldBy(s', t).Some? ==> HeldBy(s', t) == HeldBy(s, t))
  }

  lemma MoveKeepsOnePlace(s: State, s': State, t: TaskId)
    requires OnePlace(s) && MovesOn(s, s', t)
    ensures OnePlace(s')
  {
    OnlyOneMoves(s, s', t);
    if HeldBy(s, t).Some? { assert Holds(s, t, HeldBy(s, t).value); }
  }

  predicate Queues(a: AcquireStep) { a.TakeIdle? || a.Wake? }

  lemma QueueStepKeepsOnePlace(c: Config, s: State, t: TaskId, a: AcquireStep)
    requires OnePlace(s) && CanAcquire(c, s, t, a) && Queues(a)
    ensures OnePlace(DoAcquire(c, s, t, a))
  {
    OnlyOneMoves(s, DoAcquire(c, s, t, a), t);
    HeadLeaves(s.idle);
  }

  lemma NewKeepsOnePlace(c: Config, s: State, t: TaskId, env: EnvId)
    requires OnePlace(s) && CanAcquire(c, s, t, CreateOk(env))
    ensures OnePlace(DoAcquire(c, s, t, CreateOk(env)))
  {
    OnlyOneMoves(s, DoAcquire(c, s, t, CreateOk(env)), t);
  }

  lemma AcquireKeepsOnePlace(c: Config, s: State, t: TaskId, a: AcquireStep)
    requires OnePlace(s) && CanAcquire(c, s, t, a)
    ensures OnePlace(DoAcquire(c, s, t, a))
  {
    if Queues(a) {
      QueueStepKeepsOnePlace(c, s, t, a);
    } else if a.CreateOk? {
      NewKeepsOnePlace(c, s, t, a.env);
    } else {
      MoveKeepsOnePlace(s, DoAcquire(c, s, t, a), t);
    }
  }

  predicate Requeues(s: State, t: TaskId, r: ReleaseStep)
    requires CanRelease(s, t, r)
  {
    r.Settle? && s.tasks[t].alive
  }

  lemma RequeueKeepsOnePlace(s: State, t: TaskId)
    requires OnePlace(s) && CanRelease(s, t, Settle) && Requeues(s, t, Settle)
    ensures OnePlace(DoRelease(s, t, Settle))
  {
    assert Holds(s, t, s.tasks[t].env);
    OnlyOneMoves(s, DoRelease(s, t, Settle), t);
  }

  lemma ReleaseKeepsOnePlace(s: State, t: TaskId, r: ReleaseStep)
    requires OnePlace(s) && CanRelease(s, t, r)
    ensures OnePlace(DoRelease(s, t, r))
  {
    if Requeues(s, t, r) {
      RequeueKeepsOnePlace(s, t);
    } else {
      MoveKeepsOnePlace(s, DoRelease(s, t, r), t);
    }
  }

  // ---- Slots ------------------------------------------------------------------------------

  predicate IsCreating(s: State, t: TaskId) { t in s.tasks && s.tasks[t].Creating? }

  /** Task `t` moves on and keeps what it holds; nobody begins or ends a creation. */
  predicate KeepsHold(s: State, s': State, t: TaskId) {
    && s'.inUse == s.inUse && s'.lock == s.lock && s'.phase == s.phase
    && t in s'.tasks && s'.tasks == s.tasks[t := s'.tasks[t]]
    && HeldBy(s', t) == HeldBy(s, t) && !IsCreating(s, t) && !IsCreating(s', t)
  }

  lemma KeptHoldKeepsSlots(s: State, s': State, t: TaskId)
    requires SlotsMatch(s) && KeepsHold(s, s', t)
    ensures SlotsMatch(s')
  {
    OnlyOneMoves(s, s', t);
    assert forall u: TaskId, e: EnvId {:trigger Holds(s', u, e)} {:trigger Holds(s, u, e)} ::
        Holds(s', u, e) == Holds(s, u, e);
  }

  /** Task `t` gives up the environment it holds, and its slot. */
  predicate DropsHold(s: State, s': State, t: TaskId) {
    && HeldBy(s, t).Some? && s'.inUse == s.inUse - {Env(HeldBy(s, t).value)}
    && s'.lock == s.lock && s'.phase == s.phase
    && t in s'.tasks && s'.tasks == s.tasks[t := s'.tasks[t]]
    && HeldBy(s', t) == None && !IsCreating(s', t)
  }

  lemma DroppedHoldKeepsSlots(s: State, s': State, t: TaskId)
    requires Places(s) && DropsHold(s, s', t)
    ensures SlotsMatch(s')
  {
    OnlyOneMoves(s, s', t);
    assert Holds(s, t, HeldBy(s, t).value);
  }

  lemma TakeKeepsSlots(c: Config, s: State, t: TaskId)
    requires Places(s) && CanAcquire(c, s, t, TakeIdle)
    ensures SlotsMatch(DoAcquire(c, s, t, TakeIdle))
  {
    var s' := DoAcquire(c, s, t, TakeIdle);
    OnlyOneMoves(s, s', t);
    assert Holds(s', t, s.idle[0]);
  }

  lemma BeginKeepsSlots(c: Config, s: State, t: TaskId, stamp: nat)
    requires Places(s) && CanAcquire(c, s, t, BeginCreate(stamp))
    ensures SlotsMatch(DoAcquire(c, s, t, BeginCreate(stamp)))
  {
    OnlyOneMoves(s, DoAcquire(c, s, t, BeginCreate(stamp)), t);
  }

  lemma CreateOkKeepsSlots(c: Config, s: State, t: TaskId, env: EnvId)
    requires Places(s) && CanAcquire(c, s, t, CreateOk(env))
    ensures SlotsMatch(DoAcquire(c, s, t, CreateOk(env)))
  {
    var s' := DoAcquire(c, s, t, CreateOk(env));
    OnlyOneMoves(s, s', t);
    assert Holds(s', t, env);
  }

  lemma CreateFailKeepsSlots(c: Config, s: State, t: TaskId)
    requires Places(s) && CanAcquire(c, s, t, CreateFail)
    ensures SlotsMatch(DoAcquire(c, s, t, CreateFail))
  {
    OnlyOneMoves(s, DoAcquire(c, s, t, CreateFail), t);
  }

  lemma AcquireKeepsSlots(c: Config, s: State, t: TaskId, a: AcquireStep)
    requires Places(s) && CanAcquire(c, s, t, a)
    ensures SlotsMatch(DoAcquire(c, s, t, a))
  {
    match a
    case TakeIdle => TakeKeepsSlots(c, s, t);
    case BeginCreate(stamp) => BeginKeepsSlots(c, s, t, stamp);
    case CreateOk(env) => CreateOkKeepsSlots(c, s, t, env);
    case CreateFail => CreateFailKeepsSlots(c, s, t);
    case Condemn => DroppedHoldKeepsSlots(s, DoAcquire(c, s, t, a), t);
    case _ =>
      KeptHoldKeepsSlots(s, DoAcquire(c, s, t, a), t);
  }

  lemma ReleaseKeepsSlots(s: State, t: TaskId, r: ReleaseStep)
    requires Places(s) && CanRelease(s, t, r)
    ensures SlotsMatch(DoRelease(s, t, r))
  {
    if r.Settle? || r.Drop? {
      DroppedHoldKeepsSlots(s, DoRelease(s, t, r), t);
    } else {
      KeptHoldKeepsSlots(s, DoRelease(s, t, r), t);
    }
  }

  lemma UnheldKeepSlots(s: State, s': State)
    requires SlotsMatch(s) && s'.tasks == s.tasks && s'.lock == s.lock
    requires (s'.inUse == s.inUse && (s.phase.Done? <==> s'.phase.Done?)) || (s'.phase.Done? && s'.inUse == {})
    ensures SlotsMatch(s')
  {
    OthersHoldOn(s, s');
  }

  /** Splitting a sequence without repetitions leaves two of them, with no element in common. */
  lemma SplitNoDup<T>(s: seq<T>, a: seq<T>, b: seq<T>)
    requires NoDup(s) && multiset(a) + multiset(b) == multiset(s)
    ensures NoDup(a) && NoDup(b)
    ensures forall x :: x in a ==> x in s && x !in b
    ensures forall x :: x in b ==> x in s
  {
    forall x | x in a || x in b
      ensures multiset(s)[x] == 1
    {
      assert x in multiset(s);
      OnceEach(s, x);
    }
    OnceIsNoDup(a);
    OnceIsNoDup(b);
  }

  lemma {:induction false} OnceEach<T>(s: seq<T>, x: T)
    requires NoDup(s)
    ensures multiset(s)[x] <= 1
  {
    if s == [] {
    } else {
      OnceEach(s[1..], x);
      assert s == [s[0]] + s[1..];
    }
  }

  lemma OnceIsNoDup<T>(s: seq<T>)
    requires forall x :: x in s ==> multiset(s)[x] <= 1
    ensures NoDup(s)
  {
    forall i, j | 0 <= i < j < |s|
      ensures s[i] != s[j]
    {
      assert s == s[..j] + s[j..];
      assert multiset(s)[s[j]] == multiset(s[..j])[s[j]] + multiset(s[j..])[s[j]];
      assert s[j..][0] in multiset(s[j..]);
      assert s[..j][i] in multiset(s[..j]);
    }
  }

  // ---- The reaper -------------------------------------------------------------------------

  /** Nobody moves, and what is in the queue or set aside was there before. */
  lemma TakenKeepsOnePlace(s: State, s': State)
    requires OnePlace(s) && s'.tasks == s.tasks && s'.created == s.created
    requires NoDup(s'.idle) && NoDup(Aside(s'))
    requires forall e :: e in s'.idle || e in Aside(s') ==> e in s.idle || e in Aside(s)
    requires forall e :: e in s'.idle ==> e !in Aside(s')
    ensures OnePlace(s')
  {
    OthersHoldOn(s, s');
  }

  lemma TailOf<T>(s: seq<T>)
    requires NoDup(s)
    ensures s != [] ==> NoDup(s[1..]) && (forall x :: x in s[1..] ==> x in s) && s[0] !in s[1..]
  {
  }

  /** `kept` goes back to the queue, its aged-out head or last survivor apart. */
  lemma PassKeepsOnePlace(c: Config, s: State, p: ReapStep)
    requires OnePlace(s) && CanReap(c, s, p) && p.ReapPass? && Tame(2, Reap(p))
    ensures OnePlace(DoReap(c, s, p))
  {
    SplitNoDup(s.idle, p.kept, p.doomed);
    TailOf(p.kept);
    TailOf(p.doomed);
    if p.young == |p.kept| {
      TakenKeepsOnePlace(s, DoReap(c, s, p));
    } else {
      AsideOfPass(p.kept, p.young, p.doomed);
      TakenKeepsOnePlace(s, DoReap(c, s, p));
    }
  }

  lemma ConsNoDup<T>(x: T, s: seq<T>)
    requires NoDup(s) && x !in s
    ensures NoDup([x] + s)
  {
  }

  lemma AsideOfPass<T>(kept: seq<T>, young: nat, doomed: seq<T>)
    requires young < |kept| <= 2 && NoDup(kept) && NoDup(doomed) && forall x :: x in kept ==> x !in doomed
    ensures var aside := kept[..young] + doomed;
      && NoDup(aside)
      && (forall x :: x in aside ==> (x in kept || x in doomed) && x !in kept[1..])
  {
    var aside := kept[..young] + doomed;
    if young == 0 {
      assert aside == doomed;
    } else {
      assert kept[..1] == [kept[0]];
      ConsNoDup(kept[0], doomed);
      TailOf(kept);
    }
  }

  lemma RefillKeepsOnePlace(c: Config, s: State)
    requires OnePlace(s) && CanReap(c, s, ReapRefill)
    ensures OnePlace(DoReap(c, s, ReapRefill))
  {
    var a, b := s.reaper.surviving, s.reaper.doomed;
    PartsOf(a, b);
    TailOf(b);
    TakenKeepsOnePlace(s, DoReap(c, s, ReapRefill));
  }

  lemma PartsOf<T>(a: seq<T>, b: seq<T>)
    requires NoDup(a + b)
    ensures NoDup(a) && NoDup(b) && forall x :: x in a ==> x !in b && x in a + b
    ensures forall x :: x in b ==> x in a + b
  {
    assert forall i :: 0 <= i < |a| ==> (a + b)[i] == a[i];
    assert forall i :: 0 <= i < |b| ==> (a + b)[|a| + i] == b[i];
  }

  lemma OldKeepsOnePlace(c: Config, s: State, p: ReapStep)
    requires OnePlace(s) && CanReap(c, s, p) && (p.ReapAge? || p.ReapDestroy? || p.WarmBegin? || p.WarmFail?)
    ensures OnePlace(DoReap(c, s, p))
  {
    TailOf(s.idle);
    TailOf(Aside(s));
    TakenKeepsOnePlace(s, DoReap(c, s, p));
  }

  lemma WarmedKeepsOnePlace(c: Config, s: State, env: EnvId)
    requires OnePlace(s) && CanReap(c, s, WarmOk(env))
    ensures OnePlace(DoReap(c, s, WarmOk(env)))
  {
    OthersHoldOn(s, DoReap(c, s, WarmOk(env)));
  }

  lemma ReapKeepsOnePlace(c: Config, s: State, p: ReapStep)
    requires OnePlace(s) && CanReap(c, s, p) && Tame(2, Reap(p))
    ensures OnePlace(DoReap(c, s, p))
  {
    match p
    case ReapPass(_, _, _) => PassKeepsOnePlace(c, s, p);
    case ReapRefill => RefillKeepsOnePlace(c, s);
    case WarmOk(env) => WarmedKeepsOnePlace(c, s, env);
    case _ => OldKeepsOnePlace(c, s, p);
  }

  lemma ShutdownKeepsOnePlace(s: State, q: ShutdownStep)
    requires OnePlace(s) && CanShutdown(s, q)
    ensures OnePlace(DoShutdown(s, q))
  {
    OthersHoldOn(s, DoShutdown(s, q));
  }

  lemma OthersHoldOn(s: State, s': State)
    requires s'.tasks == s.tasks
    ensures forall u: TaskId, e: EnvId {:trigger Holds(s', u, e)} {:trigger Holds(s, u, e)} ::
              Holds(s', u, e) == Holds(s, u, e)
  {
  }

  lemma ReapKeepsPlaces(c: Config, s: State, p: ReapStep)
    requires Places(s) && CanReap(c, s, p) && Tame(2, Reap(p))
    ensures Places(DoReap(c, s, p))
  {
    ReapKeepsOnePlace(c, s, p);
    UnheldKeepSlots(s, DoReap(c, s, p));
  }

  lemma ShutdownKeepsPlaces(s: State, q: ShutdownStep)
    requires Places(s) && CanShutdown(s, q)
    ensures Places(DoShutdown(s, q))
  {
    ShutdownKeepsOnePlace(s, q);
    UnheldKeepSlots(s, DoShutdown(s, q));
  }

  /** Every step but a pass that ages out one of three or more kept entries. */
  lemma PlacesKept(c: Config, s: State, step: Step)
    requires Places(s) && Enabled(c, s, step) && Tame(2, step)
    ensures Places(Do(c, s, step))
  {
    match step
    case Acquire(t, a) =>
      AcquireKeepsOnePlace(c, s, t, a);
      AcquireKeepsSlots(c, s, t, a);
    case Release(t, r) =>
      ReleaseKeepsOnePlace(s, t, r);
      ReleaseKeepsSlots(s, t, r);
    case Reap(p) => ReapKeepsPlaces(c, s, p);
    case Shutdown(q) => ShutdownKeepsPlaces(s, q);
  }

  // ---- Whole runs -------------------------------------------------------------------------

  lemma {:induction false} PlacesAlways(c: Config, s: State, steps: seq<Step>)
    requires Places(s) && Legal(c, s, steps) && All(TameSteps(2), steps)
    ensures Places(After(c, s, steps))
    decreases |steps|
  {
    if steps == [] {
    } else {
      assert TameSteps(2)(steps[0]);
      PlacesKept(c, s, steps[0]);
      PlacesAlways(c, Do(c, s, steps[0]), steps[1..]);
    }
  }

  lemma StartPlaces()
    ensures Places(START)
  {
  }

  // ---- The number of slots ----------------------------------------------------------------

  lemma CardAdd<T>(a: set<T>, x: T)
    ensures |a + {x}| == if x in a then |a| else |a| + 1
  {
    if x in a { assert a + {x} == a; }
  }

  lemma CardRemove<T>(a: set<T>, x: T)
    ensures |a - {x}| == if x in a then |a| - 1 else |a|
  {
    if x !in a { assert a - {x} == a; }
  }

  predicate Reserves(step: Step) { step.Acquire? && step.a.BeginCreate? }

  predicate Warms(step: Step) { step.Reap? && step.p.WarmOk? }

  lemma AcquireTotal(c: Config, s: State, t: TaskId, a: AcquireStep)
    requires Places(s) && CanAcquire(c, s, t, a) && !s.phase.Done?
    ensures var s' := DoAcquire(c, s, t, a);
      if a.BeginCreate? then Total(s') == Total(s) + 1 <= c.maxSize
      else Total(s') == if a.CreateFail? || a.Condemn? then Total(s) - 1 else Total(s)
  {
    if HeldBy(s, t).Some? { assert Holds(s, t, HeldBy(s, t).value); }
    match a
    case TakeIdle => CardAdd(s.inUse, Env(s.idle[0]));
    case BeginCreate(stamp) => CardAdd(s.inUse, Pending(stamp));
    case CreateOk(env) =>
      CardRemove(s.inUse, Pending(s.tasks[t].stamp));
      CardAdd(s.inUse - {Pending(s.tasks[t].stamp)}, Env(env));
    case CreateFail => CardRemove(s.inUse, Pending(s.tasks[t].stamp));
    case Condemn => CardRemove(s.inUse, Env(s.tasks[t].env));
    case _ =>
  }

  lemma ReleaseTotal(s: State, t: TaskId, r: ReleaseStep)
    requires Places(s) && CanRelease(s, t, r) && !s.phase.Done?
    ensures var s' := DoRelease(s, t, r);
      Total(s') == if r.Drop? || (r.Settle? && !s.tasks[t].alive) then Total(s) - 1 else Total(s)
  {
    if HeldBy(s, t).Some? {
      assert Holds(s, t, HeldBy(s, t).value);
      CardRemove(s.inUse, Env(HeldBy(s, t).value));
    }
  }

  /** A running pass has kept at most `k` entries, if it is ageing some out. */
  predicate TamePass(k: nat, s: State) {
    s.reaper.AgingOut? ==> |s.reaper.surviving| + |s.reaper.rest| < k
  }

  lemma TamePassKept(c: Config, k: nat, s: State, step: Step)
    requires TamePass(k, s) && Enabled(c, s, step) && Tame(k, step)
    ensures TamePass(k, Do(c, s, step))
  {
    match step
    case Acquire(t, a) => assert DoAcquire(c, s, t, a).reaper == s.reaper;
    case Release(t, r) => assert DoRelease(s, t, r).reaper == s.reaper;
    case Reap(p) =>
    case Shutdown(q) =>
  }

  lemma PassTotal(c: Config, s: State, p: ReapStep)
    requires CanReap(c, s, p) && p.ReapPass?
    ensures Total(DoReap(c, s, p)) == Total(s) - |p.doomed| - if AgesOut(Reap(p)) then 1 else 0
  {
    assert |multiset(p.kept) + multiset(p.doomed)| == |multiset(s.idle)|;
  }

  /** What a refill may add to the queue. */
  function Returning(s: State): nat { if s.reaper.AgingOut? then |s.reaper.surviving| else 0 }

  lemma ReapTotal(c: Config, s: State, p: ReapStep)
    requires CanReap(c, s, p)
    ensures var s' := DoReap(c, s, p);
      && (p.WarmOk? ==> Total(s') == Total(s) + 1)
      && (p.ReapRefill? ==> Total(s') <= Total(s) + Returning(s))
      && (!p.WarmOk? && !p.ReapRefill? ==> Total(s') <= Total(s))
  {
    if p.ReapPass? { PassTotal(c, s, p); }
  }

  /** Only a creation that found room, a warm-up and a refill after ageing out add a slot. */
  lemma TotalStep(c: Config, s: State, step: Step)
    requires Places(s) && Enabled(c, s, step) && !Do(c, s, step).phase.Done?
    ensures !s.phase.Done?
    ensures Reserves(step) ==> Total(Do(c, s, step)) <= c.maxSize
    ensures Warms(step) ==> Total(Do(c, s, step)) == Total(s) + 1
    ensures !Reserves(step) && !Warms(step) ==>
              Total(Do(c, s, step)) <= Total(s) + if step == Reap(ReapRefill) then Returning(s) else 0
  {
    match step
    case Acquire(t, a) => AcquireTotal(c, s, t, a);
    case Release(t, r) => ReleaseTotal(s, t, r);
    case Reap(p) => ReapTotal(c, s, p);
    case Shutdown(q) =>
  }

  /** What is in the pool, plus what the running warm-up still owes or a refill may bring back. */
  ghost predicate Bounded(c: Config, s: State) {
    && Owed(s) <= c.minIdle
    && (s.reaper.Warming? ==> s.reaper.owed > 0)
    && (s.reaper.AgingOut? ==> Returning(s) < c.minIdle)
    && (!s.phase.Done? ==> Total(s) + Owed(s) + Returning(s) <= c.maxSize + c.minIdle)
  }

  lemma ReapBounded(c: Config, s: State, p: ReapStep)
    requires ValidConfig(c) && Bounded(c, s) && CanReap(c, s, p)
    ensures Bounded(c, DoReap(c, s, p))
  {
    ReapTotal(c, s, p);
    if p.ReapPass? { PassTotal(c, s, p); }
  }

  lemma BoundedStep(c: Config, s: State, step: Step)
    requires ValidConfig(c) && Places(s) && Bounded(c, s) && Enabled(c, s, step)
    ensures Bounded(c, Do(c, s, step))
  {
    var s' := Do(c, s, step);
    match step
    case Reap(p) => ReapBounded(c, s, p);
    case Shutdown(q) =>
    case _ =>
      assert s'.reaper == s.reaper;
      if !s'.phase.Done? { TotalStep(c, s, step); }
  }

  /** Warm-ups may overlap with acquires, but never by more than `min_idle`. */
  lemma {:induction false} TotalWithWarmUps(c: Config, s: State, steps: seq<Step>)
    requires ValidConfig(c) && Places(s) && Bounded(c, s) && Legal(c, s, steps) && All(TameSteps(2), steps)
    ensures Bounded(c, After(c, s, steps))
    decreases |steps|
  {
    if steps == [] {
    } else {
      assert TameSteps(2)(steps[0]);
      PlacesKept(c, s, steps[0]);
      BoundedStep(c, s, steps[0]);
      TotalWithWarmUps(c, Do(c, s, steps[0]), steps[1..]);
    }
  }

  /** A step that is no warm-up, and no pass that ages out one of several kept entries. */
  function QuietSteps(): Step -> bool { step => !Warms(step) && Tame(1, step) }

  /** A well-placed pool within its bound. */
  ghost predicate Within(c: Config, s: State) {
    Places(s) && TamePass(1, s) && (!s.phase.Done? ==> Total(s) <= c.maxSize)
  }

  lemma WithinKept(c: Config, s: State, step: Step)
    requires Within(c, s) && Enabled(c, s, step) && QuietSteps()(step)
    ensures Within(c, Do(c, s, step))
  {
    PlacesKept(c, s, step);
    TamePassKept(c, 1, s, step);
    if !Do(c, s, step).phase.Done? { TotalStep(c, s, step); }
  }

  /** Without warm-ups the documented bound holds at every await point. */
  lemma {:induction false} TotalWithoutWarmUps(c: Config, s: State, steps: seq<Step>)
    requires Within(c, s) && Legal(c, s, steps) && All(QuietSteps(), steps)
    ensures Within(c, After(c, s, steps))
    decreases |steps|
  {
    if steps == [] {
    } else {
      assert QuietSteps()(steps[0]);
      WithinKept(c, s, steps[0]);
      TotalWithoutWarmUps(c, Do(c, s, steps[0]), steps[1..]);
    }
  }
}
