/**
 * Ways to build runs: the stretches of steps of which the example runs are made, each with the state
 * it leads to.  There are sessions that lease a new or an idle environment and give it back, a health
 * check that raises, shutdown, and sessions that fill the pool one by one; `PoolLimits` and
 * `PoolSeizure` put them together to runs that break a promise.
 */
module PoolRuns {
  import opened Prelude
  import opened PoolProtocol

  lemma {:induction false} AfterSnoc(c: Config, s: State, steps: seq<Step>, step: Step)
    requires Legal(c, s, steps) && Enabled(c, After(c, s, steps), step)
    ensures Legal(c, s, steps + [step]) && After(c, s, steps + [step]) == Do(c, After(c, s, steps), step)
    decreases |steps|
  {
    if steps == [] {
      assert Legal(c, Do(c, s, step), []);
      assert steps + [step] == [step];
    } else {
      AfterSnoc(c, Do(c, s, steps[0]), steps[1..], step);
      assert (steps + [step])[1..] == steps[1..] + [step];
    }
  }

  lemma Start(c: Config, ok: Step -> bool, from: State)
    ensures Leads(c, ok, from, from)
  {
    var none: seq<Step> := [];
    assert Legal(c, from, none) && After(c, from, none) == from && All(ok, none);
  }

  lemma Next(c: Config, ok: Step -> bool, from: State, s: State, step: Step) returns (s': State)
    requires Leads(c, ok, from, s) && Enabled(c, s, step) && ok(step)
    ensures Leads(c, ok, from, s') && s' == Do(c, s, step)
  {
    var steps :| Legal(c, from, steps) && After(c, from, steps) == s && All(ok, steps);
    AfterSnoc(c, from, steps, step);
    assert All(ok, steps + [step]);
    s' := Do(c, s, step);
  }

  /** Sessions may come and go as they like. */
  ghost predicate Sessions(ok: Step -> bool) {
    (forall t, a :: ok(Acquire(t, a))) && (forall t, r :: ok(Release(t, r)))
  }

  ghost predicate Ready(s: State) { s.phase.Open? && s.lock.None? }

  lemma ThriceUpdated<K, V>(m: map<K, V>, k: K, x: V, y: V, z: V)
    ensures m[k := x][k := y][k := z] == m[k := z]
  {
  }

  lemma AddRemove<T>(a: set<T>, x: T)
    requires x !in a
    ensures a + {x} - {x} == a && |a + {x}| == |a| + 1
  {
  }

  /** A session finds nothing idle and creates environment `e`. */
  lemma LeaseNew(c: Config, ok: Step -> bool, from: State, s: State, t: TaskId, e: EnvId) returns (s': State)
    requires Leads(c, ok, from, s) && Sessions(ok) && Ready(s)
    requires s.idle == [] && Total(s) < c.maxSize && t !in s.tasks && e !in s.created && Pending(0) !in s.inUse
    ensures Leads(c, ok, from, s')
    ensures s' == s.(tasks := s.tasks[t := Leased(e)], inUse := s.inUse + {Env(e)},
                     totalLeases := s.totalLeases + 1, created := s.created + {e})
  {
    var s1 := Next(c, ok, from, s, Acquire(t, Enter));
    var s2 := Next(c, ok, from, s1, Acquire(t, BeginCreate(0)));
    s' := Next(c, ok, from, s2, Acquire(t, CreateOk(e)));
    AddRemove(s.inUse, Pending(0));
    ThriceUpdated(s.tasks, t, WantLock, Creating(0), Leased(e));
  }

  /** A session takes the head of the queue and finds it healthy. */
  lemma LeaseIdle(c: Config, ok: Step -> bool, from: State, s: State, t: TaskId) returns (s': State)
    requires Leads(c, ok, from, s) && Sessions(ok) && Ready(s) && s.idle != [] && t !in s.tasks
    ensures Leads(c, ok, from, s')
    ensures var e := s.idle[0];
      s' == s.(tasks := s.tasks[t := Leased(e)], idle := s.idle[1..], inUse := s.inUse + {Env(e)},
               totalLeases := s.totalLeases + 1)
  {
    var e := s.idle[0];
    var s1 := Next(c, ok, from, s, Acquire(t, Enter));
    var s2 := Next(c, ok, from, s1, Acquire(t, TakeIdle));
    var s3 := Next(c, ok, from, s2, Acquire(t, Checked(true)));
    s' := Next(c, ok, from, s3, Acquire(t, Confirm));
    ThriceUpdated(s.tasks, t, WantLock, Checking(e), Confirming(e));
    ThriceUpdated(s.tasks, t, Confirming(e), Confirming(e), Leased(e));
  }

  /** A session ends and its environment, alive, goes back to the queue. */
  lemma Return(c: Config, ok: Step -> bool, from: State, s: State, t: TaskId) returns (s': State)
    requires Leads(c, ok, from, s) && Sessions(ok) && Ready(s) && t in s.tasks && s.tasks[t].Leased?
    ensures Leads(c, ok, from, s')
    ensures var e := s.tasks[t].env;
      s' == s.(tasks := s.tasks[t := Ended(Released)], inUse := s.inUse - {Env(e)}, idle := s.idle + [e])
  {
    var e := s.tasks[t].env;
    var s1 := Next(c, ok, from, s, Release(t, Exit));
    var s2 := Next(c, ok, from, s1, Release(t, ReleaseChecked(true)));
    s' := Next(c, ok, from, s2, Release(t, Settle));
    ThriceUpdated(s.tasks, t, ReleaseChecking(e), ReleaseSettling(e, true), Ended(Released));
  }

  /** A session takes the head of the queue, and its health check raises. */
  lemma RaiseOnIdle(c: Config, ok: Step -> bool, from: State, s: State, t: TaskId) returns (s': State)
    requires Leads(c, ok, from, s) && Sessions(ok) && Ready(s) && s.idle != [] && t !in s.tasks
    ensures Leads(c, ok, from, s')
    ensures var e := s.idle[0];
      s' == s.(tasks := s.tasks[t := Ended(CheckRaised(e))], idle := s.idle[1..], inUse := s.inUse + {Env(e)})
  {
    var e := s.idle[0];
    var s1 := Next(c, ok, from, s, Acquire(t, Enter));
    var s2 := Next(c, ok, from, s1, Acquire(t, TakeIdle));
    s' := Next(c, ok, from, s2, Acquire(t, CheckRaise));
    ThriceUpdated(s.tasks, t, WantLock, Checking(e), Ended(CheckRaised(e)));
  }

  /** Shutdown of a pool that looks empty. */
  lemma ShutDown(c: Config, ok: Step -> bool, from: State, s: State) returns (s': State)
    requires Leads(c, ok, from, s) && s.phase.Open? && s.idle == [] && s.inUse == {}
    requires forall q :: ok(Shutdown(q))
    ensures Leads(c, ok, from, s')
    ensures s' == s.(phase := Done, reaper := Resting, abandoned := (set e | e in Surplus(s.reaper)))
  {
    var none: seq<Slot> := [];
    var s1 := Next(c, ok, from, s, Shutdown(ShutdownBegin));
    var s2 := Next(c, ok, from, s1, Shutdown(CopyInUse(none)));
    s' := Next(c, ok, from, s2, Shutdown(ShutdownEnd));
  }

  /** `n` sessions fill the pool, each creating its own environment. */
  lemma {:induction false} FillUp(c: Config, ok: Step -> bool, from: State, s: State, n: nat, k: int)
    returns (s': State)
    requires Leads(c, ok, from, s) && Sessions(ok) && Ready(s) && s.idle == [] && Total(s) + n <= c.maxSize
    requires Unused(s, k) && NoPending(s)
    ensures Leads(c, ok, from, s') && Ready(s') && s'.idle == [] && s'.reaper == s.reaper
    ensures Unused(s', k + n) && NoPending(s') && Total(s') == Total(s) + n
    ensures forall t :: t in s.tasks ==> t in s'.tasks && s'.tasks[t] == s.tasks[t]
    ensures forall x :: x in s'.inUse ==> x in s.inUse || x.id >= k
    decreases n
  {
    if n == 0 {
      s' := s;
    } else {
      UnusedId(s, k);
      var s1 := LeaseNew(c, ok, from, s, k, k);
      AddRemove(s.inUse, Env(k));
      assert Unused(s1, k + 1) && NoPending(s1);
      s' := FillUp(c, ok, from, s1, n - 1, k + 1);
    }
  }

  /** Ids from `k` on are unused. */
  ghost predicate Unused(s: State, k: int) {
    && (forall t :: t in s.tasks ==> t < k) && (forall e :: e in s.created ==> e < k)
    && (forall e :: Env(e) in s.inUse ==> e < k)
  }

  lemma UnusedId(s: State, k: int)
    requires Unused(s, k) && NoPending(s)
    ensures k !in s.tasks && k !in s.created && Env(k) !in s.inUse && Pending(0) !in s.inUse
  {
  }

  ghost predicate NoPending(s: State) { forall x :: x in s.inUse ==> x.Env? }

  lemma TwoLeased(c: Config, ok: Step -> bool) returns (s: State)
    requires Sessions(ok) && c.maxSize >= 2
    ensures ReachableBy(c, ok, s) && Ready(s) && s.reaper == Resting
    ensures s.idle == [] && s.inUse == {Env(0), Env(1)} && s.created == {0, 1}
    ensures s.destroyed == {} && s.abandoned == {}
    ensures s.tasks == map[0 := Leased(0), 1 := Leased(1)]
  {
    Start(c, ok, START);
    var s1 := LeaseNew(c, ok, START, START, 0, 0);
    s := LeaseNew(c, ok, START, s1, 1, 1);
  }

  /** Two environments idle, and nobody in the pool any more. */
  lemma TwoIdle(c: Config, ok: Step -> bool) returns (s: State)
    requires Sessions(ok) && c.maxSize >= 2
    ensures ReachableBy(c, ok, s) && Ready(s) && s.reaper == Resting
    ensures s.idle == [0, 1] && s.inUse == {} && s.created == {0, 1} && s.destroyed == {} && s.abandoned == {}
    ensures s.tasks == map[0 := Ended(Released), 1 := Ended(Released)]
  {
    var s1 := TwoLeased(c, ok);
    var s2 := Return(c, ok, START, s1, 0);
    s := Return(c, ok, START, s2, 1);
  }

  lemma ThreeLeased(c: Config, ok: Step -> bool) returns (s: State)
    requires Sessions(ok) && c.maxSize >= 3
    ensures ReachableBy(c, ok, s) && Ready(s) && s.reaper == Resting
    ensures s.idle == [] && s.inUse == {Env(0), Env(1), Env(2)} && s.created == {0, 1, 2}
    ensures s.tasks == map[0 := Leased(0), 1 := Leased(1), 2 := Leased(2)]
  {
    var s1 := TwoLeased(c, ok);
    assert |s1.inUse| == 2;
    s := LeaseNew(c, ok, START, s1, 2, 2);
  }

  lemma ThreeIdle(c: Config, ok: Step -> bool) returns (s: State)
    requires Sessions(ok) && c.maxSize >= 3
    ensures ReachableBy(c, ok, s) && Ready(s) && s.reaper == Resting
    ensures s.idle == [0, 1, 2] && s.inUse == {} && s.created == {0, 1, 2} && s.tasks.Keys == {0, 1, 2}
  {
    var s1 := ThreeLeased(c, ok);
    var s2 := Return(c, ok, START, s1, 0);
    var s3 := Return(c, ok, START, s2, 1);
    s := Return(c, ok, START, s3, 2);
  }
}
