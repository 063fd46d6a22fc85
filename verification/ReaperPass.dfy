/**
 * A reaper pass in the concurrent pool: the uninterrupted pass of `ContainerPool` is one of its runs, and whatever
 * else runs, what a pass does not keep is destroyed.
 */
module ReaperPass {
  import opened Prelude
  import opened PoolProtocol
  import opened PoolRuns
  import opened ContainerPool
  import PoolLedger

  ghost function AllOf<T>(s: seq<T>): set<T> { set x | x in s }

  lemma AllOfCons<T>(s: seq<T>)
    requires s != []
    ensures AllOf(s) == {s[0]} + AllOf(s[1..])
  {
    assert s == [s[0]] + s[1..];
  }

  lemma Cons(c: Config, s: State, step: Step, rest: seq<Step>)
    requires Enabled(c, s, step) && Legal(c, Do(c, s, step), rest)
    ensures Legal(c, s, [step] + rest) && After(c, s, [step] + rest) == After(c, Do(c, s, step), rest)
  {
    assert ([step] + rest)[1..] == rest;
  }

  /** The state in which a pass has put `kept` back and destroyed all of `gone`. */
  ghost function Passed(s: State, kept: seq<EnvId>, gone: set<EnvId>): State {
    s.(idle := kept, reaper := Destroying([]), destroyed := s.destroyed + gone)
  }

  lemma {:induction false} DestroyRest(c: Config, s: State) returns (steps: seq<Step>)
    requires s.phase.Open? && s.reaper.Destroying?
    ensures Legal(c, s, steps) && After(c, s, steps) == Passed(s, s.idle, AllOf(s.reaper.rest))
    decreases |s.reaper.rest|
  {
    if s.reaper.rest == [] {
      steps := [];
      assert s.destroyed + {} == s.destroyed;
    } else {
      var s1 := DoReap(c, s, ReapDestroy);
      var more := DestroyRest(c, s1);
      AllOfCons(s.reaper.rest);
      Cons(c, s, Reap(ReapDestroy), more);
      steps := [Reap(ReapDestroy)] + more;
    }
  }

  /** Putting `kept` back and destroying the surplus one by one. */
  lemma DestroySurplus(c: Config, s: State, kept: seq<EnvId>, doomed: seq<EnvId>) returns (steps: seq<Step>)
    requires s.phase.Open?
    ensures Legal(c, PutBack(s, kept, doomed), steps)
    ensures After(c, PutBack(s, kept, doomed), steps) == Passed(s, kept, AllOf(doomed))
  {
    steps := DestroyRest(c, PutBack(s, kept, doomed));
    if doomed == [] {
      assert s.destroyed + AllOf(doomed) == s.destroyed;
    } else {
      AllOfCons(doomed);
    }
  }

  lemma {:induction false} AgeAll(c: Config, s: State) returns (steps: seq<Step>)
    requires s.phase.Open? && s.reaper.AgingOut?
    ensures Legal(c, s, steps)
    ensures After(c, s, steps) == Passed(s, s.reaper.surviving, AllOf(s.reaper.rest) + AllOf(s.reaper.doomed))
    decreases |s.reaper.rest|
  {
    if s.reaper.rest == [] {
      var more := DestroySurplus(c, s, s.reaper.surviving, s.reaper.doomed);
      Cons(c, s, Reap(ReapRefill), more);
      steps := [Reap(ReapRefill)] + more;
      assert AllOf(s.reaper.rest) + AllOf(s.reaper.doomed) == AllOf(s.reaper.doomed);
    } else {
      var s1 := DoReap(c, s, ReapAge);
      var more := AgeAll(c, s1);
      AllOfCons(s.reaper.rest);
      Cons(c, s, Reap(ReapAge), more);
      steps := [Reap(ReapAge)] + more;
    }
  }

  /** A pass that nobody interrupts, in terms of what it keeps, ages out and destroys. */
  lemma PassRuns(c: Config, s: State, kept: seq<EnvId>, young: nat, doomed: seq<EnvId>)
    returns (steps: seq<Step>, reaped: nat)
    requires s.phase.Open? && CanReap(c, s, ReapPass(kept, young, doomed))
    ensures Legal(c, s, steps)
    ensures After(c, s, steps) == Passed(s, kept[..young], AllOf(kept[young..]) + AllOf(doomed)).(reaped := reaped)
    ensures reaped == s.reaped + |kept[young..]| + |doomed|
  {
    var pass := ReapPass(kept, young, doomed);
    var s1 := DoReap(c, s, pass);
    reaped := s1.reaped;
    var more: seq<Step>;
    if young == |kept| {
      more := DestroySurplus(c, s.(reaped := reaped), kept, doomed);
      assert kept[..young] == kept && AllOf(kept[young..]) + AllOf(doomed) == AllOf(doomed);
    } else {
      more := AgeAll(c, s1);
      AllOfCons(kept[young..]);
      assert kept[young..][1..] == kept[young + 1..];
    }
    Cons(c, s, Reap(pass), more);
    steps := [Reap(pass)] + more;
  }

  lemma AllOfConcat<T>(a: seq<T>, b: seq<T>)
    ensures AllOf(a + b) == AllOf(a) + AllOf(b)
  {
    forall x | x in AllOf(a) + AllOf(b)
      ensures x in a + b
    {
    }
  }

  /** The pass of the sequential pool, as the first step of a run. */
  lemma PassIsEnabled(c: Config, s: State, idle: seq<Entry>, now: int, ttl: int)
    requires s.phase.Open? && s.reaper.Resting? && s.idle == Envs(idle)
    ensures var kept, dead := Kept(c, |s.inUse|, idle), Dead(c, |s.inUse|, idle);
      CanReap(c, s, ReapPass(Envs(kept), |FreshOnes(kept, now, ttl)|, Envs(dead)))
  {
    var kept, dead := Kept(c, |s.inUse|, idle), Dead(c, |s.inUse|, idle);
    YoungestFirstSorts(idle);
    KeptAndDead(c, |s.inUse|, idle);
    FreshIsPrefix(kept, now, ttl);
    EnvsPermute(kept + dead, idle);
    EnvsAppend(kept, dead);
    EnvsLength(kept);
    EnvsLength(idle);
    SameSize(YoungestFirst(idle), idle);
  }

  lemma SameSize<T>(a: seq<T>, b: seq<T>)
    requires multiset(a) == multiset(b)
    ensures |a| == |b|
  {
    assert |multiset(a)| == |multiset(b)|;
  }

  /**
   * From a state with the same queue some run of reaper steps alone ends with the queue and the
   * destroyed environments of `SubPool.ReapOnce` before its warm-up.
   */
  lemma UninterruptedPassIsARun(c: Config, s: State, idle: seq<Entry>, now: int, ttl: int) returns (steps: seq<Step>)
    requires s.phase.Open? && s.reaper.Resting? && s.idle == Envs(idle)
    ensures Legal(c, s, steps)
    ensures var s' := After(c, s, steps);
      && s'.idle == Envs(Survivors(c, |s.inUse|, idle, now, ttl))
      && s'.destroyed == s.destroyed + AllOf(Envs(Victims(c, |s.inUse|, idle, now, ttl)))
      && s'.inUse == s.inUse && s'.reaper == Destroying([])
      && s'.reaped == s.reaped + |Victims(c, |s.inUse|, idle, now, ttl)|
  {
    var kept, dead := Kept(c, |s.inUse|, idle), Dead(c, |s.inUse|, idle);
    var young, stale := FreshOnes(kept, now, ttl), StaleOnes(kept, now, ttl);
    PassIsEnabled(c, s, idle, now, ttl);
    var reaped: nat;
    steps, reaped := PassRuns(c, s, Envs(kept), |young|, Envs(dead));
    KeptAndDead(c, |s.inUse|, idle);
    FreshIsPrefix(kept, now, ttl);
    EnvsAppend(young, stale);
    EnvsLength(young);
    assert Envs(kept)[..|young|] == Envs(young) && Envs(kept)[|young|..] == Envs(stale);
    EnvsAppend(stale, dead);
    AllOfConcat(Envs(stale), Envs(dead));
    EnvsLength(stale);
    EnvsLength(dead);
  }

  // ---- The queue while entries age out ----------------------------------------------------

  /** A pass goes on to destroy `n` more aged-out entries. */
  function Ages(n: nat): seq<Step>
    ensures |Ages(n)| == n
  {
    if n == 0 then [] else [Reap(ReapAge)] + Ages(n - 1)
  }

  /** Without interference: as many heads of the queue are gone as entries have been destroyed. */
  ghost function Aged(s: State, n: nat): State
    requires s.reaper.AgingOut? && n <= |s.reaper.rest| <= |s.idle|
  {
    s.(idle := s.idle[n..], reaper := s.reaper.(rest := s.reaper.rest[n..]),
       destroyed := s.destroyed + AllOf(s.reaper.rest[..n]))
  }

  lemma AgesOneMore(c: Config, s: State, n: nat)
    requires CanReap(c, s, ReapAge) && 1 <= n <= |s.reaper.rest| <= |s.idle|
    ensures Aged(DoReap(c, s, ReapAge), n - 1) == Aged(s, n)
  {
    var gone := s.reaper.rest[..n];
    AllOfCons(gone);
    assert gone[1..] == s.reaper.rest[1..][..n - 1];
    assert s.idle[1..][n - 1..] == s.idle[n..] && s.reaper.rest[1..][n - 1..] == s.reaper.rest[n..];
  }

  lemma {:induction false} AgesPop(c: Config, s: State, n: nat)
    requires s.phase.Open? && s.reaper.AgingOut? && n <= |s.reaper.rest| <= |s.idle|
    ensures Legal(c, s, Ages(n)) && After(c, s, Ages(n)) == Aged(s, n)
    decreases n
  {
    if n == 0 {
      assert s.destroyed + AllOf(s.reaper.rest[..0]) == s.destroyed;
    } else {
      AgesPop(c, DoReap(c, s, ReapAge), n - 1);
      AgesOneMore(c, s, n);
      Cons(c, s, Reap(ReapAge), Ages(n - 1));
    }
  }

  /** The pass has begun to age out the entries after the first `young`. */
  ghost predicate Begun(s: State, s1: State, kept: seq<EnvId>, young: nat)
    requires young < |kept|
  {
    && s1.phase.Open? && s1.reaper.AgingOut? && s1.reaper.rest == kept[young + 1..]
    && s1.idle == kept[1..] && s1.destroyed == s.destroyed + {kept[young]}
  }

  lemma AgedOf(s: State, s1: State, kept: seq<EnvId>, young: nat, n: nat)
    requires young < |kept| && Begun(s, s1, kept, young) && 1 <= n <= |kept| - young
    ensures Aged(s1, n - 1).idle == kept[n..]
    ensures Aged(s1, n - 1).destroyed == s.destroyed + AllOf(kept[young..young + n])
  {
    var gone := kept[young..young + n];
    AllOfCons(gone);
    assert gone[1..] == kept[young + 1..][..n - 1];
    assert kept[1..][n - 1..] == kept[n..];
  }

  /**
   * For each entry that ages out the head of the queue is popped, and that is one of the youngest: if
   * nobody interferes, the queue lacks the `n` youngest while the `n`-th of the aged is destroyed.
   */
  lemma AgingPopsTheYoungest(c: Config, s: State, kept: seq<EnvId>, young: nat, doomed: seq<EnvId>, n: nat)
    requires s.phase.Open? && CanReap(c, s, ReapPass(kept, young, doomed)) && 1 <= n <= |kept| - young
    ensures var steps := [Reap(ReapPass(kept, young, doomed))] + Ages(n - 1);
      && Legal(c, s, steps)
      && After(c, s, steps).idle == kept[n..]
      && After(c, s, steps).destroyed == s.destroyed + AllOf(kept[young..young + n])
  {
    var pass := ReapPass(kept, young, doomed);
    var s1 := DoReap(c, s, pass);
    AgedOf(s, s1, kept, young, n);
    AgesPop(c, s1, n - 1);
    Cons(c, s, Reap(pass), Ages(n - 1));
  }

  // ---- Every victim goes ------------------------------------------------------------------

  /** What the pass under way has still to destroy. */
  ghost function Due(s: State): set<EnvId> {
    match s.reaper
    case AgingOut(_, rest, doomed) => AllOf(rest) + AllOf(doomed)
    case Destroying(rest) => AllOf(rest)
    case _ => {}
  }

  lemma DueStep(c: Config, s: State, step: Step)
    requires Enabled(c, s, step) && Do(c, s, step).phase.Open?
    ensures Due(s) <= Due(Do(c, s, step)) + Do(c, s, step).destroyed && s.destroyed <= Do(c, s, step).destroyed
  {
    match step
    case Acquire(t, a) =>
    case Release(t, r) =>
    case Reap(p) => DueReap(c, s, p);
    case Shutdown(q) =>
  }

  lemma DuePutBack(s: State, kept: seq<EnvId>, doomed: seq<EnvId>)
    ensures AllOf(doomed) <= Due(PutBack(s, kept, doomed)) + PutBack(s, kept, doomed).destroyed
  {
    if doomed != [] { AllOfCons(doomed); }
  }

  lemma DueReap(c: Config, s: State, p: ReapStep)
    requires CanReap(c, s, p)
    ensures Due(s) <= Due(DoReap(c, s, p)) + DoReap(c, s, p).destroyed
    ensures s.destroyed <= DoReap(c, s, p).destroyed
  {
    match p
    case ReapAge => AllOfCons(s.reaper.rest);
    case ReapRefill => DuePutBack(s, s.reaper.surviving, s.reaper.doomed);
    case ReapDestroy => AllOfCons(s.reaper.rest);
    case _ =>
  }

  lemma {:induction false} DueIsDone(c: Config, s: State, steps: seq<Step>)
    requires Legal(c, s, steps) && After(c, s, steps).phase.Open?
    ensures Due(s) <= Due(After(c, s, steps)) + After(c, s, steps).destroyed
    ensures s.destroyed <= After(c, s, steps).destroyed
    decreases |steps|
  {
    if steps == [] {
    } else {
      var s1 := Do(c, s, steps[0]);
      if s1.phase.Open? {
        DueStep(c, s, steps[0]);
        DueIsDone(c, s1, steps[1..]);
      } else {
        PoolLedger.StaysClosed(c, s1, steps[1..]);
      }
    }
  }

  /**
   * Whatever else runs: as long as the pool is open, every entry a pass does not keep is destroyed by
   * the time the pass is over, those past their TTL as well as the surplus.
   */
  lemma EveryVictimGoes(
    c: Config, s: State, kept: seq<EnvId>, young: nat, doomed: seq<EnvId>, steps: seq<Step>, e: EnvId)
    requires CanReap(c, s, ReapPass(kept, young, doomed))
    requires Legal(c, DoReap(c, s, ReapPass(kept, young, doomed)), steps)
    requires var s' := After(c, DoReap(c, s, ReapPass(kept, young, doomed)), steps);
      s'.phase.Open? && (s'.reaper.Resting? || s'.reaper.Warming? || s'.reaper == Destroying([]))
    requires e in kept[young..] || e in doomed
    ensures e in After(c, DoReap(c, s, ReapPass(kept, young, doomed)), steps).destroyed
  {
    var s1 := DoReap(c, s, ReapPass(kept, young, doomed));
    DueIsDone(c, s1, steps);
    if young == |kept| {
      DuePutBack(s.(reaped := s.reaped + |doomed|), kept, doomed);
    } else {
      assert kept[young..] == [kept[young]] + kept[young + 1..];
    }
  }
}
