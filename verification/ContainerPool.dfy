/**
 * The pool without interference: `_acquire`, `_release`, `_warm` and `_reap_once` as they run when no other task does,
 * the loops over the queue, with the driver's answers given in advance.
 */
module ContainerPool {
  import opened Prelude
  import opened PoolProtocol

  /** One entry of the idle queue. */
  datatype Entry = Entry(env: EnvId, idleSince: int)

  datatype Lease = Leasing(env: EnvId) | CreateError | ExhaustedError

  function Envs(s: seq<Entry>): seq<EnvId> { if s == [] then [] else [s[0].env] + Envs(s[1..]) }

  lemma {:induction false} EnvsAppend(a: seq<Entry>, b: seq<Entry>)
    ensures Envs(a + b) == Envs(a) + Envs(b)
  {
    if a == [] {
      assert a + b == b;
    } else {
      EnvsAppend(a[1..], b);
      assert a + b == [a[0]] + (a[1..] + b);
      EnvsCons(a[0], a[1..] + b);
      Regroup([a[0].env], Envs(a[1..]), Envs(b));
    }
  }

  lemma EnvsCons(e: Entry, rest: seq<Entry>)
    ensures Envs([e] + rest) == [e.env] + Envs(rest)
  {
    assert ([e] + rest)[1..] == rest;
  }

  /** How the next creation ends, and the script after it; past its end every creation fails. */
  function Coming(script: seq<Option<EnvId>>): Option<EnvId> { if script == [] then None else script[0] }

  function Remaining(script: seq<Option<EnvId>>): seq<Option<EnvId>> { if script == [] then [] else script[1..] }

  /** The driver: which environments pass a health check, and how the coming creations end. */
  class Driver {
    const healthy: EnvId -> bool
    var script: seq<Option<EnvId>>
    var destroyed: seq<EnvId>

    constructor (healthy: EnvId -> bool, script: seq<Option<EnvId>>)
      ensures this.healthy == healthy && this.script == script && destroyed == []
    {
      this.healthy, this.script, this.destroyed := healthy, script, [];
    }

    method Create() returns (r: Option<EnvId>)
      modifies this`script
      ensures r == Coming(old(script)) && script == Remaining(old(script))
    {
      r := None;
      if script != [] { r, script := script[0], script[1..]; }
    }

    method Destroy(e: EnvId)
      modifies this`destroyed
      ensures destroyed == old(destroyed) + [e]
    {
      destroyed := destroyed + [e];
    }
  }

  /** How many entries at the head of the queue fail the health check. */
  function DeadHeads(healthy: EnvId -> bool, s: seq<Entry>): (n: nat)
    ensures n <= |s|
    ensures forall i :: 0 <= i < n ==> !healthy(s[i].env)
    ensures n < |s| ==> healthy(s[n].env)
  {
    if s == [] || healthy(s[0].env) then 0 else 1 + DeadHeads(healthy, s[1..])
  }

  lemma {:induction false} DeadHeadsIs(healthy: EnvId -> bool, s: seq<Entry>, n: nat)
    requires n <= |s| && (forall i :: 0 <= i < n ==> !healthy(s[i].env)) && (n == |s| || healthy(s[n].env))
    ensures DeadHeads(healthy, s) == n
  {
  }

  /** The entries the first `n` creations add to the queue, up to the first creation that fails. */
  function Warmed(script: seq<Option<EnvId>>, n: nat, now: int): (r: seq<Entry>)
    ensures |r| <= n && |r| <= |script|
    ensures forall i :: 0 <= i < |r| ==> script[i] == Some(r[i].env) && r[i].idleSince == now
    ensures |r| < n && |r| < |script| ==> script[|r|] == None
  {
    if n == 0 || Coming(script).None? then []
    else [Entry(Coming(script).value, now)] + Warmed(Remaining(script), n - 1, now)
  }

  lemma Shift<T>(a: seq<T>, x: T, b: seq<T>)
    ensures (a + [x]) + b == a + ([x] + b) && ([x] + b)[1..] == b
  {
  }

  /** Inserts before the first entry that is not younger: repeated from the back this is a stable sort. */
  function Insert(e: Entry, s: seq<Entry>): seq<Entry> {
    if s == [] || s[0].idleSince <= e.idleSince then [e] + s else [s[0]] + Insert(e, s[1..])
  }

  /** `drained.sort(key=idle_since, reverse=True)`. */
  function YoungestFirst(s: seq<Entry>): seq<Entry> {
    if s == [] then [] else Insert(s[0], YoungestFirst(s[1..]))
  }

  predicate Fresh(e: Entry, now: int, ttl: int) { now - e.idleSince <= ttl }

  function IfFresh(e: Entry, now: int, ttl: int): seq<Entry> { if Fresh(e, now, ttl) then [e] else [] }

  function IfStale(e: Entry, now: int, ttl: int): seq<Entry> { if Fresh(e, now, ttl) then [] else [e] }

  function FreshOnes(s: seq<Entry>, now: int, ttl: int): seq<Entry> {
    if s == [] then [] else IfFresh(s[0], now, ttl) + FreshOnes(s[1..], now, ttl)
  }

  function StaleOnes(s: seq<Entry>, now: int, ttl: int): seq<Entry> {
    if s == [] then [] else IfStale(s[0], now, ttl) + StaleOnes(s[1..], now, ttl)
  }

  /** The queue after `n` times `get_nowait`. */
  function AfterPops(idle: seq<Entry>, n: nat): seq<Entry> {
    if n == 0 then idle else Pop(AfterPops(idle, n - 1))
  }

  /** `get_nowait`, which leaves an empty queue empty. */
  function Pop(idle: seq<Entry>): seq<Entry> { if idle == [] then [] else idle[1..] }

  lemma {:induction false} PopsCutTheFront(idle: seq<Entry>, n: nat)
    ensures AfterPops(idle, n) == idle[Least(n, |idle|)..]
  {
    if n == 0 {
    } else {
      PopsCutTheFront(idle, n - 1);
    }
  }

  lemma EnvsSnoc(s: seq<Entry>, e: Entry)
    ensures Envs(s + [e]) == Envs(s) + [e.env]
  {
    EnvsAppend(s, [e]);
    assert Envs([e]) == [e.env];
  }

  lemma {:induction false} FreshSnoc(s: seq<Entry>, e: Entry, now: int, ttl: int)
    ensures FreshOnes(s + [e], now, ttl) == FreshOnes(s, now, ttl) + IfFresh(e, now, ttl)
  {
    if s == [] {
      assert s + [e] == [e] + s;
      FilterCons(e, s, now, ttl);
    } else {
      var x, rest := s[0], s[1..];
      FreshSnoc(rest, e, now, ttl);
      assert s + [e] == [x] + (rest + [e]);
      FilterCons(x, rest + [e], now, ttl);
      Regroup(IfFresh(x, now, ttl), FreshOnes(rest, now, ttl), IfFresh(e, now, ttl));
    }
  }

  lemma {:induction false} StaleSnoc(s: seq<Entry>, e: Entry, now: int, ttl: int)
    ensures StaleOnes(s + [e], now, ttl) == StaleOnes(s, now, ttl) + IfStale(e, now, ttl)
  {
    if s == [] {
      assert s + [e] == [e] + s;
      FilterCons(e, s, now, ttl);
    } else {
      var x, rest := s[0], s[1..];
      StaleSnoc(rest, e, now, ttl);
      assert s + [e] == [x] + (rest + [e]);
      FilterCons(x, rest + [e], now, ttl);
      Regroup(IfStale(x, now, ttl), StaleOnes(rest, now, ttl), IfStale(e, now, ttl));
    }
  }

  lemma FilterCons(e: Entry, rest: seq<Entry>, now: int, ttl: int)
    ensures FreshOnes([e] + rest, now, ttl) == IfFresh(e, now, ttl) + FreshOnes(rest, now, ttl)
    ensures StaleOnes([e] + rest, now, ttl) == IfStale(e, now, ttl) + StaleOnes(rest, now, ttl)
  {
    assert ([e] + rest)[1..] == rest;
  }

  lemma FilterNext(s: seq<Entry>, i: nat, now: int, ttl: int)
    requires i < |s|
    ensures var young, stale := FreshOnes(s[..i], now, ttl), StaleOnes(s[..i], now, ttl);
      if Fresh(s[i], now, ttl) then
        FreshOnes(s[..i + 1], now, ttl) == young + [s[i]] && StaleOnes(s[..i + 1], now, ttl) == stale
      else
        FreshOnes(s[..i + 1], now, ttl) == young && StaleOnes(s[..i + 1], now, ttl) == stale + [s[i]]
  {
    assert s[..i] + [s[i]] == s[..i + 1];
    FreshSnoc(s[..i], s[i], now, ttl);
    StaleSnoc(s[..i], s[i], now, ttl);
  }

  class SubPool {
    const config: Config
    const ttl: int
    const driver: Driver
    var idle: seq<Entry>
    var inUse: set<Slot>
    var totalLeases: nat
    var totalKills: nat
    var closed: bool

    constructor (config: Config, ttl: int, driver: Driver)
      ensures this.config == config && this.ttl == ttl && this.driver == driver
      ensures idle == [] && inUse == {} && totalLeases == totalKills == 0 && !closed && Quiet()
    {
      this.config, this.ttl, this.driver := config, ttl, driver;
      idle, inUse, totalLeases, totalKills, closed := [], {}, 0, 0, false;
    }

    /** No creation is in flight, and no queued environment is also in use or queued twice. */
    ghost predicate Quiet()
      reads this
    {
      && (forall x :: x in inUse ==> x.Env?)
      && (forall i :: 0 <= i < |idle| ==> Env(idle[i].env) !in inUse)
      && (forall i, j :: 0 <= i < j < |idle| ==> idle[i].env != idle[j].env)
    }

    function Size(): nat
      reads this
    {
      |idle| + |inUse|
    }

    /**
     * Takes the first healthy environment in queue order, having destroyed exactly the unhealthy
     * ones before it; else creates one; and reports exhaustion only when there is no room either.
     */
    method Acquire(stamp: nat) returns (r: Lease)
      requires Quiet()
      modifies this, driver
      ensures closed == old(closed)
      ensures var k := DeadHeads(driver.healthy, old(idle));
        && idle == old(idle)[if k < |old(idle)| then k + 1 else k..]
        && driver.destroyed == old(driver.destroyed) + Envs(old(idle)[..k])
        && totalKills == old(totalKills) + k
        && (k < |old(idle)| ==>
              && r == Leasing(old(idle)[k].env)
              && inUse == old(inUse) + {Env(r.env)}
              && driver.script == old(driver.script))
        && (k == |old(idle)| ==>
              if |old(inUse)| < config.maxSize then
                && driver.script == Remaining(old(driver.script))
                && (Coming(old(driver.script)).None? ==> r == CreateError && inUse == old(inUse))
                && (Coming(old(driver.script)).Some? ==>
                      r == Leasing(Coming(old(driver.script)).value) && inUse == old(inUse) + {Env(r.env)})
              else r == ExhaustedError && inUse == old(inUse) && driver.script == old(driver.script))
      ensures totalLeases == old(totalLeases) + if r.Leasing? then 1 else 0
      ensures old(Size()) <= config.maxSize ==>
                (r == ExhaustedError <==> old(idle) == [] && |old(inUse)| == config.maxSize)
    {
      ghost var n := 0;
      ghost var queue, gone := idle, [];
      assert queue[..0] == [];
      while true
        invariant n <= |queue| && idle == queue[n..] && forall i :: 0 <= i < n ==> !driver.healthy(queue[i].env)
        invariant inUse == old(inUse) && totalLeases == old(totalLeases) && closed == old(closed)
        invariant totalKills == old(totalKills) + n
        invariant gone == Envs(queue[..n]) && driver.destroyed == old(driver.destroyed) + gone
        invariant driver.script == old(driver.script)
        decreases |idle|
      {
        var entry := None;
        if n == |queue| || driver.healthy(queue[n].env) { DeadHeadsIs(driver.healthy, queue, n); }
        if idle != [] {
          assert Env(queue[n].env) !in old(inUse);
          entry := Some(idle[0]);
          idle := idle[1..];
          inUse := inUse + {Env(entry.value.env)};
        } else if Size() < config.maxSize {
          r := LeaseNew(stamp);
          return;
        }
        if entry.Some? {
          var e := entry.value.env;
          if driver.healthy(e) {
            totalLeases := totalLeases + 1;
            return Leasing(e);
          }
          Condemn(e);
          EnvsSnoc(queue[..n], queue[n]);
          assert queue[..n] + [queue[n]] == queue[..n + 1];
          Regroup(old(driver.destroyed), gone, [e]);
          n, gone := n + 1, gone + [e];
          continue;
        }
        // Waiting for a release: nobody else runs, so the wait times out.
        return ExhaustedError;
      }
    }

    /** An unhealthy environment loses its slot and is destroyed. */
    method Condemn(e: EnvId)
      modifies this`inUse, this`totalKills, driver`destroyed
      ensures inUse == old(inUse) - {Env(e)} && totalKills == old(totalKills) + 1
      ensures driver.destroyed == old(driver.destroyed) + [e]
    {
      inUse := inUse - {Env(e)};
      totalKills := totalKills + 1;
      driver.Destroy(e);
    }

    /** A placeholder holds the slot until the new environment, if one comes, replaces it. */
    method LeaseNew(stamp: nat) returns (r: Lease)
      requires Pending(stamp) !in inUse
      modifies this`inUse, this`totalLeases, driver`script
      ensures driver.script == Remaining(old(driver.script))
      ensures match Coming(old(driver.script))
        case None => r == CreateError && inUse == old(inUse) && totalLeases == old(totalLeases)
        case Some(e) => r == Leasing(e) && inUse == old(inUse) + {Env(e)} && totalLeases == old(totalLeases) + 1
    {
      inUse := inUse + {Pending(stamp)};
      var created := driver.Create();
      inUse := inUse - {Pending(stamp)};
      if created.None? { return CreateError; }
      inUse := inUse + {Env(created.value)};
      totalLeases := totalLeases + 1;
      return Leasing(created.value);
    }

    /** The slot is given up and the environment is queued, or destroyed; before shutdown only the dead are. */
    method Release(env: EnvId, now: int)
      modifies this, driver
      ensures inUse == old(inUse) - {Env(env)} && closed == old(closed)
      ensures totalLeases == old(totalLeases) && driver.script == old(driver.script)
      ensures if !old(closed) && driver.healthy(env) then
                idle == old(idle) + [Entry(env, now)] && driver.destroyed == old(driver.destroyed)
              else
                idle == old(idle) && driver.destroyed == old(driver.destroyed) + [env]
      ensures totalKills == old(totalKills) + if !old(closed) && !driver.healthy(env) then 1 else 0
    {
      if closed {
        inUse := inUse - {Env(env)};
        driver.Destroy(env);
        return;
      }
      var alive := driver.healthy(env);
      inUse := inUse - {Env(env)};
      if alive {
        idle := idle + [Entry(env, now)];
      } else {
        totalKills := totalKills + 1;
      }
      if !alive { driver.Destroy(env); }
    }

    /** Queues new environments until `min_idle` is reached or a creation fails. */
    method Warm(now: int)
      modifies this`idle, driver`script
      ensures idle == old(idle) + Warmed(old(driver.script), Shortfall(config, old(Size())), now)
    {
      var needed := Shortfall(config, Size());
      ghost var rest := Warmed(driver.script, needed, now);
      ghost var full := idle + rest;
      for i := 0 to needed
        invariant rest == Warmed(driver.script, needed - i, now) && idle + rest == full
      {
        var created := driver.Create();
        if created.None? { return; }
        Shift(idle, Entry(created.value, now), rest[1..]);
        idle, rest := idle + [Entry(created.value, now)], rest[1..];
      }
    }

    /** Destroys the kept entries past their TTL; each time the head of the queue is popped, whichever entry that is. */
    method AgeOut(kept: seq<Entry>, now: int) returns (surviving: seq<Entry>)
      modifies this`idle, driver`destroyed
      ensures surviving == FreshOnes(kept, now, ttl)
      ensures driver.destroyed == old(driver.destroyed) + Envs(StaleOnes(kept, now, ttl))
      ensures idle == AfterPops(old(idle), |StaleOnes(kept, now, ttl)|)
    {
      surviving := [];
      ghost var stale: seq<Entry> := [];
      for i := 0 to |kept|
        invariant surviving == FreshOnes(kept[..i], now, ttl) && stale == StaleOnes(kept[..i], now, ttl)
        invariant driver.destroyed == old(driver.destroyed) + Envs(stale)
        invariant idle == AfterPops(old(idle), |stale|)
      {
        FilterNext(kept, i, now, ttl);
        if now - kept[i].idleSince > ttl {
          EnvsSnoc(stale, kept[i]);
          Regroup(old(driver.destroyed), Envs(stale), [kept[i].env]);
          Evict(kept[i]);
          stale := stale + [kept[i]];
          continue;
        }
        surviving := surviving + [kept[i]];
      }
      assert kept[..|kept|] == kept;
    }

    /** Pops the head, whichever entry that is, and destroys `entry`. */
    method Evict(entry: Entry)
      modifies this`idle, driver`destroyed
      ensures idle == Pop(old(idle))
      ensures driver.destroyed == old(driver.destroyed) + [entry.env]
    {
      if idle != [] { idle := idle[1..]; }
      driver.Destroy(entry.env);
    }

    method DestroyAll(dead: seq<Entry>)
      modifies driver`destroyed
      ensures driver.destroyed == old(driver.destroyed) + Envs(dead)
    {
      for i := 0 to |dead|
        invariant driver.destroyed == old(driver.destroyed) + Envs(dead[..i])
      {
        driver.Destroy(dead[i].env);
        EnvsSnoc(dead[..i], dead[i]);
        assert dead[..i] + [dead[i]] == dead[..i + 1];
      }
      assert dead[..|dead|] == dead;
    }

    /**
     * One reaper pass, uninterrupted.  Of the youngest `max(min_idle - in_use, 0)` entries those within
     * their TTL stay, in youngest-first order; every other entry is destroyed, the aged-out ones first.
     */
    method ReapOnce(now: int)
      modifies this`idle, driver
      ensures var stay := Survivors(config, |inUse|, old(idle), now, ttl);
        && idle == stay + Warmed(old(driver.script), Shortfall(config, |stay| + |inUse|), now)
        && driver.destroyed == old(driver.destroyed) + Envs(Victims(config, |inUse|, old(idle), now, ttl))
    {
      var drained := Drain();
      var kept, dead := SplitByAge(drained);
      Rebuild(kept, dead, now);
      Warm(now);
    }

    /** Sorts youngest first and cuts after `max(min_idle - in_use, 0)` entries. */
    method SplitByAge(drained: seq<Entry>) returns (kept: seq<Entry>, dead: seq<Entry>)
      ensures kept == Kept(config, |inUse|, drained) && dead == Dead(config, |inUse|, drained)
    {
      var order := YoungestFirst(drained);
      var keep := Least(KeepTarget(config, |inUse|), |order|);
      kept, dead := order[..keep], order[keep..];
    }

    /** Queues `kept` again, minus what has aged out, and destroys the rest. */
    method Rebuild(kept: seq<Entry>, dead: seq<Entry>, now: int)
      requires idle == []
      modifies this`idle, driver`destroyed
      ensures idle == FreshOnes(kept, now, ttl)
      ensures driver.destroyed == old(driver.destroyed) + Envs(StaleOnes(kept, now, ttl) + dead)
    {
      Refill(kept);
      var surviving := AgeOut(kept, now);
      var leftover := Drain();
      Refill(surviving);
      DestroyAll(dead);
      ghost var stale := StaleOnes(kept, now, ttl);
      EnvsAppend(stale, dead);
      Regroup(old(driver.destroyed), Envs(stale), Envs(dead));
    }

    /** `get_nowait` until the queue is empty. */
    method Drain() returns (drained: seq<Entry>)
      modifies this`idle
      ensures drained == old(idle) && idle == []
    {
      drained := [];
      while idle != []
        invariant drained + idle == old(idle)
        decreases |idle|
      {
        drained, idle := drained + [idle[0]], idle[1..];
      }
    }

    /** `put_nowait` for each entry. */
    method Refill(entries: seq<Entry>)
      modifies this`idle
      ensures idle == old(idle) + entries
    {
      for i := 0 to |entries|
        invariant idle == old(idle) + entries[..i]
      {
        idle := idle + [entries[i]];
      }
    }
  }

  /** The youngest entries a pass puts back, and the surplus it destroys whatever its age. */
  function Kept(c: Config, inUse: nat, idle: seq<Entry>): seq<Entry> {
    YoungestFirst(idle)[..Least(KeepTarget(c, inUse), |YoungestFirst(idle)|)]
  }

  function Dead(c: Config, inUse: nat, idle: seq<Entry>): seq<Entry> {
    YoungestFirst(idle)[Least(KeepTarget(c, inUse), |YoungestFirst(idle)|)..]
  }

  /** What a pass leaves of the queue `idle`, and what it destroys, in the order of destruction. */
  function Survivors(c: Config, inUse: nat, idle: seq<Entry>, now: int, ttl: int): seq<Entry> {
    FreshOnes(Kept(c, inUse, idle), now, ttl)
  }

  function Victims(c: Config, inUse: nat, idle: seq<Entry>, now: int, ttl: int): seq<Entry> {
    StaleOnes(Kept(c, inUse, idle), now, ttl) + Dead(c, inUse, idle)
  }

  // ---- What a pass means ------------------------------------------------------------------

  lemma {:induction false} InsertAdds(e: Entry, s: seq<Entry>)
    ensures multiset(Insert(e, s)) == multiset(s) + multiset{e}
  {
    if s == [] || s[0].idleSince <= e.idleSince {
    } else {
      InsertAdds(e, s[1..]);
      assert s == [s[0]] + s[1..];
    }
  }

  /** The entries of one age, in their order. */
  function OfAge(s: seq<Entry>, since: int): seq<Entry> {
    if s == [] then [] else (if s[0].idleSince == since then [s[0]] else []) + OfAge(s[1..], since)
  }

  lemma {:induction false} InsertKeepsTies(e: Entry, s: seq<Entry>, since: int)
    ensures OfAge(Insert(e, s), since) == OfAge([e] + s, since)
  {
    assert ([e] + s)[1..] == s;
    if s == [] || s[0].idleSince <= e.idleSince {
    } else {
      InsertKeepsTies(e, s[1..], since);
      assert ([e] + s[1..])[1..] == s[1..];
    }
  }

  /** The sort is stable: entries of one age stay in queue order. */
  lemma {:induction false} YoungestFirstIsStable(s: seq<Entry>, since: int)
    ensures OfAge(YoungestFirst(s), since) == OfAge(s, since)
  {
    if s == [] {
    } else {
      YoungestFirstIsStable(s[1..], since);
      InsertKeepsTies(s[0], YoungestFirst(s[1..]), since);
      assert ([s[0]] + YoungestFirst(s[1..]))[1..] == YoungestFirst(s[1..]);
    }
  }

  lemma {:induction false} InsertSorted(e: Entry, s: seq<Entry>)
    requires SortedYoungest(s)
    ensures SortedYoungest(Insert(e, s))
  {
    if s == [] || s[0].idleSince <= e.idleSince {
    } else {
      InsertSorted(e, s[1..]);
      var r := Insert(e, s[1..]);
      InsertAdds(e, s[1..]);
      forall i | 0 <= i < |r|
        ensures r[i].idleSince <= s[0].idleSince
      {
        assert r[i] in multiset(r);
      }
    }
  }

  lemma HeadAndTail<T>(s: seq<T>)
    requires s != []
    ensures multiset(s) == multiset(s[1..]) + multiset{s[0]}
  {
    assert s == [s[0]] + s[1..];
  }

  lemma {:induction false} YoungestFirstSorts(s: seq<Entry>)
    ensures var r := YoungestFirst(s);
      && multiset(r) == multiset(s)
      && SortedYoungest(r)
  {
    if s == [] {
    } else {
      var rest := YoungestFirst(s[1..]);
      YoungestFirstSorts(s[1..]);
      InsertSorted(s[0], rest);
      InsertAdds(s[0], rest);
      HeadAndTail(s);
    }
  }

  lemma {:induction false} NoneFresh(s: seq<Entry>, now: int, ttl: int)
    requires forall i :: 0 <= i < |s| ==> !Fresh(s[i], now, ttl)
    ensures FreshOnes(s, now, ttl) == [] && StaleOnes(s, now, ttl) == s
  {
    if s == [] {
    } else {
      NoneFresh(s[1..], now, ttl);
    }
  }

  ghost predicate SortedYoungest(s: seq<Entry>) {
    forall i, j :: 0 <= i < j < |s| ==> s[i].idleSince >= s[j].idleSince
  }

  /** Within a sequence sorted youngest first, the fresh entries come before the stale ones. */
  lemma FreshIsPrefix(s: seq<Entry>, now: int, ttl: int)
    requires SortedYoungest(s)
    ensures FreshOnes(s, now, ttl) + StaleOnes(s, now, ttl) == s && |FreshOnes(s, now, ttl)| <= |s|
    ensures forall e :: e in FreshOnes(s, now, ttl) ==> Fresh(e, now, ttl)
    ensures forall e :: e in StaleOnes(s, now, ttl) ==> !Fresh(e, now, ttl)
  {
    FreshThenStale(s, now, ttl);
    FilterMembers(s, now, ttl);
    assert |FreshOnes(s, now, ttl) + StaleOnes(s, now, ttl)| == |s|;
  }

  lemma {:induction false} FreshThenStale(s: seq<Entry>, now: int, ttl: int)
    requires SortedYoungest(s)
    ensures FreshOnes(s, now, ttl) + StaleOnes(s, now, ttl) == s
  {
    if s == [] {
    } else if Fresh(s[0], now, ttl) {
      FreshThenStale(s[1..], now, ttl);
      assert s == [s[0]] + s[1..];
      FreshHead(s[0], s[1..], now, ttl);
      Regroup([s[0]], FreshOnes(s[1..], now, ttl), StaleOnes(s[1..], now, ttl));
    } else {
      NoneFresh(s, now, ttl);
    }
  }

  lemma {:induction false} FilterMembers(s: seq<Entry>, now: int, ttl: int)
    ensures forall e :: e in FreshOnes(s, now, ttl) ==> Fresh(e, now, ttl)
    ensures forall e :: e in StaleOnes(s, now, ttl) ==> !Fresh(e, now, ttl)
  {
    if s == [] {
    } else {
      FilterMembers(s[1..], now, ttl);
    }
  }

  lemma FreshHead(e: Entry, rest: seq<Entry>, now: int, ttl: int)
    requires Fresh(e, now, ttl)
    ensures FreshOnes([e] + rest, now, ttl) == [e] + FreshOnes(rest, now, ttl)
    ensures StaleOnes([e] + rest, now, ttl) == StaleOnes(rest, now, ttl)
  {
    FilterCons(e, rest, now, ttl);
  }

  lemma KeptAndDead(c: Config, inUse: nat, idle: seq<Entry>)
    ensures Kept(c, inUse, idle) + Dead(c, inUse, idle) == YoungestFirst(idle)
    ensures |Kept(c, inUse, idle)| <= KeepTarget(c, inUse)
    ensures SortedYoungest(Kept(c, inUse, idle))
  {
    YoungestFirstSorts(idle);
  }

  /** Survivors are the front of the sorted queue, victims the rest. */
  lemma ReapCutsTheOrder(c: Config, inUse: nat, idle: seq<Entry>, now: int, ttl: int)
    ensures var stay, gone := Survivors(c, inUse, idle, now, ttl), Victims(c, inUse, idle, now, ttl);
      && stay + gone == YoungestFirst(idle)
      && |stay| <= KeepTarget(c, inUse)
      && forall e :: e in stay ==> Fresh(e, now, ttl)
  {
    var kept, dead := Kept(c, inUse, idle), Dead(c, inUse, idle);
    KeptAndDead(c, inUse, idle);
    FreshIsPrefix(kept, now, ttl);
    Regroup(FreshOnes(kept, now, ttl), StaleOnes(kept, now, ttl), dead);
  }

  /** Fewer survivors than the target: a kept entry, or none at all, is older than its TTL, so all victims are. */
  lemma FewSurvivorsAllStale(c: Config, inUse: nat, idle: seq<Entry>, now: int, ttl: int, j: nat)
    requires |Survivors(c, inUse, idle, now, ttl)| < KeepTarget(c, inUse)
    requires j < |Victims(c, inUse, idle, now, ttl)|
    ensures !Fresh(Victims(c, inUse, idle, now, ttl)[j], now, ttl)
  {
    var stay, gone := Survivors(c, inUse, idle, now, ttl), Victims(c, inUse, idle, now, ttl);
    var kept := Kept(c, inUse, idle);
    var stale := StaleOnes(kept, now, ttl);
    YoungestFirstSorts(idle);
    FreshIsPrefix(kept, now, ttl);
    ReapCutsTheOrder(c, inUse, idle, now, ttl);
    if j < |stale| {
      assert gone[j] == stale[j] && stale[j] in stale;
    } else {
      assert |stay| + |stale| == |kept| && stale[0] in stale && gone[0] == stale[0];
      assert (stay + gone)[|stay|] == gone[0] && (stay + gone)[|stay| + j] == gone[j];
    }
  }

  /**
   * A pass destroys every queued entry it does not keep, each once, and keeps exactly the youngest
   * `max(min_idle - in_use, 0)` entries that are within their TTL: no kept entry is older than a
   * destroyed one, and if fewer were kept then everything destroyed had aged out.
   */
  lemma ReapKeepsTheYoungest(c: Config, inUse: nat, idle: seq<Entry>, now: int, ttl: int)
    ensures var stay, gone := Survivors(c, inUse, idle, now, ttl), Victims(c, inUse, idle, now, ttl);
      && multiset(stay) + multiset(gone) == multiset(idle)
      && |stay| <= (if c.minIdle > inUse then c.minIdle - inUse else 0)
      && (forall e :: e in stay ==> now - e.idleSince <= ttl)
      && (forall x, y :: x in stay && y in gone ==> x.idleSince >= y.idleSince)
      && (|stay| < c.minIdle - inUse ==> forall e :: e in gone ==> now - e.idleSince > ttl)
  {
    var stay, gone := Survivors(c, inUse, idle, now, ttl), Victims(c, inUse, idle, now, ttl);
    YoungestFirstSorts(idle);
    ReapCutsTheOrder(c, inUse, idle, now, ttl);
    assert multiset(stay + gone) == multiset(stay) + multiset(gone);
    forall x, y | x in stay && y in gone
      ensures x.idleSince >= y.idleSince
    {
      var i :| 0 <= i < |stay| && stay[i] == x;
      var j :| 0 <= j < |gone| && gone[j] == y;
      assert (stay + gone)[i] == x && (stay + gone)[|stay| + j] == y;
    }
    if |stay| < KeepTarget(c, inUse) {
      forall j | 0 <= j < |gone|
        ensures !Fresh(gone[j], now, ttl)
      {
        FewSurvivorsAllStale(c, inUse, idle, now, ttl, j);
      }
    }
  }

  /** If every creation succeeds, a pass ends with `total == max(min_idle, in_use)`. */
  lemma ReapRestoresMinIdle(c: Config, inUse: nat, idle: seq<Entry>, now: int, ttl: int, script: seq<Option<EnvId>>)
    requires |script| >= c.minIdle && forall i :: 0 <= i < |script| ==> script[i].Some?
    ensures var stay := Survivors(c, inUse, idle, now, ttl);
      |stay + Warmed(script, Shortfall(c, |stay| + inUse), now)| + inUse ==
        if c.minIdle > inUse then c.minIdle else inUse
  {
    ReapKeepsTheYoungest(c, inUse, idle, now, ttl);
  }

  lemma {:induction false} EnvsLength(s: seq<Entry>)
    ensures |Envs(s)| == |s|
  {
    if s == [] {
    } else {
      EnvsLength(s[1..]);
    }
  }

  /** `rest` is `s` without one occurrence of `e`. */
  ghost predicate OneLess(s: seq<Entry>, e: Entry, rest: seq<Entry>) {
    && multiset(s) == multiset(rest) + multiset{e}
    && multiset(Envs(s)) == multiset(Envs(rest)) + multiset{e.env}
  }

  lemma RemoveAt(s: seq<Entry>, i: nat) returns (rest: seq<Entry>)
    requires i < |s|
    ensures |rest| == |s| - 1 && OneLess(s, s[i], rest)
  {
    rest := s[..i] + s[i + 1..];
    assert s == s[..i] + ([s[i]] + s[i + 1..]);
    EnvsAppend(s[..i], [s[i]] + s[i + 1..]);
    EnvsAppend([s[i]], s[i + 1..]);
    EnvsAppend(s[..i], s[i + 1..]);
    assert Envs([s[i]]) == [s[i].env];
  }

  lemma {:induction false} EnvsPermute(a: seq<Entry>, b: seq<Entry>)
    requires multiset(a) == multiset(b)
    ensures multiset(Envs(a)) == multiset(Envs(b))
    decreases |a|
  {
    if a == [] {
      assert |multiset(a)| == |multiset(b)|;
      assert b == [];
    } else {
      var i := Position(b, a[0], a);
      var a' := RemoveAt(a, 0);
      var b' := RemoveAt(b, i);
      SameRest(multiset(a), multiset(a'), multiset(b'), a[0]);
      EnvsPermute(a', b');
    }
  }

  lemma Position(b: seq<Entry>, e: Entry, a: seq<Entry>) returns (i: nat)
    requires e in a && multiset(a) == multiset(b)
    ensures i < |b| && b[i] == e
  {
    assert e in multiset(b);
    i :| 0 <= i < |b| && b[i] == e;
  }

  lemma SameRest<T>(all: multiset<T>, x: multiset<T>, y: multiset<T>, e: T)
    requires all == x + multiset{e} && all == y + multiset{e}
    ensures x == y
  {
    assert x == all - multiset{e} && y == all - multiset{e};
  }
}
