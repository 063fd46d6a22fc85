/** The in-process event bus: bounded queues, one per subscriber, that drop and count what does not fit. */
module EventBus {
  import opened Prelude
  import X = ExecutionProtocol

  // ---- One subscriber as a value ----------------------------------------------------------

  /** A subscription: what is queued and lost, and the history that explains it. */
  datatype Sub<E> = Sub(queue: seq<E>, lost: nat, offered: seq<E>, delivered: seq<E>)

  /** One matching or non-matching event is published.  A queue of capacity 0 is unbounded. */
  function Offer<E>(s: Sub<E>, capacity: nat, filter: E -> bool, e: E): Sub<E> {
    if !filter(e) then s
    else if capacity == 0 || |s.queue| < capacity then s.(queue := s.queue + [e], offered := s.offered + [e])
    else s.(lost := s.lost + 1, offered := s.offered + [e])
  }

  /** The subscriber takes the next event. */
  function Take<E>(s: Sub<E>): Sub<E>
    requires s.queue != []
  {
    s.(queue := s.queue[1..], delivered := s.delivered + [s.queue[0]])
  }

  /** `a` is `b` with some elements left out. */
  predicate Subsequence<E(==)>(a: seq<E>, b: seq<E>)
    decreases |b|
  {
    if a == [] then true
    else if b == [] then false
    else
      || (a[|a| - 1] == b[|b| - 1] && Subsequence(a[..|a| - 1], b[..|b| - 1]))
      || Subsequence(a, b[..|b| - 1])
  }

  /** Nothing is unaccounted for, nothing is out of order, and without losses nothing is missing. */
  ghost predicate Honest<E>(s: Sub<E>, capacity: nat) {
    && (capacity > 0 ==> |s.queue| <= capacity)
    && |s.delivered| + |s.queue| + s.lost == |s.offered|
    && Subsequence(s.delivered + s.queue, s.offered)
    && (s.lost == 0 ==> s.delivered + s.queue == s.offered)
  }

  lemma SubsequenceGrows<E>(a: seq<E>, b: seq<E>, e: E)
    requires Subsequence(a, b)
    ensures Subsequence(a + [e], b + [e]) && Subsequence(a, b + [e])
  {
    assert (a + [e])[..|a|] == a && (b + [e])[..|b|] == b;
  }

  lemma OfferHonest<E>(s: Sub<E>, capacity: nat, filter: E -> bool, e: E)
    requires Honest(s, capacity)
    ensures Honest(Offer(s, capacity, filter, e), capacity)
  {
    if filter(e) {
      QueuedHonest(s, e);
      LostHonest(s, e);
    }
  }

  lemma QueuedHonest<E>(s: Sub<E>, e: E)
    requires Subsequence(s.delivered + s.queue, s.offered)
    ensures Subsequence(s.delivered + (s.queue + [e]), s.offered + [e])
    ensures s.delivered + s.queue == s.offered ==> s.delivered + (s.queue + [e]) == s.offered + [e]
  {
    SubsequenceGrows(s.delivered + s.queue, s.offered, e);
    Regroup(s.delivered, s.queue, [e]);
  }

  lemma LostHonest<E>(s: Sub<E>, e: E)
    requires Subsequence(s.delivered + s.queue, s.offered)
    ensures Subsequence(s.delivered + s.queue, s.offered + [e])
  {
    SubsequenceGrows(s.delivered + s.queue, s.offered, e);
  }

  lemma TakeHonest<E>(s: Sub<E>, capacity: nat)
    requires Honest(s, capacity) && s.queue != []
    ensures Honest(Take(s), capacity)
  {
    Regroup(s.delivered, [s.queue[0]], s.queue[1..]);
    assert [s.queue[0]] + s.queue[1..] == s.queue;
  }

  datatype Op<E> = Publish(e: E) | Get

  function Filtered<E>(events: seq<E>, filter: E -> bool): seq<E> {
    if events == [] then []
    else
      var e := events[|events| - 1];
      Filtered(events[..|events| - 1], filter) + if filter(e) then [e] else []
  }

  function Published<E>(ops: seq<Op<E>>): seq<E> {
    if ops == [] then []
    else
      var op := ops[|ops| - 1];
      Published(ops[..|ops| - 1]) + if op.Publish? then [op.e] else []
  }

  /** The subscription after `ops`; a `Get` on an empty queue just waits. */
  function Run<E>(capacity: nat, filter: E -> bool, ops: seq<Op<E>>): Sub<E> {
    if ops == [] then Sub([], 0, [], [])
    else
      var s := Run(capacity, filter, ops[..|ops| - 1]);
      match ops[|ops| - 1]
      case Publish(e) => Offer(s, capacity, filter, e)
      case Get => if s.queue == [] then s else Take(s)
  }

  /**
   * However publishing and taking interleave: delivered plus queued plus lost is what was
   * published and matched since the subscription, and what was delivered and is queued is that
   * in order, with nothing missing if nothing was lost.
   */
  lemma {:induction false} EveryEventIsAccountedFor<E>(capacity: nat, filter: E -> bool, ops: seq<Op<E>>)
    ensures var s := Run(capacity, filter, ops);
      Honest(s, capacity) && s.offered == Filtered(Published(ops), filter)
  {
    if ops == [] {
    } else {
      var before, op := ops[..|ops| - 1], ops[|ops| - 1];
      EveryEventIsAccountedFor(capacity, filter, before);
      var s := Run(capacity, filter, before);
      match op
      case Publish(e) =>
        OfferHonest(s, capacity, filter, e);
        assert Published(ops) == Published(before) + [e];
        assert (Published(before) + [e])[..|Published(before)|] == Published(before);
      case Get =>
        if s.queue != [] { TakeHonest(s, capacity); }
        assert Published(ops) == Published(before);
    }
  }

  /** What the subscriber has got, and what it will get if nothing more is published. */
  function View<E>(s: Sub<E>): seq<E> { s.delivered + s.queue }

  /** One more publication or delivery never takes back what is in the view. */
  lemma StepKeepsView<E>(capacity: nat, filter: E -> bool, ops: seq<Op<E>>, op: Op<E>)
    ensures View(Run(capacity, filter, ops)) <= View(Run(capacity, filter, ops + [op]))
  {
    var s := Run(capacity, filter, ops);
    assert (ops + [op])[..|ops|] == ops;
    if op.Publish? {
      Regroup(s.delivered, s.queue, [op.e]);
    } else if s.queue != [] {
      Regroup(s.delivered, [s.queue[0]], s.queue[1..]);
      assert [s.queue[0]] + s.queue[1..] == s.queue;
    }
  }

  /** Once queued, an event leaves the queue only by delivery, and in its turn. */
  lemma {:induction false} QueuedIsDelivered<E>(capacity: nat, filter: E -> bool, ops: seq<Op<E>>, more: seq<Op<E>>)
    ensures View(Run(capacity, filter, ops)) <= View(Run(capacity, filter, ops + more))
    ensures Run(capacity, filter, ops).delivered <= Run(capacity, filter, ops + more).delivered
  {
    if more == [] {
      assert ops + more == ops;
    } else {
      var before, op := more[..|more| - 1], more[|more| - 1];
      QueuedIsDelivered(capacity, filter, ops, before);
      assert ops + more == ops + before + [op];
      StepKeepsView(capacity, filter, ops + before, op);
      assert (ops + before + [op])[..|ops + before|] == ops + before;
    }
  }

  /**
   * A publication is lost exactly if it matches and finds a bounded queue full; else it is last in
   * the view if it matches, and changes nothing if not.
   */
  lemma LostExactlyIfFull<E>(capacity: nat, filter: E -> bool, ops: seq<Op<E>>, e: E)
    ensures var s, t := Run(capacity, filter, ops), Run(capacity, filter, ops + [Publish(e)]);
      && t.delivered == s.delivered
      && t.lost == s.lost + (if filter(e) && capacity > 0 && |s.queue| == capacity then 1 else 0)
      && View(t) == View(s) + (if filter(e) && !(capacity > 0 && |s.queue| == capacity) then [e] else [])
  {
    var s := Run(capacity, filter, ops);
    assert (ops + [Publish(e)])[..|ops|] == ops;
    EveryEventIsAccountedFor(capacity, filter, ops);
    Regroup(s.delivered, s.queue, [e]);
  }

  /** Taking delivers the oldest queued event, if there is one, and loses nothing. */
  lemma TakenIsOldest<E>(capacity: nat, filter: E -> bool, ops: seq<Op<E>>)
    ensures var s, t := Run(capacity, filter, ops), Run(capacity, filter, ops + [Get]);
      && t.lost == s.lost && View(t) == View(s)
      && t.delivered == s.delivered + (if s.queue == [] then [] else [s.queue[0]])
  {
    var s := Run(capacity, filter, ops);
    assert (ops + [Get])[..|ops|] == ops;
    if s.queue != [] {
      Regroup(s.delivered, [s.queue[0]], s.queue[1..]);
      assert [s.queue[0]] + s.queue[1..] == s.queue;
    }
  }

  // ---- The bus ----------------------------------------------------------------------------

  class Subscription<E> {
    const capacity: nat
    const filter: E -> bool
    var queue: seq<E>
    var lost: nat
    ghost var offered: seq<E>
    ghost var delivered: seq<E>

    constructor (capacity: nat, filter: E -> bool)
      ensures this.capacity == capacity && this.filter == filter && Value() == Sub([], 0, [], [])
    {
      this.capacity, this.filter := capacity, filter;
      queue, lost, offered, delivered := [], 0, [], [];
    }

    ghost function Value(): Sub<E>
      reads this
    {
      Sub(queue, lost, offered, delivered)
    }

    /** `queue.get()` once something is there. */
    method Next() returns (e: E)
      requires queue != []
      modifies this
      ensures e == old(queue)[0] && Value() == Take(old(Value()))
    {
      e := queue[0];
      queue := queue[1..];
      delivered := delivered + [e];
    }

    /** `put_nowait`, or one more loss if the queue is full. */
    method Accept(e: E)
      modifies this
      ensures Value() == Offer(old(Value()), capacity, filter, e)
    {
      if !filter(e) { return; }
      offered := offered + [e];
      if capacity == 0 || |queue| < capacity {
        queue := queue + [e];
      } else {
        lost := lost + 1;
      }
    }
  }

  class Bus<E> {
    const queueSize: nat
    var subs: seq<Subscription<E>>

    constructor (queueSize: nat)
      ensures this.queueSize == queueSize && subs == []
    {
      this.queueSize, subs := queueSize, [];
    }

    /**
     * Every current subscriber is offered the event, each exactly once: it goes to the end of the
     * queue if it matches and fits, is counted as lost if it matches and does not fit.
     */
    method Publish(e: E)
      requires NoDup(subs)
      modifies subs
      ensures forall i :: 0 <= i < |subs| ==>
                var sub := subs[i];
                var full := sub.capacity > 0 && |old(sub.queue)| >= sub.capacity;
                && sub.queue == (if sub.filter(e) && !full then old(sub.queue) + [e] else old(sub.queue))
                && sub.lost == (if sub.filter(e) && full then old(sub.lost) + 1 else old(sub.lost))
      ensures forall i :: 0 <= i < |subs| ==>
                subs[i].Value() == Offer(old(subs[i].Value()), subs[i].capacity, subs[i].filter, e)
    {
      for i := 0 to |subs|
        invariant forall j :: 0 <= j < i ==>
                    subs[j].Value() == Offer(old(subs[j].Value()), subs[j].capacity, subs[j].filter, e)
        invariant forall j :: i <= j < |subs| ==> subs[j].Value() == old(subs[j].Value())
      {
        subs[i].Accept(e);
      }
    }

    method Subscribe(filter: E -> bool) returns (sub: Subscription<E>)
      requires NoDup(subs)
      modifies this
      ensures fresh(sub) && sub.capacity == queueSize && sub.filter == filter && sub.Value() == Sub([], 0, [], [])
      ensures subs == old(subs) + [sub]
      ensures (forall s :: s in old(subs) ==> s != sub) && NoDup(subs)
    {
      sub := new Subscription(queueSize, filter);
      subs := subs + [sub];
    }

    /** `_subs.remove(sub)`; the others stay, in order. */
    method Unsubscribe(sub: Subscription<E>)
      requires NoDup(subs) && sub in subs
      modifies this
      ensures exists i :: 0 <= i < |old(subs)| && old(subs)[i] == sub && subs == old(subs)[..i] + old(subs)[i + 1..]
      ensures sub !in subs && NoDup(subs)
    {
      var i := 0;
      while subs[i] != sub
        invariant i < |subs| && sub in subs[i..]
        decreases |subs| - i
      {
        assert subs[i..] == [subs[i]] + subs[i + 1..];
        i := i + 1;
      }
      subs := subs[..i] + subs[i + 1..];
    }
  }

  // ---- What a lossless subscriber sees of an execution ------------------------------------

  lemma {:induction false} ToldFiltered(events: seq<X.Event>, filter: X.Event -> bool, ex: X.ExId)
    requires forall k :: filter(X.Event(k, ex))
    ensures X.Told(Filtered(events, filter), ex) == X.Told(events, ex)
  {
    if events == [] {
    } else {
      var before, e := events[..|events| - 1], events[|events| - 1];
      ToldFiltered(before, filter, ex);
      if filter(e) {
        X.ToldNext(Filtered(before, filter), e, ex);
      } else {
        assert Filtered(events, filter) == Filtered(before, filter);
        assert e.ex == ex ==> e == X.Event(e.kind, ex);
      }
    }
  }

  lemma {:induction false} ToldConcat(a: seq<X.Event>, b: seq<X.Event>, ex: X.ExId)
    ensures X.Told(a + b, ex) == X.Told(a, ex) + X.Told(b, ex)
  {
    if b == [] {
      assert a + b == a;
    } else {
      ToldConcat(a, b[..|b| - 1], ex);
      assert (a + b)[..|a + b| - 1] == a + b[..|b| - 1];
    }
  }

  /**
   * A subscriber that was there before an execution was queued (from event `k` on), whose filter
   * lets its events through and who lost nothing, sees a completed execution as queued, started,
   * finished: once each and in that order.
   */
  lemma LosslessSubscriberSeesTheStory(
    s: X.State, k: nat, sub: Sub<X.Event>, capacity: nat, filter: X.Event -> bool, ex: X.ExId)
    requires X.Reachable(s) && ex in s.rows && X.Terminal(s.rows[ex].status)
    requires k <= |s.events| && X.Told(s.events[..k], ex) == []
    requires forall kind :: filter(X.Event(kind, ex))
    requires Honest(sub, capacity) && sub.lost == 0 && sub.offered == Filtered(s.events[k..], filter)
    ensures X.Told(sub.delivered + sub.queue, ex) == [X.EvQueued, X.EvStarted, X.EvFinished]
  {
    X.EventsTellTheStory(s, ex);
    ToldConcat(s.events[..k], s.events[k..], ex);
    assert s.events[..k] + s.events[k..] == s.events;
    ToldFiltered(s.events[k..], filter, ex);
  }
}
