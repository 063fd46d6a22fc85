/**
 * One `exec` call alone: what it does to the table, the events and the driver when nobody interferes, for each way in
 * which its steps may end.  Everything that is not said to change is as it was before the call; in that these laws
 * are complete.
 */
module ExecutionAlone {
  import opened Prelude
  import opened ExecutionProtocol

  ghost predicate OwnRun(s: State, c: CallId, acts: seq<CallStep>)
    decreases |acts|
  {
    acts == [] || (CanExec(s, c, acts[0]) && OwnRun(DoExec(s, c, acts[0]), c, acts[1..]))
  }

  ghost function End(s: State, c: CallId, acts: seq<CallStep>): State
    requires OwnRun(s, c, acts)
    decreases |acts|
  {
    if acts == [] then s else End(DoExec(s, c, acts[0]), c, acts[1..])
  }

  /** The steps `acts` of call `c`, one after the other, lead from `s` to `s'`. */
  ghost predicate Goes(s: State, c: CallId, acts: seq<CallStep>, s': State) {
    OwnRun(s, c, acts) && End(s, c, acts) == s'
  }

  lemma OneStep(s: State, c: CallId, a: CallStep)
    requires CanExec(s, c, a)
    ensures Goes(s, c, [a], DoExec(s, c, a))
  {
    var none: seq<CallStep> := [];
    assert [a][1..] == none && OwnRun(DoExec(s, c, a), c, none);
  }

  lemma {:induction false} AndThen(s: State, c: CallId, first: seq<CallStep>, s1: State, more: seq<CallStep>, s2: State)
    requires Goes(s, c, first, s1) && Goes(s1, c, more, s2)
    ensures Goes(s, c, first + more, s2)
    decreases |first|
  {
    if first == [] {
      assert first + more == more;
    } else {
      AndThen(DoExec(s, c, first[0]), c, first[1..], s1, more, s2);
      assert (first + more)[0] == first[0] && (first + more)[1..] == first[1..] + more;
    }
  }

  // ---- Getting in -------------------------------------------------------------------------

  /** Whether the request has a key to look up: one that is given and not empty. */
  predicate Keyed(key: Option<string>) { key != None && key != Some("") }

  /** The call has asked and found nothing. */
  function Entry(ws: WsId, key: Option<string>): seq<CallStep> {
    if Keyed(key) then [Enter(ws, key), Lookup(None)] else [Enter(ws, key)]
  }

  function At(s: State, c: CallId, ws: WsId, key: Option<string>, pc: Pc): State {
    s.(calls := s.calls[c := Call(ws, key, pc)])
  }

  lemma UnknownWorkspace(s: State, c: CallId, ws: WsId, key: Option<string>)
    requires c !in s.calls && ws !in s.workspaces
    ensures Goes(s, c, [Enter(ws, key)], At(s, c, ws, key, Raised))
  {
    OneStep(s, c, Enter(ws, key));
  }

  lemma NothingFound(s: State, c: CallId, ws: WsId, key: Option<string>)
    requires c !in s.calls && ws in s.workspaces && (key.Some? ==> forall x :: !Matches(s, x, ws, key))
    ensures Goes(s, c, Entry(ws, key), At(s, c, ws, key, Inserting))
  {
    OneStep(s, c, Enter(ws, key));
    if Keyed(key) {
      var s1 := At(s, c, ws, key, Looking);
      assert forall x :: Matches(s1, x, ws, key) == Matches(s, x, ws, key);
      OneStep(s1, c, Lookup(None));
      AndThen(s, c, [Enter(ws, key)], s1, [Lookup(None)], At(s, c, ws, key, Inserting));
      assert [Enter(ws, key)] + [Lookup(None)] == Entry(ws, key);
    }
  }

  /** A finished row is the answer; nothing is inserted, published or run. */
  lemma FinishedFound(s: State, c: CallId, ws: WsId, key: string, ex: ExId, code: int)
    requires c !in s.calls && ws in s.workspaces && key != "" && FinishedRow(s, ex, ws, key, code)
    ensures Goes(s, c, [Enter(ws, Some(key)), Lookup(Some(ex))], At(s, c, ws, Some(key), Returned(ex, code)))
  {
    var s1 := At(s, c, ws, Some(key), Looking);
    OneStep(s, c, Enter(ws, Some(key)));
    OneStep(s1, c, Lookup(Some(ex)));
    AndThen(s, c, [Enter(ws, Some(key))], s1, [Lookup(Some(ex))], At(s, c, ws, Some(key), Returned(ex, code)));
    assert [Enter(ws, Some(key))] + [Lookup(Some(ex))] == [Enter(ws, Some(key)), Lookup(Some(ex))];
  }

  /** An unfinished one is not, and its key is taken: the call raises and changes nothing. */
  lemma UnfinishedFound(s: State, c: CallId, ws: WsId, key: string, ex: ExId)
    requires c !in s.calls && ws in s.workspaces && key != "" && Matches(s, ex, ws, Some(key))
    requires s.rows[ex].status == StQueued || s.rows[ex].status == StRunning
    ensures Goes(s, c, [Enter(ws, Some(key)), Lookup(Some(ex)), InsertFail], At(s, c, ws, Some(key), Raised))
    ensures forall x :: !CanExec(At(s, c, ws, Some(key), Inserting), c, Insert(x))
  {
    var k := Some(key);
    var s1, s2 := At(s, c, ws, k, Looking), At(s, c, ws, k, Inserting);
    OneStep(s, c, Enter(ws, k));
    OneStep(s1, c, Lookup(Some(ex)));
    OneStep(s2, c, InsertFail);
    AndThen(s1, c, [Lookup(Some(ex))], s2, [InsertFail], At(s, c, ws, k, Raised));
    AndThen(s, c, [Enter(ws, k)], s1, [Lookup(Some(ex))] + [InsertFail], At(s, c, ws, k, Raised));
    assert [Enter(ws, k)] + ([Lookup(Some(ex))] + [InsertFail]) == [Enter(ws, k), Lookup(Some(ex)), InsertFail];
    assert Matches(s2, ex, ws, k);
  }

  // ---- Running ----------------------------------------------------------------------------

  datatype Request = Request(c: CallId, ws: WsId, key: Option<string>, ex: ExId)

  /** The call stands at `pc`; its row, its events and its run are as given, all else is as in `s`. */
  function Stage(s: State, q: Request, pc: Pc, status: Status, code: Option<int>, kinds: seq<Event>, ran: bool): State {
    At(s, q.c, q.ws, q.key, pc).(
      rows := s.rows[q.ex := Row(q.ws, q.key, status, code)], issued := s.issued[q.ex := Issue(q.ws, q.key)],
      events := s.events + kinds, runs := if ran then s.runs + [q.ex] else s.runs)
  }

  function Queue(q: Request): seq<Event> { [Event(EvQueued, q.ex)] }

  function Begun(q: Request): seq<Event> { [Event(EvQueued, q.ex), Event(EvStarted, q.ex)] }

  function Over(q: Request): seq<Event> { [Event(EvQueued, q.ex), Event(EvStarted, q.ex), Event(EvFinished, q.ex)] }

  /** The way in is free and the id is new. */
  ghost predicate Free(s: State, q: Request) {
    && q.c !in s.calls && q.ws in s.workspaces && q.ex !in s.issued
    && (q.key.Some? ==> forall x :: !Matches(s, x, q.ws, q.key))
  }

  lemma GetsQueued(s: State, q: Request)
    requires Free(s, q)
    ensures Goes(s, q.c, Entry(q.ws, q.key) + [Insert(q.ex)],
      Stage(s, q, Queued(q.ex), StQueued, None, Queue(q), false))
  {
    var s1 := At(s, q.c, q.ws, q.key, Inserting);
    NothingFound(s, q.c, q.ws, q.key);
    assert forall x :: Matches(s1, x, q.ws, q.key) == Matches(s, x, q.ws, q.key);
    OneStep(s1, q.c, Insert(q.ex));
    var s2 := Stage(s, q, Queued(q.ex), StQueued, None, Queue(q), false);
    assert s1.calls[q.c := Call(q.ws, q.key, Queued(q.ex))] == s2.calls;
    AndThen(s, q.c, Entry(q.ws, q.key), s1, [Insert(q.ex)], s2);
  }

  lemma SameCalls(s: State, q: Request, x: Pc, y: Pc)
    ensures At(At(s, q.c, q.ws, q.key, x), q.c, q.ws, q.key, y) == At(s, q.c, q.ws, q.key, y)
  {
    assert s.calls[q.c := Call(q.ws, q.key, x)][q.c := Call(q.ws, q.key, y)] == s.calls[q.c := Call(q.ws, q.key, y)];
  }

  lemma SameRows(s: State, q: Request, x: Row, y: Row)
    ensures s.rows[q.ex := x][q.ex := y] == s.rows[q.ex := y]
  {
  }

  /** The row is marked as running, or is not and the call raises. */
  lemma GetsMarked(s: State, q: Request, ok: bool)
    ensures Goes(Stage(s, q, Queued(q.ex), StQueued, None, Queue(q), false), q.c, [MarkRunning(ok)],
      if ok then Stage(s, q, Running(q.ex), StRunning, None, Begun(q), false)
      else Stage(s, q, Raised, StQueued, None, Queue(q), false))
  {
    var s1 := Stage(s, q, Queued(q.ex), StQueued, None, Queue(q), false);
    SameCalls(s, q, Queued(q.ex), if ok then Running(q.ex) else Raised);
    SameRows(s, q, Row(q.ws, q.key, StQueued, None), Row(q.ws, q.key, StRunning, None));
    OneStep(s1, q.c, MarkRunning(ok));
    assert s.events + Queue(q) + [Event(EvStarted, q.ex)] == s.events + Begun(q);
  }

  /** From a marked row on: the command is run, or something raises before. */
  lemma GetsRun(s: State, q: Request, a: CallStep)
    requires a == StartDriver || a == SessionFail || a == Abort
    ensures Goes(Stage(s, q, Running(q.ex), StRunning, None, Begun(q), false), q.c, [a],
      Stage(s, q, if a == StartDriver then Executing(q.ex) else if a == SessionFail then Failing(q.ex) else Raised,
        StRunning, None, Begun(q), a == StartDriver))
  {
    var s1 := Stage(s, q, Running(q.ex), StRunning, None, Begun(q), false);
    SameCalls(s, q, Running(q.ex),
      if a == StartDriver then Executing(q.ex) else if a == SessionFail then Failing(q.ex) else Raised);
    OneStep(s1, q.c, a);
  }

  /** The driver's exit code is what the call goes on with; or the driver raises. */
  lemma GetsAnswer(s: State, q: Request, answer: Option<int>)
    ensures Goes(Stage(s, q, Executing(q.ex), StRunning, None, Begun(q), true), q.c,
      [if answer.Some? then DriverOk(answer.value) else DriverFail],
      Stage(s, q, if answer.Some? then Finishing(q.ex, answer.value) else Failing(q.ex),
        StRunning, None, Begun(q), true))
  {
    var s1 := Stage(s, q, Executing(q.ex), StRunning, None, Begun(q), true);
    SameCalls(s, q, Executing(q.ex), if answer.Some? then Finishing(q.ex, answer.value) else Failing(q.ex));
    OneStep(s1, q.c, if answer.Some? then DriverOk(answer.value) else DriverFail);
  }

  /** The status a row gets for an exit code. */
  predicate StatusFor(code: int, status: Status) {
    && (status == StSucceeded <==> code == 0) && (status == StTimedOut <==> code == 124)
    && (status == StFailed <==> code != 0 && code != 124)
  }

  /** The last update records the code and lets the call return it; or it fails, or the spill did. */
  lemma GetsFinished(s: State, q: Request, code: int, status: Status, a: CallStep)
    requires a == Finish(true) || a == Finish(false) || a == SpillFail
    requires StatusFor(code, status)
    ensures Goes(Stage(s, q, Finishing(q.ex, code), StRunning, None, Begun(q), true), q.c, [a],
      if a == Finish(true) then Stage(s, q, Returned(q.ex, code), status, Some(code), Over(q), true)
      else Stage(s, q, Raised, StRunning, None, Begun(q), true))
  {
    var s1 := Stage(s, q, Finishing(q.ex, code), StRunning, None, Begun(q), true);
    SameCalls(s, q, Finishing(q.ex, code), if a == Finish(true) then Returned(q.ex, code) else Raised);
    SameRows(s, q, Row(q.ws, q.key, StRunning, None), Row(q.ws, q.key, status, Some(code)));
    OneStep(s1, q.c, a);
    assert s.events + Begun(q) + [Event(EvFinished, q.ex)] == s.events + Over(q);
  }

  /** A failure is recorded without a code, or cannot be; the call raises. */
  lemma GetsFailed(s: State, q: Request, ran: bool, ok: bool)
    ensures Goes(Stage(s, q, Failing(q.ex), StRunning, None, Begun(q), ran), q.c, [RecordFailure(ok)],
      if ok then Stage(s, q, Raised, StFailed, None, Over(q), ran)
      else Stage(s, q, Raised, StRunning, None, Begun(q), ran))
  {
    var s1 := Stage(s, q, Failing(q.ex), StRunning, None, Begun(q), ran);
    SameCalls(s, q, Failing(q.ex), Raised);
    SameRows(s, q, Row(q.ws, q.key, StRunning, None), Row(q.ws, q.key, StFailed, None));
    OneStep(s1, q.c, RecordFailure(ok));
    assert s.events + Begun(q) + [Event(EvFinished, q.ex)] == s.events + Over(q);
  }

  // ---- Whole calls ------------------------------------------------------------------------

  lemma GetsGoing(s: State, q: Request)
    requires Free(s, q)
    ensures Goes(s, q.c, Entry(q.ws, q.key) + [Insert(q.ex)] + [MarkRunning(true)],
      Stage(s, q, Running(q.ex), StRunning, None, Begun(q), false))
  {
    GetsQueued(s, q);
    GetsMarked(s, q, true);
    AndThen(s, q.c, Entry(q.ws, q.key) + [Insert(q.ex)], Stage(s, q, Queued(q.ex), StQueued, None, Queue(q), false),
      [MarkRunning(true)], Stage(s, q, Running(q.ex), StRunning, None, Begun(q), false));
  }

  /**
   * The command runs and the call returns its exit code: one new row with that code and its status,
   * the three events in order, one run of the driver, and nothing else.
   */
  lemma CommandRuns(s: State, q: Request, code: int, status: Status)
    requires Free(s, q) && StatusFor(code, status)
    ensures Goes(s, q.c,
      Entry(q.ws, q.key) + [Insert(q.ex)] + [MarkRunning(true)] + [StartDriver] + [DriverOk(code)] + [Finish(true)],
      Stage(s, q, Returned(q.ex, code), status, Some(code), Over(q), true))
  {
    var start := Entry(q.ws, q.key) + [Insert(q.ex)] + [MarkRunning(true)];
    var s1 := Stage(s, q, Running(q.ex), StRunning, None, Begun(q), false);
    var s2 := Stage(s, q, Executing(q.ex), StRunning, None, Begun(q), true);
    var s3 := Stage(s, q, Finishing(q.ex, code), StRunning, None, Begun(q), true);
    GetsGoing(s, q);
    GetsRun(s, q, StartDriver);
    AndThen(s, q.c, start, s1, [StartDriver], s2);
    GetsAnswer(s, q, Some(code));
    AndThen(s, q.c, start + [StartDriver], s2, [DriverOk(code)], s3);
    GetsFinished(s, q, code, status, Finish(true));
    AndThen(s, q.c, start + [StartDriver] + [DriverOk(code)], s3, [Finish(true)],
      Stage(s, q, Returned(q.ex, code), status, Some(code), Over(q), true));
  }

  /** The driver raises: the row has failed without a code, all three events are published, the call raises. */
  lemma DriverRaises(s: State, q: Request)
    requires Free(s, q)
    ensures Goes(s, q.c,
      Entry(q.ws, q.key) + [Insert(q.ex)] + [MarkRunning(true)] + [StartDriver] + [DriverFail] + [RecordFailure(true)],
      Stage(s, q, Raised, StFailed, None, Over(q), true))
  {
    var start := Entry(q.ws, q.key) + [Insert(q.ex)] + [MarkRunning(true)];
    var s1 := Stage(s, q, Running(q.ex), StRunning, None, Begun(q), false);
    var s2 := Stage(s, q, Executing(q.ex), StRunning, None, Begun(q), true);
    var s3 := Stage(s, q, Failing(q.ex), StRunning, None, Begun(q), true);
    GetsGoing(s, q);
    GetsRun(s, q, StartDriver);
    AndThen(s, q.c, start, s1, [StartDriver], s2);
    GetsAnswer(s, q, None);
    AndThen(s, q.c, start + [StartDriver], s2, [DriverFail], s3);
    GetsFailed(s, q, true, true);
    AndThen(s, q.c, start + [StartDriver] + [DriverFail], s3, [RecordFailure(true)],
      Stage(s, q, Raised, StFailed, None, Over(q), true));
  }

  /** No session is to be had: the same, without a run. */
  lemma SessionRaises(s: State, q: Request)
    requires Free(s, q)
    ensures Goes(s, q.c,
      Entry(q.ws, q.key) + [Insert(q.ex)] + [MarkRunning(true)] + [SessionFail] + [RecordFailure(true)],
      Stage(s, q, Raised, StFailed, None, Over(q), false))
  {
    var start := Entry(q.ws, q.key) + [Insert(q.ex)] + [MarkRunning(true)];
    var s1 := Stage(s, q, Running(q.ex), StRunning, None, Begun(q), false);
    var s2 := Stage(s, q, Failing(q.ex), StRunning, None, Begun(q), false);
    GetsGoing(s, q);
    GetsRun(s, q, SessionFail);
    AndThen(s, q.c, start, s1, [SessionFail], s2);
    GetsFailed(s, q, false, true);
    AndThen(s, q.c, start + [SessionFail], s2, [RecordFailure(true)],
      Stage(s, q, Raised, StFailed, None, Over(q), false));
  }

  /** An empty command is noticed late: the call raises and leaves its row running. */
  lemma EmptyCommandRaises(s: State, q: Request)
    requires Free(s, q)
    ensures Goes(s, q.c, Entry(q.ws, q.key) + [Insert(q.ex)] + [MarkRunning(true)] + [Abort],
      Stage(s, q, Raised, StRunning, None, Begun(q), false))
  {
    GetsGoing(s, q);
    GetsRun(s, q, Abort);
    AndThen(s, q.c, Entry(q.ws, q.key) + [Insert(q.ex)] + [MarkRunning(true)],
      Stage(s, q, Running(q.ex), StRunning, None, Begun(q), false), [Abort],
      Stage(s, q, Raised, StRunning, None, Begun(q), false));
  }
}
