/**
 * Concurrent `ExecutionService.exec` calls: the table they share, the events they publish, and the runs of
 * the driver they start.
 */
module ExecutionProtocol {
  import opened Prelude

  /*
   * Any number of calls share one `executions` table.  An atomic step is the code between two
   * `await`s.  The table has a partial unique index on (workspace, idempotency key) and loses a
   * workspace's rows when the workspace is deleted.
   */

  type WsId = int
  type ExId = int
  type CallId = int

  datatype Status = StQueued | StRunning | StSucceeded | StFailed | StTimedOut

  predicate Terminal(st: Status) { st.StSucceeded? || st.StFailed? || st.StTimedOut? }

  /** `_classify_status`. */
  function Classify(code: int): Status {
    if code == 0 then StSucceeded else if code == 124 then StTimedOut else StFailed
  }

  datatype Row = Row(ws: WsId, key: Option<string>, status: Status, code: Option<int>)

  /** The exit code `_result_from_terminal_execution` reports. */
  function Report(r: Row): int { if r.code.Some? then r.code.value else -1 }

  /** Where one `exec` call stands. */
  datatype Pc =
    | Looking                                // awaiting get_execution_by_idempotency
    | Inserting                              // awaiting create_execution
    | Queued(ex: ExId)                       // awaiting the update to running
    | Running(ex: ExId)                      // awaiting a session
    | Executing(ex: ExId)                    // awaiting the driver
    | Finishing(ex: ExId, code: int)         // awaiting the final update
    | Failing(ex: ExId)                      // awaiting the update to failed
    | Returned(ex: ExId, code: int)
    | Raised

  datatype Call = Call(ws: WsId, key: Option<string>, pc: Pc)

  datatype Kind = EvQueued | EvStarted | EvFinished

  datatype Event = Event(kind: Kind, ex: ExId)

  datatype Issue = Issue(ws: WsId, key: Option<string>)

  datatype State = State(
    workspaces: set<WsId>,
    rows: map<ExId, Row>,
    calls: map<CallId, Call>,
    events: seq<Event>,
    // History.
    everWs: set<WsId>,
    issued: map<ExId, Issue>,                // every row ever inserted
    runs: seq<ExId>)                         // every start of the driver

  const START := State({}, map[], map[], [], {}, map[], [])

  datatype CallStep =
    | Enter(ws: WsId, key: Option<string>)   // reads the workspace row
    | Lookup(found: Option<ExId>)
    | Insert(ex: ExId)
    | InsertFail                             // constraint violation or any other database error
    | MarkRunning(ok: bool)
    | Abort                                  // empty command: raised outside the try, row left behind
    | StartDriver
    | SessionFail
    | DriverOk(code: int)
    | DriverFail
    | SpillFail                              // writing the overflow log failed, outside the try
    | Finish(ok: bool)
    | RecordFailure(ok: bool)

  datatype Step =
    | Exec(c: CallId, a: CallStep)
    | CreateWorkspace(ws: WsId)
    | DeleteWorkspace(ws: WsId)

  predicate Matches(s: State, ex: ExId, ws: WsId, key: Option<string>) {
    ex in s.rows && s.rows[ex].ws == ws && s.rows[ex].key == key
  }

  /** The keys that take part in the idempotency lookup: present and not empty. */
  predicate LooksUp(key: Option<string>) { key.Some? && key.value != "" }

  /** When call `c`, already under way, can take step `a`. */
  ghost predicate CanContinue(s: State, c: CallId, a: CallStep)
    requires c in s.calls
  {
    var call := s.calls[c];
    match a
    case Enter(_, _) => false
    case Lookup(found) =>
      call.pc.Looking? && (
        match found
        case Some(ex) => Matches(s, ex, call.ws, call.key)
        case None => forall ex :: !Matches(s, ex, call.ws, call.key))
    case Insert(ex) =>
      && call.pc.Inserting? && ex !in s.issued
      && call.ws in s.workspaces
      && (call.key.Some? ==> forall x :: !Matches(s, x, call.ws, call.key))
    case InsertFail => call.pc.Inserting?
    case MarkRunning(_) => call.pc.Queued?
    case Abort => call.pc.Running?
    case StartDriver => call.pc.Running?
    case SessionFail => call.pc.Running?
    case DriverOk(_) => call.pc.Executing?
    case DriverFail => call.pc.Executing?
    case SpillFail => call.pc.Finishing?
    case Finish(_) => call.pc.Finishing?
    case RecordFailure(_) => call.pc.Failing?
  }

  ghost predicate CanExec(s: State, c: CallId, a: CallStep) {
    if c in s.calls then CanContinue(s, c, a) else a.Enter?
  }

  function Move(s: State, c: CallId, pc: Pc): State
    requires c in s.calls
  {
    s.(calls := s.calls[c := s.calls[c].(pc := pc)])
  }

  function Publish(s: State, kind: Kind, ex: ExId): State { s.(events := s.events + [Event(kind, ex)]) }

  /** A partial update of one row; `NotFoundError` if the row is gone. */
  predicate Updates(s: State, ex: ExId, ok: bool) { ok && ex in s.rows }

  ghost function DoExec(s: State, c: CallId, a: CallStep): State
    requires CanExec(s, c, a)
  {
    match a
    case Enter(ws, key) =>
      s.(calls := s.calls[c := Call(ws, key,
           if ws !in s.workspaces then Raised else if LooksUp(key) then Looking else Inserting)])
    case Lookup(found) =>
      if found.Some? && Terminal(s.rows[found.value].status) then
        Move(s, c, Returned(found.value, Report(s.rows[found.value])))
      else Move(s, c, Inserting)
    case Insert(ex) =>
      var call := s.calls[c];
      Publish(Move(s, c, Queued(ex)), EvQueued, ex).(
        rows := s.rows[ex := Row(call.ws, call.key, StQueued, None)],
        issued := s.issued[ex := Issue(call.ws, call.key)])
    case InsertFail => Move(s, c, Raised)
    case MarkRunning(ok) =>
      var ex := s.calls[c].pc.ex;
      if Updates(s, ex, ok) then
        Publish(Move(s, c, Running(ex)), EvStarted, ex).(rows := s.rows[ex := s.rows[ex].(status := StRunning)])
      else Move(s, c, Raised)
    case Abort => Move(s, c, Raised)
    case StartDriver => Move(s, c, Executing(s.calls[c].pc.ex)).(runs := s.runs + [s.calls[c].pc.ex])
    case SessionFail => Move(s, c, Failing(s.calls[c].pc.ex))
    case DriverOk(code) => Move(s, c, Finishing(s.calls[c].pc.ex, code))
    case DriverFail => Move(s, c, Failing(s.calls[c].pc.ex))
    case SpillFail => Move(s, c, Raised)
    case Finish(ok) =>
      var ex, code := s.calls[c].pc.ex, s.calls[c].pc.code;
      if Updates(s, ex, ok) then
        Publish(Move(s, c, Returned(ex, code)), EvFinished, ex).(
          rows := s.rows[ex := s.rows[ex].(status := Classify(code), code := Some(code))])
      else Move(s, c, Raised)
    case RecordFailure(ok) =>
      var ex := s.calls[c].pc.ex;
      if Updates(s, ex, ok) then
        Publish(Move(s, c, Raised), EvFinished, ex).(
          rows := s.rows[ex := s.rows[ex].(status := StFailed, code := None)])
      else Move(s, c, Raised)
  }

  ghost predicate Enabled(s: State, step: Step) {
    match step
    case Exec(c, a) => CanExec(s, c, a)
    case CreateWorkspace(ws) => ws !in s.everWs
    case DeleteWorkspace(ws) => ws in s.workspaces
  }

  ghost function Do(s: State, step: Step): State
    requires Enabled(s, step)
  {
    match step
    case Exec(c, a) => DoExec(s, c, a)
    case CreateWorkspace(ws) => s.(workspaces := s.workspaces + {ws}, everWs := s.everWs + {ws})
    case DeleteWorkspace(ws) =>
      s.(workspaces := s.workspaces - {ws}, rows := map ex | ex in s.rows && s.rows[ex].ws != ws :: s.rows[ex])
  }

  ghost predicate Legal(s: State, steps: seq<Step>)
    decreases |steps|
  {
    steps == [] || (Enabled(s, steps[0]) && Legal(Do(s, steps[0]), steps[1..]))
  }

  ghost function After(s: State, steps: seq<Step>): State
    requires Legal(s, steps)
    decreases |steps|
  {
    if steps == [] then s else After(Do(s, steps[0]), steps[1..])
  }

  ghost predicate Reachable(s: State) { exists steps :: Legal(START, steps) && After(START, steps) == s }

  // ---- Invariants -------------------------------------------------------------------------

  /** The execution a call is still working on. */
  function Owned(pc: Pc): Option<ExId> {
    match pc
    case Queued(ex) => Some(ex)
    case Running(ex) => Some(ex)
    case Executing(ex) => Some(ex)
    case Finishing(ex, _) => Some(ex)
    case Failing(ex) => Some(ex)
    case _ => None
  }

  ghost predicate Owns(s: State, c: CallId, ex: ExId) { c in s.calls && Owned(s.calls[c].pc) == Some(ex) }

  ghost predicate Answers(s: State, c: CallId, ex: ExId, code: int) {
    c in s.calls && s.calls[c].pc == Returned(ex, code)
  }

  /** Rows, issues and workspaces agree, and a key is issued once per workspace. */
  ghost predicate Tables(s: State) {
    && s.workspaces <= s.everWs
    && (forall ex :: ex in s.issued ==> s.issued[ex].ws in s.everWs)
    && (forall ex :: ex in s.issued && s.issued[ex].ws in s.workspaces ==> ex in s.rows)
    && (forall ex :: ex in s.rows ==>
          && ex in s.issued && s.issued[ex] == Issue(s.rows[ex].ws, s.rows[ex].key)
          && s.rows[ex].ws in s.workspaces)
    && (forall x, y :: x in s.issued && y in s.issued && s.issued[x] == s.issued[y] && s.issued[x].key.Some? ==> x == y)
  }

  /** One owner per execution; a terminal row has none. */
  ghost predicate Owners(s: State) {
    && (forall c, ex :: Owns(s, c, ex) ==> ex in s.issued && s.issued[ex] == Issue(s.calls[c].ws, s.calls[c].key))
    && (forall c, d, ex :: Owns(s, c, ex) && Owns(s, d, ex) ==> c == d)
    && (forall c, ex :: Owns(s, c, ex) && ex in s.rows ==> !Terminal(s.rows[ex].status))
  }

  /** What calls have returned is what the table says, and the same for every call. */
  ghost predicate Answered(s: State) {
    && (forall c, ex, code :: Answers(s, c, ex, code) ==>
          ex in s.issued && s.issued[ex] == Issue(s.calls[c].ws, s.calls[c].key))
    && (forall c, ex, code :: Answers(s, c, ex, code) && ex in s.rows ==>
          Terminal(s.rows[ex].status) && Report(s.rows[ex]) == code)
    && (forall c, d, ex, m, n :: Answers(s, c, ex, m) && Answers(s, d, ex, n) ==> m == n)
    && (forall c, d, ex, code :: Answers(s, c, ex, code) ==> !Owns(s, d, ex))
  }

  /** The driver has not run yet for an execution whose call is not that far, and never runs twice. */
  ghost predicate RunOnce(s: State) {
    && NoDup(s.runs)
    && (forall i :: 0 <= i < |s.runs| ==> s.runs[i] in s.issued)
    && (forall c, ex :: Owns(s, c, ex) && (s.calls[c].pc.Queued? || s.calls[c].pc.Running?) ==> ex !in s.runs)
  }

  /** A row has an exit code only once it has finished, and its status is the one for that code. */
  predicate CodeFits(r: Row) {
    match r.status
    case StSucceeded => r.code == Some(0)
    case StTimedOut => r.code == Some(124)
    case StFailed => r.code != Some(0) && r.code != Some(124)
    case _ => r.code == None
  }

  ghost predicate Coded(s: State) { forall ex :: ex in s.rows ==> CodeFits(s.rows[ex]) }

  ghost predicate Inv(s: State) { Tables(s) && Owners(s) && Answered(s) && RunOnce(s) }

  /** A step of call `c` changes only where `c` stands. */
  lemma OnlyOneMoves(s: State, s': State, c: CallId)
    requires c in s'.calls && s'.calls == s.calls[c := s'.calls[c]]
    ensures forall d: CallId, ex: ExId {:trigger Owns(s', d, ex)} {:trigger Owns(s, d, ex)} ::
              Owns(s', d, ex) == if d == c then Owned(s'.calls[c].pc) == Some(ex) else Owns(s, d, ex)
    ensures forall d: CallId, ex: ExId, code: int
              {:trigger Answers(s', d, ex, code)} {:trigger Answers(s, d, ex, code)} ::
              Answers(s', d, ex, code) ==
                if d == c then s'.calls[c].pc == Returned(ex, code) else Answers(s, d, ex, code)
  {
  }

  lemma TablesKept(s: State, c: CallId, a: CallStep)
    requires Tables(s) && CanExec(s, c, a)
    ensures Tables(DoExec(s, c, a))
  {
    var s' := DoExec(s, c, a);
    if a.Insert? && s.calls[c].key.Some? {
      assert forall x :: x in s.issued && s.issued[x] == s'.issued[a.ex] ==>
          Matches(s, x, s.calls[c].ws, s.calls[c].key);
    }
  }

  lemma NewOwner(s: State, c: CallId, ex: ExId)
    requires Tables(s) && Owners(s) && CanExec(s, c, Insert(ex))
    ensures Owners(DoExec(s, c, Insert(ex)))
  {
    OnlyOneMoves(s, DoExec(s, c, Insert(ex)), c);
  }

  lemma UpdateKeepsOwners(s: State, c: CallId, a: CallStep)
    requires Owners(s) && CanExec(s, c, a) && Updating(a)
    ensures Owners(DoExec(s, c, a))
  {
    OnlyOneMoves(s, DoExec(s, c, a), c);
    assert Owns(s, c, s.calls[c].pc.ex);
  }

  lemma MoveKeepsOwners(s: State, c: CallId, a: CallStep)
    requires Owners(s) && CanExec(s, c, a) && !Updating(a) && !a.Insert?
    ensures Owners(DoExec(s, c, a))
  {
    OnlyOneMoves(s, DoExec(s, c, a), c);
    if c in s.calls && Owned(s.calls[c].pc).Some? { assert Owns(s, c, Owned(s.calls[c].pc).value); }
  }

  /** The steps that may update a row. */
  predicate Updating(a: CallStep) { a.MarkRunning? || a.Finish? || a.RecordFailure? }

  lemma OwnersKept(s: State, c: CallId, a: CallStep)
    requires Tables(s) && Owners(s) && CanExec(s, c, a)
    ensures Owners(DoExec(s, c, a))
  {
    if a.Insert? {
      NewOwner(s, c, a.ex);
    } else if Updating(a) {
      UpdateKeepsOwners(s, c, a);
    } else {
      MoveKeepsOwners(s, c, a);
    }
  }

  lemma ReplayAnswers(s: State, c: CallId, found: Option<ExId>)
    requires Tables(s) && Owners(s) && Answered(s) && CanExec(s, c, Lookup(found))
    ensures Answered(DoExec(s, c, Lookup(found)))
  {
    OnlyOneMoves(s, DoExec(s, c, Lookup(found)), c);
  }

  lemma FinishAnswers(s: State, c: CallId, ok: bool)
    requires Owners(s) && Answered(s) && CanExec(s, c, Finish(ok))
    ensures Answered(DoExec(s, c, Finish(ok)))
  {
    OnlyOneMoves(s, DoExec(s, c, Finish(ok)), c);
    assert Owns(s, c, s.calls[c].pc.ex);
  }

  lemma InsertAnswers(s: State, c: CallId, ex: ExId)
    requires Answered(s) && CanExec(s, c, Insert(ex))
    ensures Answered(DoExec(s, c, Insert(ex)))
  {
    OnlyOneMoves(s, DoExec(s, c, Insert(ex)), c);
  }

  lemma UpdateAnswers(s: State, c: CallId, a: CallStep)
    requires Owners(s) && Answered(s) && CanExec(s, c, a) && (a.MarkRunning? || a.RecordFailure?)
    ensures Answered(DoExec(s, c, a))
  {
    OnlyOneMoves(s, DoExec(s, c, a), c);
    assert Owns(s, c, s.calls[c].pc.ex);
  }

  lemma MoveAnswers(s: State, c: CallId, a: CallStep)
    requires Answered(s) && CanExec(s, c, a) && !Updating(a) && !a.Insert? && !a.Lookup?
    ensures Answered(DoExec(s, c, a))
  {
    OnlyOneMoves(s, DoExec(s, c, a), c);
    if c in s.calls && Owned(s.calls[c].pc).Some? { assert Owns(s, c, Owned(s.calls[c].pc).value); }
  }

  lemma AnsweredKept(s: State, c: CallId, a: CallStep)
    requires Tables(s) && Owners(s) && Answered(s) && CanExec(s, c, a)
    ensures Answered(DoExec(s, c, a))
  {
    match a
    case Lookup(found) => ReplayAnswers(s, c, found);
    case Insert(ex) => InsertAnswers(s, c, ex);
    case Finish(ok) => FinishAnswers(s, c, ok);
    case MarkRunning(_) => UpdateAnswers(s, c, a);
    case RecordFailure(_) => UpdateAnswers(s, c, a);
    case _ => MoveAnswers(s, c, a);
  }

  lemma DriverRunsOnce(s: State, c: CallId)
    requires Owners(s) && RunOnce(s) && CanExec(s, c, StartDriver)
    ensures RunOnce(DoExec(s, c, StartDriver))
  {
    OnlyOneMoves(s, DoExec(s, c, StartDriver), c);
    assert Owns(s, c, s.calls[c].pc.ex);
  }

  lemma OthersRunNothing(s: State, c: CallId, a: CallStep)
    requires RunOnce(s) && CanExec(s, c, a) && !a.StartDriver?
    ensures RunOnce(DoExec(s, c, a))
  {
    OnlyOneMoves(s, DoExec(s, c, a), c);
    if c in s.calls && Owned(s.calls[c].pc).Some? { assert Owns(s, c, Owned(s.calls[c].pc).value); }
  }

  lemma RunOnceKept(s: State, c: CallId, a: CallStep)
    requires Owners(s) && RunOnce(s) && CanExec(s, c, a)
    ensures RunOnce(DoExec(s, c, a))
  {
    if a.StartDriver? {
      DriverRunsOnce(s, c);
    } else {
      OthersRunNothing(s, c, a);
    }
  }

  lemma CodedKept(s: State, c: CallId, a: CallStep)
    requires Owners(s) && Coded(s) && CanExec(s, c, a)
    ensures Coded(DoExec(s, c, a))
  {
    if c in s.calls && Owned(s.calls[c].pc).Some? { assert Owns(s, c, Owned(s.calls[c].pc).value); }
  }

  // ---- The events -------------------------------------------------------------------------

  /** The kinds of events published for one execution, in order. */
  function Told(events: seq<Event>, ex: ExId): seq<Kind> {
    if events == [] then []
    else
      var e := events[|events| - 1];
      Told(events[..|events| - 1], ex) + if e.ex == ex then [e.kind] else []
  }

  const STORY: seq<Kind> := [EvQueued, EvStarted, EvFinished]

  lemma ToldNext(events: seq<Event>, e: Event, ex: ExId)
    ensures Told(events + [e], ex) == Told(events, ex) + if e.ex == ex then [e.kind] else []
  {
    assert (events + [e])[..|events|] == events;
  }

  /** How far the story of an execution has come, by the state of its row. */
  function Chapter(st: Status): seq<Kind> {
    match st
    case StQueued => [EvQueued]
    case StRunning => [EvQueued, EvStarted]
    case _ => [EvQueued, EvStarted, EvFinished]
  }

  /** `told` fits the rows and the calls: it is as far as the execution's row, or its call, has come. */
  ghost predicate Fits(s: State, told: ExId -> seq<Kind>) {
    && (forall ex :: told(ex) <= STORY)
    && (forall ex :: ex !in s.issued ==> told(ex) == [])
    && (forall c, ex :: Owns(s, c, ex) ==>
          told(ex) == if s.calls[c].pc.Queued? then [EvQueued] else [EvQueued, EvStarted])
    && (forall ex :: ex in s.rows ==> told(ex) == Chapter(s.rows[ex].status))
    && (forall c, ex, code :: Answers(s, c, ex, code) ==> told(ex) == STORY)
  }

  function Tales(events: seq<Event>): ExId -> seq<Kind> { ex => Told(events, ex) }

  ghost predicate Stories(s: State) { Fits(s, Tales(s.events)) }

  /** Call `c` moves on, or gives up, or answers from a finished row; nothing else changes. */
  ghost predicate QuietMove(s: State, s': State, c: CallId) {
    && s'.rows == s.rows && s'.issued == s.issued
    && c in s'.calls && s'.calls == s.calls[c := s'.calls[c]]
    && var pc := s'.calls[c].pc;
    && (Owned(pc).Some? ==> Owns(s, c, Owned(pc).value) && !s.calls[c].pc.Queued? && !pc.Queued?)
    && (pc.Returned? ==> pc.ex in s.rows && Terminal(s.rows[pc.ex].status))
  }

  lemma QuietMoveFits(s: State, s': State, c: CallId, told: ExId -> seq<Kind>)
    requires Fits(s, told) && QuietMove(s, s', c)
    ensures Fits(s', told)
  {
    OnlyOneMoves(s, s', c);
  }

  lemma QuietFits(s: State, c: CallId, a: CallStep, told: ExId -> seq<Kind>)
    requires Fits(s, told) && CanExec(s, c, a) && DoExec(s, c, a).events == s.events
    ensures Fits(DoExec(s, c, a), told)
  {
    assert QuietMove(s, DoExec(s, c, a), c);
    QuietMoveFits(s, DoExec(s, c, a), c, told);
  }

  /** One more event for `ex`. */
  ghost predicate Adds(told: ExId -> seq<Kind>, told': ExId -> seq<Kind>, e: Event) {
    forall x :: told'(x) == if x == e.ex then told(x) + [e.kind] else told(x)
  }

  lemma InsertFits(s: State, c: CallId, ex: ExId, told: ExId -> seq<Kind>, told': ExId -> seq<Kind>)
    requires Tables(s) && Owners(s) && Answered(s) && Fits(s, told) && CanExec(s, c, Insert(ex))
    requires Adds(told, told', Event(EvQueued, ex))
    ensures Fits(DoExec(s, c, Insert(ex)), told')
  {
    OnlyOneMoves(s, DoExec(s, c, Insert(ex)), c);
  }

  lemma StartFits(s: State, c: CallId, told: ExId -> seq<Kind>, told': ExId -> seq<Kind>)
    requires Tables(s) && Owners(s) && Answered(s) && Fits(s, told) && CanExec(s, c, MarkRunning(true))
    requires s.calls[c].pc.ex in s.rows && Adds(told, told', Event(EvStarted, s.calls[c].pc.ex))
    ensures Fits(DoExec(s, c, MarkRunning(true)), told')
  {
    OnlyOneMoves(s, DoExec(s, c, MarkRunning(true)), c);
    assert Owns(s, c, s.calls[c].pc.ex);
  }

  lemma FinishFits(s: State, c: CallId, told: ExId -> seq<Kind>, told': ExId -> seq<Kind>)
    requires Tables(s) && Owners(s) && Answered(s) && Fits(s, told) && CanExec(s, c, Finish(true))
    requires s.calls[c].pc.ex in s.rows && Adds(told, told', Event(EvFinished, s.calls[c].pc.ex))
    ensures Fits(DoExec(s, c, Finish(true)), told')
  {
    OnlyOneMoves(s, DoExec(s, c, Finish(true)), c);
    assert Owns(s, c, s.calls[c].pc.ex);
  }

  lemma FailureFits(s: State, c: CallId, told: ExId -> seq<Kind>, told': ExId -> seq<Kind>)
    requires Tables(s) && Owners(s) && Answered(s) && Fits(s, told) && CanExec(s, c, RecordFailure(true))
    requires s.calls[c].pc.ex in s.rows && Adds(told, told', Event(EvFinished, s.calls[c].pc.ex))
    ensures Fits(DoExec(s, c, RecordFailure(true)), told')
  {
    OnlyOneMoves(s, DoExec(s, c, RecordFailure(true)), c);
    assert Owns(s, c, s.calls[c].pc.ex);
  }

  lemma StoriesKept(s: State, c: CallId, a: CallStep)
    requires Tables(s) && Owners(s) && Answered(s) && Stories(s) && CanExec(s, c, a)
    ensures Stories(DoExec(s, c, a))
  {
    var s' := DoExec(s, c, a);
    if s'.events == s.events {
      QuietFits(s, c, a, Tales(s.events));
    } else {
      match a
      case Insert(ex) => InsertFits(s, c, ex, Tales(s.events), Tales(s'.events));
      case MarkRunning(_) => StartFits(s, c, Tales(s.events), Tales(s'.events));
      case Finish(_) => FinishFits(s, c, Tales(s.events), Tales(s'.events));
      case RecordFailure(_) => FailureFits(s, c, Tales(s.events), Tales(s'.events));
    }
  }

  // ---- Workspaces come and go -------------------------------------------------------------

  lemma WorkspaceStepKeeps(s: State, step: Step)
    requires Inv(s) && Enabled(s, step) && !step.Exec?
    ensures Inv(Do(s, step))
  {
    var s' := Do(s, step);
    assert forall d: CallId, ex: ExId {:trigger Owns(s', d, ex)} {:trigger Owns(s, d, ex)} ::
        Owns(s', d, ex) == Owns(s, d, ex);
    assert forall d: CallId, ex: ExId, code: int
        {:trigger Answers(s', d, ex, code)} {:trigger Answers(s, d, ex, code)} ::
        Answers(s', d, ex, code) == Answers(s, d, ex, code);
  }

  lemma WorkspaceStepFits(s: State, step: Step, told: ExId -> seq<Kind>)
    requires Fits(s, told) && Enabled(s, step) && !step.Exec?
    ensures Fits(Do(s, step), told) && Do(s, step).events == s.events
  {
    var s' := Do(s, step);
    assert forall d: CallId, ex: ExId {:trigger Owns(s', d, ex)} {:trigger Owns(s, d, ex)} ::
        Owns(s', d, ex) == Owns(s, d, ex);
    assert forall d: CallId, ex: ExId, code: int
        {:trigger Answers(s', d, ex, code)} {:trigger Answers(s, d, ex, code)} ::
        Answers(s', d, ex, code) == Answers(s, d, ex, code);
  }

  // ---- Whole runs -------------------------------------------------------------------------

  lemma InvKept(s: State, step: Step)
    requires Inv(s) && Stories(s) && Coded(s) && Enabled(s, step)
    ensures Inv(Do(s, step)) && Stories(Do(s, step)) && Coded(Do(s, step))
  {
    match step
    case Exec(c, a) =>
      TablesKept(s, c, a);
      OwnersKept(s, c, a);
      AnsweredKept(s, c, a);
      RunOnceKept(s, c, a);
      CodedKept(s, c, a);
      StoriesKept(s, c, a);
    case _ =>
      WorkspaceStepKeeps(s, step);
      WorkspaceStepFits(s, step, Tales(s.events));
  }

  lemma {:induction false} InvAlways(s: State, steps: seq<Step>)
    requires Inv(s) && Stories(s) && Coded(s) && Legal(s, steps)
    ensures Inv(After(s, steps)) && Stories(After(s, steps)) && Coded(After(s, steps))
    decreases |steps|
  {
    if steps == [] {
    } else {
      InvKept(s, steps[0]);
      InvAlways(Do(s, steps[0]), steps[1..]);
    }
  }

  lemma StartInv()
    ensures Inv(START) && Stories(START) && Coded(START)
  {
    forall c: CallId, ex: ExId
      ensures !Owns(START, c, ex)
    {
    }
  }

  lemma InvReachable(s: State)
    requires Reachable(s)
    ensures Inv(s) && Stories(s) && Coded(s)
  {
    var steps :| Legal(START, steps) && After(START, steps) == s;
    StartInv();
    InvAlways(START, steps);
  }

  /** A live workspace has at most one row per idempotency key. */
  lemma OneRowPerKey(s: State, x: ExId, y: ExId)
    requires Reachable(s) && x in s.rows && y in s.rows
    requires s.rows[x].ws == s.rows[y].ws && s.rows[x].key == s.rows[y].key && s.rows[x].key.Some?
    ensures x == y
  {
    InvReachable(s);
    assert Tables(s);
  }

  /** The driver is started at most once for each execution, and at most once per workspace and key. */
  lemma AtMostOneRun(s: State, i: nat, j: nat)
    requires Reachable(s) && i < |s.runs| && j < |s.runs|
    requires s.runs[i] in s.issued && s.runs[j] in s.issued
    requires s.runs[i] == s.runs[j] || (s.issued[s.runs[i]] == s.issued[s.runs[j]] && s.issued[s.runs[i]].key.Some?)
    ensures i == j
  {
    InvReachable(s);
    assert Tables(s) && RunOnce(s);
  }

  lemma EveryRunWasIssued(s: State)
    requires Reachable(s)
    ensures forall i :: 0 <= i < |s.runs| ==> s.runs[i] in s.issued
  {
    InvReachable(s);
    assert RunOnce(s);
  }

  /** All calls with one workspace and key that return normally report the same execution and exit code. */
  lemma SameAnswer(s: State, c: CallId, d: CallId)
    requires Reachable(s) && c in s.calls && d in s.calls
    requires s.calls[c].ws == s.calls[d].ws && s.calls[c].key == s.calls[d].key && s.calls[c].key.Some?
    requires s.calls[c].pc.Returned? && s.calls[d].pc.Returned?
    ensures s.calls[c].pc == s.calls[d].pc
  {
    InvReachable(s);
    assert Tables(s) && Answered(s);
    assert Answers(s, c, s.calls[c].pc.ex, s.calls[c].pc.code);
    assert Answers(s, d, s.calls[d].pc.ex, s.calls[d].pc.code);
  }

  /**
   * The table never contradicts the driver: succeeded means exit code 0, timed out means 124, and a
   * failure has another code, or none when the infrastructure failed; no code before the end.
   */
  lemma StatusTellsTheCode(s: State, ex: ExId)
    requires Reachable(s) && ex in s.rows
    ensures s.rows[ex].status.StSucceeded? <==> s.rows[ex].code == Some(0)
    ensures s.rows[ex].status.StTimedOut? <==> s.rows[ex].code == Some(124)
    ensures s.rows[ex].code.Some? ==> Terminal(s.rows[ex].status)
  {
    InvReachable(s);
    assert CodeFits(s.rows[ex]);
  }

  /** The row of an execution some call still works on says so. */
  ghost predicate Alive(s: State) {
    forall c, ex :: Owns(s, c, ex) && ex in s.rows ==>
      s.rows[ex].status == if s.calls[c].pc.Queued? then StQueued else StRunning
  }

  lemma OwnersAreAlive(s: State, told: ExId -> seq<Kind>)
    requires Fits(s, told) && Owners(s)
    ensures Alive(s)
  {
    forall c, ex | Owns(s, c, ex) && ex in s.rows
      ensures s.rows[ex].status == if s.calls[c].pc.Queued? then StQueued else StRunning
    {
      assert told(ex) == Chapter(s.rows[ex].status);
    }
  }

  predicate Advances(from: Status, to: Status) {
    (from.StQueued? && to.StRunning?) || (from.StRunning? && Terminal(to))
  }

  lemma RowsAdvance(s: State, c: CallId, a: CallStep, ex: ExId)
    requires Tables(s) && Alive(s) && CanExec(s, c, a) && ex in s.rows && ex in DoExec(s, c, a).rows
    ensures DoExec(s, c, a).rows[ex] == s.rows[ex] || Advances(s.rows[ex].status, DoExec(s, c, a).rows[ex].status)
  {
    if c in s.calls && Owned(s.calls[c].pc).Some? { assert Owns(s, c, Owned(s.calls[c].pc).value); }
  }

  // ---- Replays ----------------------------------------------------------------------------

  /** The row `ex` of a keyed request has finished, and reports `code`. */
  ghost predicate FinishedRow(s: State, ex: ExId, ws: WsId, key: string, code: int) {
    && ex in s.rows && s.rows[ex].ws == ws && s.rows[ex].key == Some(key)
    && (s.rows[ex].status == StSucceeded || s.rows[ex].status == StFailed || s.rows[ex].status == StTimedOut)
    && code == (match s.rows[ex].code case Some(n) => n case None => -1)
  }

  /** Call `c` has not entered, or is another request, or is looking the row up, or has its answer. */
  predicate Replays(s: State, c: CallId, ws: WsId, key: string, ex: ExId, code: int) {
    c in s.calls && s.calls[c].ws == ws && s.calls[c].key == Some(key) ==>
      s.calls[c].pc == Looking || s.calls[c].pc == Returned(ex, code)
  }

  lemma CallStepReplays(s: State, c: CallId, a: CallStep, other: CallId, ws: WsId, key: string, ex: ExId, code: int)
    requires Inv(s) && CanExec(s, other, a) && key != ""
    requires FinishedRow(s, ex, ws, key, code) && Replays(s, c, ws, key, ex, code)
    ensures Replays(DoExec(s, other, a), c, ws, key, ex, code)
  {
    assert ws in s.workspaces;
    if other == c && a.Lookup? && s.calls[c].ws == ws && s.calls[c].key == Some(key) {
      assert Matches(s, ex, ws, Some(key));
      assert a.found.Some? && s.issued[a.found.value] == s.issued[ex];
    }
  }

  lemma RowStaysFinished(s: State, step: Step, ws: WsId, key: string, ex: ExId, code: int)
    requires Inv(s) && Stories(s) && Enabled(s, step) && FinishedRow(s, ex, ws, key, code)
    requires ex in Do(s, step).rows
    ensures FinishedRow(Do(s, step), ex, ws, key, code)
  {
    OwnersAreAlive(s, Tales(s.events));
    if step.Exec? { RowsAdvance(s, step.c, step.a, ex); }
  }

  lemma StepReplays(s: State, step: Step, c: CallId, ws: WsId, key: string, ex: ExId, code: int)
    requires Inv(s) && Stories(s) && Enabled(s, step) && key != "" && ex in Do(s, step).rows
    requires FinishedRow(s, ex, ws, key, code) && Replays(s, c, ws, key, ex, code)
    ensures FinishedRow(Do(s, step), ex, ws, key, code) && Replays(Do(s, step), c, ws, key, ex, code)
  {
    RowStaysFinished(s, step, ws, key, ex, code);
    if step.Exec? { CallStepReplays(s, c, step.a, step.c, ws, key, ex, code); }
  }

  /** An id is never issued twice, so a row that has gone does not come back. */
  lemma {:induction false} GoneRowsStayGone(s: State, steps: seq<Step>, ex: ExId)
    requires Legal(s, steps) && ex in s.issued && ex !in s.rows
    ensures ex !in After(s, steps).rows
    decreases |steps|
  {
    if steps == [] {
    } else {
      GoneRowsStayGone(Do(s, steps[0]), steps[1..], ex);
    }
  }

  lemma {:induction false} RunReplays(
    s: State, steps: seq<Step>, c: CallId, ws: WsId, key: string, ex: ExId, code: int)
    requires Inv(s) && Stories(s) && Coded(s) && Legal(s, steps) && key != "" && ex in After(s, steps).rows
    requires FinishedRow(s, ex, ws, key, code) && Replays(s, c, ws, key, ex, code)
    ensures Replays(After(s, steps), c, ws, key, ex, code)
    decreases |steps|
  {
    if steps == [] {
    } else {
      var s1 := Do(s, steps[0]);
      if ex !in s1.rows { GoneRowsStayGone(s1, steps[1..], ex); }
      InvKept(s, steps[0]);
      StepReplays(s, steps[0], c, ws, key, ex, code);
      RunReplays(s1, steps[1..], c, ws, key, ex, code);
    }
  }

  /**
   * A finished row answers every later call with its workspace and key, as long as it is there: such
   * a call is looking it up or has returned its id and code, -1 if it has none, and does nothing else.
   */
  lemma FinishedRowsAnswer(s: State, steps: seq<Step>, c: CallId, ws: WsId, key: string, ex: ExId, code: int)
    requires Reachable(s) && Legal(s, steps) && key != "" && FinishedRow(s, ex, ws, key, code)
    requires c !in s.calls || s.calls[c].pc == Looking
    requires ex in After(s, steps).rows
    ensures var s' := After(s, steps);
      c in s'.calls && s'.calls[c].ws == ws && s'.calls[c].key == Some(key) ==>
        s'.calls[c].pc == Looking || s'.calls[c].pc == Returned(ex, code)
  {
    InvReachable(s);
    RunReplays(s, steps, c, ws, key, ex, code);
  }

  /** So every later call repeats what an earlier one has answered. */
  lemma AnswersAreRepeated(
    s: State, steps: seq<Step>, first: CallId, c: CallId, ws: WsId, key: string, ex: ExId, code: int)
    requires Reachable(s) && Legal(s, steps) && key != "" && first in s.calls
    requires s.calls[first] == Call(ws, Some(key), Returned(ex, code)) && ex in s.rows
    requires c !in s.calls || s.calls[c].pc == Looking
    requires ex in After(s, steps).rows
    ensures var s' := After(s, steps);
      c in s'.calls && s'.calls[c].ws == ws && s'.calls[c].key == Some(key) ==>
        s'.calls[c].pc == Looking || s'.calls[c].pc == Returned(ex, code)
  {
    InvReachable(s);
    assert Answers(s, first, ex, code);
    assert s.issued[ex] == Issue(ws, Some(key));
    FinishedRowsAnswer(s, steps, c, ws, key, ex, code);
  }

  /** A finished row never changes again while it exists; until then it goes from queued to running to finished. */
  lemma TerminalRowsAreFinal(s: State, step: Step, ex: ExId)
    requires Reachable(s) && Enabled(s, step) && ex in s.rows && ex in Do(s, step).rows
    ensures Do(s, step).rows[ex] == s.rows[ex] || Advances(s.rows[ex].status, Do(s, step).rows[ex].status)
    ensures Terminal(s.rows[ex].status) ==> Do(s, step).rows[ex] == s.rows[ex]
  {
    InvReachable(s);
    OwnersAreAlive(s, Tales(s.events));
    if step.Exec? { RowsAdvance(s, step.c, step.a, ex); }
  }

  /**
   * Each execution is announced as queued, started, finished: in this order, once each, all three if
   * it has an answer.
   */
  lemma EventsTellTheStory(s: State, ex: ExId)
    requires Reachable(s)
    ensures Told(s.events, ex) <= STORY
    ensures ex in s.rows && Terminal(s.rows[ex].status) ==> Told(s.events, ex) == STORY
    ensures forall c, code :: Answers(s, c, ex, code) ==> Told(s.events, ex) == STORY
  {
    InvReachable(s);
    assert Fits(s, Tales(s.events));
    assert Tales(s.events)(ex) == Told(s.events, ex);
  }
}
