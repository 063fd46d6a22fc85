/**
 * Rows against directories and archives: what concurrent calls to create, delete, snapshot and restore keep
 * of it when any operation may fail.
 */
module WorkspaceLifecycle {
  import opened Prelude

  /*
   * Workspaces and snapshots live in two stores each: a metastore row and a directory or archive.
   * Any number of create, delete, snapshot and restore calls interleave at their `await`s, and
   * every metastore or file operation may fail, the making of a directory and the roll-backs half
   * way too.
   */

  type WsId = int
  type SnapId = int
  type CallId = int

  datatype Status = Ready | Deleting

  datatype End = Ok | NotFound | StoreFailed | FileFailed | CleanedUp(ws: WsId)

  /** Where one call stands.  `cleanup` marks the delete that ends a restore with `SnapshotError`. */
  datatype Call =
    | InsertingWs(ws: WsId, source: Option<SnapId>)        // create: directory made, awaiting the row
    | Created(ws: WsId, source: Option<SnapId>)            // create: row inserted, not yet resumed
    | FindingSource(snap: SnapId, from: WsId)              // restore: awaiting the source workspace
    | StartingCopy(snap: SnapId)                           // restore: about to create the new workspace
    | DeletingGet(ws: WsId, cleanup: bool)                 // delete: awaiting get_workspace
    | DeletingMark(ws: WsId, cleanup: bool)                // delete: awaiting the status update
    | DeletingTree(ws: WsId, cleanup: bool)                // delete: row marked, tree not yet removed
    | DeletingRow(ws: WsId, cleanup: bool)                 // delete: tree removed, awaiting the row's removal
    | Archiving(ws: WsId)                                  // snapshot: workspace found
    | InsertingSnap(ws: WsId, snap: SnapId)                // snapshot: archive written, awaiting the row
    | Ended(end: End)

  /** Workspaces: their rows and directories. */
  datatype Spaces = Spaces(
    rows: map<WsId, Status>,
    dirs: set<WsId>,
    // History: ids are never reused; a restore whose wipe broke off has lost its directory; a
    // creation or a roll-back that broke off has left one behind.
    used: set<WsId>,
    inserted: set<WsId>,
    lost: set<WsId>,
    stray: set<WsId>)

  /** Snapshots: their rows and archives. */
  datatype Shots = Shots(
    rows: map<SnapId, WsId>,
    archives: set<SnapId>,
    // History: ids are never reused; a write or a roll-back that broke off has left an archive
    // behind; and which workspace each snapshot ever recorded is of.
    used: set<SnapId>,
    broken: set<SnapId>,
    recorded: map<SnapId, WsId>)

  datatype State = State(spaces: Spaces, shots: Shots, calls: map<CallId, Call>)

  const START := State(Spaces(map[], {}, {}, {}, {}, {}), Shots(map[], {}, {}, {}, map[]), map[])

  /**
   * How filling the new workspace's directory ends.  `WipeBroke`: emptying removed the directory
   * and could not make it again, which is no `SnapshotError`.
   */
  datatype Fill = Filled | BadArchive | MetaBlocked | WipeBroke

  /** The first step of a call. */
  datatype BeginStep =
    | CallCreate(ws: WsId)
    | CallCreateFails(ws: WsId, half: bool)  // `half`: the directory is there, its `.forge/exec` is not
    | CallDelete(ws: WsId)
    | CallSnapshot(ws: WsId)
    | CallRestore(snap: SnapId)

  /** The further steps of a create or a restore. */
  datatype MakeStep =
    | FindSource
    | CopyWorkspace(ws: WsId)
    | CopyFails(ws: WsId, half: bool)
    | InsertWs(ok: bool, undone: bool)       // `undone`: the roll-back of a failed insert succeeds
    | Resume(fill: Fill)

  /** The further steps of a delete, or of the clean-up of a restore. */
  datatype DeleteStep =
    | GetRow(ok: bool)
    | Mark(ok: bool)
    | RemoveTree(ok: bool)
    | RemoveRow(ok: bool)

  /** The further steps of a snapshot. */
  datatype SaveStep =
    | WriteArchive(snap: SnapId, ok: bool, half: bool)  // `half`: a failed write leaves part of the file
    | InsertSnap(ok: bool, undone: bool)

  datatype CallStep = Begin(b: BeginStep) | Make(m: MakeStep) | Delete(d: DeleteStep) | Save(v: SaveStep)

  predicate CanBegin(s: State, c: CallId, b: BeginStep) {
    c !in s.calls && (b.CallCreate? || b.CallCreateFails? ==> b.ws !in s.spaces.used)
  }

  predicate CanMake(s: State, c: CallId, m: MakeStep) {
    c in s.calls &&
    var call := s.calls[c];
    match m
    case FindSource => call.FindingSource?
    case CopyWorkspace(ws) => call.StartingCopy? && ws !in s.spaces.used
    case CopyFails(ws, _) => call.StartingCopy? && ws !in s.spaces.used
    case InsertWs(_, _) => call.InsertingWs?
    case Resume(fill) =>
      call.Created? && (call.source.Some? && call.source.value !in s.shots.archives ==> !fill.Filled?)
  }

  predicate CanDelete(s: State, c: CallId, d: DeleteStep) {
    c in s.calls &&
    match d
    case GetRow(_) => s.calls[c].DeletingGet?
    case Mark(_) => s.calls[c].DeletingMark?
    case RemoveTree(_) => s.calls[c].DeletingTree?
    case RemoveRow(_) => s.calls[c].DeletingRow?
  }

  predicate CanSave(s: State, c: CallId, v: SaveStep) {
    c in s.calls &&
    match v
    case WriteArchive(snap, _, _) => s.calls[c].Archiving? && snap !in s.shots.used
    case InsertSnap(_, _) => s.calls[c].InsertingSnap?
  }

  predicate Enabled(s: State, c: CallId, a: CallStep) {
    match a
    case Begin(b) => CanBegin(s, c, b)
    case Make(m) => CanMake(s, c, m)
    case Delete(d) => CanDelete(s, c, d)
    case Save(v) => CanSave(s, c, v)
  }

  function Move(s: State, c: CallId, call: Call): State { s.(calls := s.calls[c := call]) }

  /** `WorkspaceStore.create`: the directory of a new workspace. */
  function MakeDir(s: State, c: CallId, ws: WsId, source: Option<SnapId>): State {
    var w := s.spaces;
    Move(s, c, InsertingWs(ws, source)).(spaces := w.(dirs := w.dirs + {ws}, used := w.used + {ws}))
  }

  /** It fails, before or after the directory itself has been made; nothing is undone. */
  function BreakOff(s: State, c: CallId, ws: WsId, half: bool): State {
    var w := s.spaces;
    if half then
      Move(s, c, Ended(FileFailed)).(
        spaces := w.(dirs := w.dirs + {ws}, used := w.used + {ws}, stray := w.stray + {ws}))
    else Move(s, c, Ended(FileFailed))
  }

  function DoBegin(s: State, c: CallId, b: BeginStep): State
    requires CanBegin(s, c, b)
  {
    match b
    case CallCreate(ws) => MakeDir(s, c, ws, None)
    case CallCreateFails(ws, half) => BreakOff(s, c, ws, half)
    case CallDelete(ws) => Move(s, c, DeletingGet(ws, false))
    case CallSnapshot(ws) => Move(s, c, if ws in s.spaces.rows then Archiving(ws) else Ended(NotFound))
    case CallRestore(snap) =>
      Move(s, c, if snap in s.shots.rows then FindingSource(snap, s.shots.rows[snap]) else Ended(NotFound))
  }

  function DoMake(s: State, c: CallId, m: MakeStep): State
    requires CanMake(s, c, m)
  {
    var call, w := s.calls[c], s.spaces;
    match m
    case FindSource => Move(s, c, if call.from in w.rows then StartingCopy(call.snap) else Ended(NotFound))
    case CopyWorkspace(ws) => MakeDir(s, c, ws, Some(call.snap))
    case CopyFails(ws, half) => BreakOff(s, c, ws, half)
    case InsertWs(ok, undone) =>
      if ok then
        Move(s, c, Created(call.ws, call.source)).(
          spaces := w.(rows := w.rows[call.ws := Ready], inserted := w.inserted + {call.ws}))
      else if undone then Move(s, c, Ended(StoreFailed)).(spaces := w.(dirs := w.dirs - {call.ws}))
      else Move(s, c, Ended(FileFailed)).(spaces := w.(stray := w.stray + {call.ws}))
    case Resume(fill) =>
      // A plain create just returns.  A restore empties the directory, fills it and adds .forge/exec.
      if call.source.None? then Move(s, c, Ended(Ok))
      else if call.ws !in w.dirs || fill.MetaBlocked? then Move(s, c, Ended(FileFailed))
      else if fill.Filled? then Move(s, c, Ended(Ok))
      else if fill.BadArchive? then Move(s, c, DeletingGet(call.ws, true))
      else Move(s, c, Ended(FileFailed)).(spaces := w.(dirs := w.dirs - {call.ws}, lost := w.lost + {call.ws}))
  }

  function DoDelete(s: State, c: CallId, d: DeleteStep): State
    requires CanDelete(s, c, d)
  {
    var call, w, n := s.calls[c], s.spaces, s.shots;
    match d
    case GetRow(ok) =>
      Move(s, c,
        if !ok then Ended(StoreFailed)
        else if call.ws in w.rows then DeletingMark(call.ws, call.cleanup) else Ended(NotFound))
    case Mark(ok) =>
      if ok && call.ws in w.rows then
        Move(s, c, DeletingTree(call.ws, call.cleanup)).(spaces := w.(rows := w.rows[call.ws := Deleting]))
      else Move(s, c, Ended(StoreFailed))
    case RemoveTree(ok) =>
      if ok then Move(s, c, DeletingRow(call.ws, call.cleanup)).(spaces := w.(dirs := w.dirs - {call.ws}))
      else Move(s, c, Ended(FileFailed))
    case RemoveRow(ok) =>
      // The rows of its snapshots go with the workspace's row.
      if ok && call.ws in w.rows then
        Move(s, c, Ended(if call.cleanup then CleanedUp(call.ws) else Ok)).(
          spaces := w.(rows := w.rows - {call.ws}),
          shots := n.(rows := map x | x in n.rows && n.rows[x] != call.ws :: n.rows[x]))
      else Move(s, c, Ended(StoreFailed))
  }

  function DoSave(s: State, c: CallId, v: SaveStep): State
    requires CanSave(s, c, v)
  {
    var call, n := s.calls[c], s.shots;
    match v
    case WriteArchive(snap, ok, half) =>
      if call.ws !in s.spaces.dirs || (!ok && !half) then Move(s, c, Ended(FileFailed))
      else if ok then
        Move(s, c, InsertingSnap(call.ws, snap)).(
          shots := n.(archives := n.archives + {snap}, used := n.used + {snap}))
      else
        Move(s, c, Ended(FileFailed)).(
          shots := n.(archives := n.archives + {snap}, used := n.used + {snap}, broken := n.broken + {snap}))
    case InsertSnap(ok, undone) =>
      // The row refers to the workspace's row, so the insert fails once that is gone.
      if ok && call.ws in s.spaces.rows then
        Move(s, c, Ended(Ok)).(
          shots := n.(rows := n.rows[call.snap := call.ws], recorded := n.recorded[call.snap := call.ws]))
      else if undone then Move(s, c, Ended(StoreFailed)).(shots := n.(archives := n.archives - {call.snap}))
      else Move(s, c, Ended(FileFailed)).(shots := n.(broken := n.broken + {call.snap}))
  }

  function Do(s: State, c: CallId, a: CallStep): State
    requires Enabled(s, c, a)
  {
    match a
    case Begin(b) => DoBegin(s, c, b)
    case Make(m) => DoMake(s, c, m)
    case Delete(d) => DoDelete(s, c, d)
    case Save(v) => DoSave(s, c, v)
  }

  datatype Step = Step(c: CallId, a: CallStep)

  predicate Legal(s: State, steps: seq<Step>)
    decreases |steps|
  {
    steps == [] || (Enabled(s, steps[0].c, steps[0].a) && Legal(Do(s, steps[0].c, steps[0].a), steps[1..]))
  }

  function After(s: State, steps: seq<Step>): State
    requires Legal(s, steps)
    decreases |steps|
  {
    if steps == [] then s else After(Do(s, steps[0].c, steps[0].a), steps[1..])
  }

  ghost predicate Reachable(s: State) { exists steps :: Legal(START, steps) && After(START, steps) == s }

  // ---- Invariants -------------------------------------------------------------------------

  /** A ready row has its directory unless a broken wipe lost it. */
  ghost predicate RowsInStep(s: State) {
    forall ws :: ws in s.spaces.rows && s.spaces.rows[ws].Ready? ==> (ws in s.spaces.dirs <==> ws !in s.spaces.lost)
  }

  /** A snapshot row has its archive. */
  ghost predicate SnapsInStep(s: State) { forall x :: x in s.shots.rows ==> x in s.shots.archives }

  ghost predicate WsIds(s: State) {
    && s.spaces.lost <= s.spaces.inserted && s.spaces.inserted <= s.spaces.used && s.spaces.dirs <= s.spaces.used
    && (forall ws :: ws in s.spaces.rows ==> ws in s.spaces.inserted)
  }

  ghost predicate SnapIds(s: State) {
    && s.shots.archives <= s.shots.used
    && (forall x :: x in s.shots.rows ==> s.shots.rows[x] in s.spaces.rows && x in s.shots.used)
  }

  /** Two calls creating the same workspace, or recording the same snapshot. */
  predicate SameNewWs(x: Call, y: Call) { x.InsertingWs? && y.InsertingWs? && x.ws == y.ws }

  predicate SameNewSnap(x: Call, y: Call) { x.InsertingSnap? && y.InsertingSnap? && x.snap == y.snap }

  /** A directory whose row is still being inserted belongs to that call alone. */
  ghost predicate NewWs(s: State) {
    && (forall c :: c in s.calls && s.calls[c].InsertingWs? ==> s.calls[c].ws in s.spaces.dirs - s.spaces.inserted)
    && (forall c, d :: c in s.calls && d in s.calls && SameNewWs(s.calls[c], s.calls[d]) ==> c == d)
  }

  /** So does an archive whose row is still being inserted. */
  ghost predicate NewSnaps(s: State) {
    forall c :: c in s.calls && s.calls[c].InsertingSnap? ==>
      s.calls[c].snap in s.shots.archives && s.calls[c].snap !in s.shots.rows
  }

  ghost predicate OneInserter(s: State) {
    forall c, d :: c in s.calls && d in s.calls && SameNewSnap(s.calls[c], s.calls[d]) ==> c == d
  }

  predicate PastGet(call: Call) {
    call.Created? || call.DeletingMark? || call.DeletingTree? || call.DeletingRow?
  }

  predicate PastMark(call: Call) { call.DeletingTree? || call.DeletingRow? }

  predicate HasCleaned(call: Call) { call.Ended? && call.end.CleanedUp? }

  /** A call past its look-up works on a workspace that once had a row. */
  ghost predicate Known(s: State) {
    forall c :: c in s.calls && PastGet(s.calls[c]) ==> s.calls[c].ws in s.spaces.inserted
  }

  /** What a delete under way has achieved is never undone. */
  ghost predicate Marked(s: State) {
    forall c :: c in s.calls && PastMark(s.calls[c]) ==>
      (s.calls[c].ws in s.spaces.rows ==> s.spaces.rows[s.calls[c].ws].Deleting?)
  }

  ghost predicate Cleared(s: State) {
    forall c :: c in s.calls && s.calls[c].DeletingRow? ==> s.calls[c].ws !in s.spaces.dirs
  }

  predicate Gone(s: State, ws: WsId) { ws in s.spaces.inserted && ws !in s.spaces.rows && ws !in s.spaces.dirs }

  ghost predicate CleanedStaysGone(s: State) {
    forall c :: c in s.calls && HasCleaned(s.calls[c]) ==> Gone(s, s.calls[c].end.ws)
  }

  ghost predicate BeingInserted(s: State, ws: WsId) {
    exists c :: c in s.calls && s.calls[c].InsertingWs? && s.calls[c].ws == ws
  }

  /** Every directory has its row, or will have, or is stray. */
  ghost predicate NoOrphans(s: State) {
    forall ws :: ws in s.spaces.dirs ==> ws in s.spaces.rows || ws in s.spaces.stray || BeingInserted(s, ws)
  }

  /** A stray directory never had a row and never will. */
  ghost predicate Strays(s: State) {
    && (forall ws :: ws in s.spaces.stray ==> ws in s.spaces.dirs && ws !in s.spaces.inserted)
    && (forall c :: c in s.calls && s.calls[c].InsertingWs? ==> s.calls[c].ws !in s.spaces.stray)
  }

  ghost predicate BeingSaved(s: State, x: SnapId) {
    exists c :: c in s.calls && s.calls[c].InsertingSnap? && s.calls[c].snap == x
  }

  /** The snapshot had its row, and its workspace has since been deleted. */
  predicate Cascaded(s: State, x: SnapId) { x in s.shots.recorded && s.shots.recorded[x] !in s.spaces.rows }

  /** Every archive has its row, or will have, or broke off, or has lost its workspace. */
  ghost predicate ArchivesOwned(s: State) {
    forall x :: x in s.shots.archives ==> x in s.shots.rows || x in s.shots.broken || Cascaded(s, x) || BeingSaved(s, x)
  }

  /** The snapshot rows are the recorded snapshots whose workspaces are still there. */
  ghost predicate Records(s: State) {
    && (forall x :: x in s.shots.rows ==> x in s.shots.recorded && s.shots.recorded[x] == s.shots.rows[x])
    && (forall x :: x in s.shots.recorded ==> x in s.shots.used && s.shots.recorded[x] in s.spaces.inserted)
    && (forall x :: x in s.shots.recorded && s.shots.recorded[x] in s.spaces.rows ==> x in s.shots.rows)
  }

  /** What broke off, and what is still being saved, never had a row. */
  ghost predicate Unrecorded(s: State) {
    && (forall x :: x in s.shots.broken ==> x in s.shots.archives && x !in s.shots.recorded && x in s.shots.used)
    && (forall c :: c in s.calls && s.calls[c].InsertingSnap? ==>
          s.calls[c].snap !in s.shots.recorded && s.calls[c].snap !in s.shots.broken)
  }

  /** What concerns workspaces. */
  ghost predicate WsInv(s: State) {
    && RowsInStep(s) && WsIds(s) && NewWs(s)
    && Known(s) && Marked(s) && Cleared(s) && CleanedStaysGone(s) && Strays(s)
  }

  /** What concerns snapshots. */
  ghost predicate SnapInv(s: State) {
    SnapsInStep(s) && SnapIds(s) && NewSnaps(s) && OneInserter(s) && Records(s) && Unrecorded(s)
  }

  ghost predicate Inv(s: State) { WsInv(s) && SnapInv(s) && NoOrphans(s) && ArchivesOwned(s) }

  // ---- What each step keeps ---------------------------------------------------------------

  lemma BeginKeepsWs(s: State, c: CallId, b: BeginStep)
    requires WsInv(s) && CanBegin(s, c, b)
    ensures WsInv(DoBegin(s, c, b))
  {
  }

  lemma InsertKeepsWs(s: State, c: CallId, ok: bool, undone: bool)
    requires WsInv(s) && CanMake(s, c, InsertWs(ok, undone))
    ensures WsInv(DoMake(s, c, InsertWs(ok, undone)))
  {
  }

  lemma ResumeKeepsWs(s: State, c: CallId, fill: Fill)
    requires WsInv(s) && CanMake(s, c, Resume(fill))
    ensures WsInv(DoMake(s, c, Resume(fill)))
  {
  }

  lemma MakeKeepsWs(s: State, c: CallId, m: MakeStep)
    requires WsInv(s) && CanMake(s, c, m)
    ensures WsInv(DoMake(s, c, m))
  {
    match m
    case InsertWs(ok, undone) => InsertKeepsWs(s, c, ok, undone);
    case Resume(fill) => ResumeKeepsWs(s, c, fill);
    case _ =>
  }

  lemma DeleteKeepsWs(s: State, c: CallId, d: DeleteStep)
    requires WsInv(s) && CanDelete(s, c, d)
    ensures WsInv(DoDelete(s, c, d))
  {
  }

  lemma SaveKeepsWs(s: State, c: CallId, v: SaveStep)
    requires WsInv(s) && CanSave(s, c, v)
    ensures WsInv(DoSave(s, c, v))
  {
  }

  lemma BeginKeepsSnaps(s: State, c: CallId, b: BeginStep)
    requires SnapInv(s) && CanBegin(s, c, b)
    ensures SnapInv(DoBegin(s, c, b))
  {
  }

  lemma MakeKeepsSnaps(s: State, c: CallId, m: MakeStep)
    requires SnapInv(s) && NewWs(s) && CanMake(s, c, m)
    ensures SnapInv(DoMake(s, c, m))
  {
  }

  lemma DeleteKeepsSnaps(s: State, c: CallId, d: DeleteStep)
    requires SnapInv(s) && CanDelete(s, c, d)
    ensures SnapInv(DoDelete(s, c, d))
  {
  }

  lemma SaveKeepsSnaps(s: State, c: CallId, v: SaveStep)
    requires SnapInv(s) && WsIds(s) && CanSave(s, c, v)
    ensures SnapInv(DoSave(s, c, v))
  {
  }

  lemma StepMovesOne(s: State, c: CallId, a: CallStep)
    requires Enabled(s, c, a)
    ensures var t := Do(s, c, a); c in t.calls && t.calls == s.calls[c := t.calls[c]]
  {
  }

  lemma StillBeingInserted(s: State, t: State, c: CallId, ws: WsId)
    requires BeingInserted(s, ws) && c in t.calls && t.calls == s.calls[c := t.calls[c]]
    requires c in s.calls && s.calls[c].InsertingWs? && s.calls[c].ws == ws ==> t.calls[c] == s.calls[c]
    ensures BeingInserted(t, ws)
  {
    var d :| d in s.calls && s.calls[d].InsertingWs? && s.calls[d].ws == ws;
    assert t.calls[d] == s.calls[d];
  }

  /**
   * Rows only go when the directory has gone, new directories are being inserted or stray, and what
   * `c` was inserting, once it has stopped, has a row, is gone or is stray.
   */
  lemma StepKeepsDirs(s: State, c: CallId, a: CallStep)
    requires Cleared(s) && Enabled(s, c, a)
    ensures var t := Do(s, c, a);
      && (forall ws :: ws in s.spaces.rows && ws in t.spaces.dirs ==> ws in t.spaces.rows)
      && (forall ws :: ws in s.spaces.stray ==> ws in t.spaces.stray)
      && (forall ws :: ws in t.spaces.dirs && ws !in s.spaces.dirs ==>
            ws in t.spaces.stray || (c in t.calls && t.calls[c].InsertingWs? && t.calls[c].ws == ws))
      && (c in s.calls && s.calls[c].InsertingWs? ==>
            var ws := s.calls[c].ws; ws in t.spaces.rows || ws in t.spaces.stray || ws !in t.spaces.dirs)
  {
  }

  lemma OrphansKept(s: State, c: CallId, a: CallStep)
    requires Cleared(s) && NoOrphans(s) && Enabled(s, c, a)
    ensures NoOrphans(Do(s, c, a))
  {
    var t := Do(s, c, a);
    StepMovesOne(s, c, a);
    StepKeepsDirs(s, c, a);
    forall ws | ws in t.spaces.dirs
      ensures ws in t.spaces.rows || ws in t.spaces.stray || BeingInserted(t, ws)
    {
      if ws in s.spaces.dirs && BeingInserted(s, ws) && ws !in t.spaces.rows && ws !in t.spaces.stray {
        StillBeingInserted(s, t, c, ws);
      }
    }
  }

  lemma StillBeingSaved(s: State, t: State, c: CallId, x: SnapId)
    requires BeingSaved(s, x) && c in t.calls && t.calls == s.calls[c := t.calls[c]]
    requires c in s.calls && s.calls[c].InsertingSnap? && s.calls[c].snap == x ==> t.calls[c] == s.calls[c]
    ensures BeingSaved(t, x)
  {
    var d :| d in s.calls && s.calls[d].InsertingSnap? && s.calls[d].snap == x;
    assert t.calls[d] == s.calls[d];
  }

  /**
   * Snapshot rows only go with their workspace, new archives are being saved or broken, and what `c`
   * was saving, once it has stopped, has a row, is gone or is broken.
   */
  lemma StepKeepsArchives(s: State, c: CallId, a: CallStep)
    requires Records(s) && WsIds(s) && NewWs(s) && Unrecorded(s) && Enabled(s, c, a)
    ensures var t := Do(s, c, a);
      && (forall x :: x in s.shots.rows ==> x in t.shots.rows || Cascaded(t, x))
      && (forall x :: x in s.shots.broken ==> x in t.shots.broken)
      && (forall x :: Cascaded(s, x) ==> Cascaded(t, x))
      && (forall x :: x in t.shots.archives && x !in s.shots.archives ==>
            x in t.shots.broken || (c in t.calls && t.calls[c].InsertingSnap? && t.calls[c].snap == x))
      && (c in s.calls && s.calls[c].InsertingSnap? ==>
            var x := s.calls[c].snap; x in t.shots.rows || x in t.shots.broken || x !in t.shots.archives)
  {
  }

  lemma ArchivesKept(s: State, c: CallId, a: CallStep)
    requires ArchivesOwned(s) && Records(s) && Unrecorded(s) && WsIds(s) && NewWs(s) && Enabled(s, c, a)
    ensures ArchivesOwned(Do(s, c, a))
  {
    var t := Do(s, c, a);
    StepMovesOne(s, c, a);
    StepKeepsArchives(s, c, a);
    forall x | x in t.shots.archives
      ensures x in t.shots.rows || x in t.shots.broken || Cascaded(t, x) || BeingSaved(t, x)
    {
      if x in s.shots.archives && BeingSaved(s, x) && x !in t.shots.rows && x !in t.shots.broken {
        StillBeingSaved(s, t, c, x);
      }
    }
  }

  lemma InvKept(s: State, c: CallId, a: CallStep)
    requires Inv(s) && Enabled(s, c, a)
    ensures Inv(Do(s, c, a))
  {
    OrphansKept(s, c, a);
    ArchivesKept(s, c, a);
    match a
    case Begin(b) =>
      BeginKeepsWs(s, c, b);
      BeginKeepsSnaps(s, c, b);
    case Make(m) =>
      MakeKeepsWs(s, c, m);
      MakeKeepsSnaps(s, c, m);
    case Delete(d) =>
      DeleteKeepsWs(s, c, d);
      DeleteKeepsSnaps(s, c, d);
    case Save(v) =>
      SaveKeepsWs(s, c, v);
      SaveKeepsSnaps(s, c, v);
  }

  lemma {:induction false} InvAfter(s: State, steps: seq<Step>)
    requires Inv(s) && Legal(s, steps)
    ensures Inv(After(s, steps))
    decreases |steps|
  {
    if steps == [] {
    } else {
      InvKept(s, steps[0].c, steps[0].a);
      InvAfter(Do(s, steps[0].c, steps[0].a), steps[1..]);
    }
  }

  lemma InvReachable(s: State)
    requires Reachable(s)
    ensures Inv(s)
  {
    var steps :| Legal(START, steps) && After(START, steps) == s;
    InvAfter(START, steps);
  }

  // ---- Theorems ---------------------------------------------------------------------------

  /**
   * At every await of every interleaving a ready workspace has its directory, exactly unless a
   * restore's wipe lost it; a snapshot row has its archive; and a directory has a row or a create
   * call still waiting for the insert, exactly unless a creation or its roll-back broke off.
   */
  lemma StoresStayInStep(s: State)
    requires Reachable(s)
    ensures var w := s.spaces;
      && (forall ws :: ws in w.rows && w.rows[ws].Ready? ==> (ws in w.dirs <==> ws !in w.lost))
      && (forall ws :: ws in w.dirs ==> (ws in w.rows || BeingInserted(s, ws) <==> ws !in w.stray))
      && (forall ws :: ws in w.stray ==> ws in w.dirs)
    ensures forall x :: x in s.shots.rows ==> x in s.shots.archives
  {
    InvReachable(s);
  }

  /**
   * An archive has a row or a call still waiting for the insert, exactly unless its workspace has
   * been deleted, or its write or its roll-back broke off.
   */
  lemma ArchivesStayInStep(s: State)
    requires Reachable(s)
    ensures var n := s.shots;
      && (forall x :: x in n.archives ==> (x in n.rows || BeingSaved(s, x) <==> !Cascaded(s, x) && x !in n.broken))
      && (forall x :: x in n.broken ==> x in n.archives)
  {
    InvReachable(s);
  }

  predicate BreaksWipe(a: CallStep) { a.Make? && a.m.Resume? && a.m.fill.WipeBroke? }

  lemma {:induction false} OnlyBrokenWipesLose(s: State, steps: seq<Step>)
    requires Legal(s, steps)
    requires forall k :: 0 <= k < |steps| ==> !BreaksWipe(steps[k].a)
    ensures After(s, steps).spaces.lost == s.spaces.lost
    decreases |steps|
  {
    if steps == [] {
    } else {
      assert !BreaksWipe(steps[0].a);
      OnlyBrokenWipesLose(Do(s, steps[0].c, steps[0].a), steps[1..]);
    }
  }

  /** Runs in which no wipe breaks off keep the promise without exception. */
  lemma ReadyMeansDirectory(steps: seq<Step>)
    requires Legal(START, steps)
    requires forall k :: 0 <= k < |steps| ==> !BreaksWipe(steps[k].a)
    ensures var s := After(START, steps);
      forall ws :: ws in s.spaces.rows && s.spaces.rows[ws].Ready? ==> ws in s.spaces.dirs
  {
    OnlyBrokenWipesLose(START, steps);
    StoresStayInStep(After(START, steps));
  }

  lemma {:induction false} AfterSnoc(s: State, steps: seq<Step>, c: CallId, a: CallStep)
    requires Legal(s, steps) && Enabled(After(s, steps), c, a)
    ensures Legal(s, steps + [Step(c, a)])
    ensures After(s, steps + [Step(c, a)]) == Do(After(s, steps), c, a)
    decreases |steps|
  {
    if steps == [] {
      assert steps + [Step(c, a)] == [Step(c, a)];
      assert Legal(Do(s, c, a), []);
    } else {
      AfterSnoc(Do(s, steps[0].c, steps[0].a), steps[1..], c, a);
      assert (steps + [Step(c, a)])[1..] == steps[1..] + [Step(c, a)];
    }
  }

  lemma Next(s: State, c: CallId, a: CallStep) returns (t: State)
    requires Reachable(s) && Enabled(s, c, a)
    ensures Reachable(t) && t == Do(s, c, a)
  {
    var steps :| Legal(START, steps) && After(START, steps) == s;
    AfterSnoc(START, steps, c, a);
    t := Do(s, c, a);
  }

  lemma CreateOne() returns (s: State)
    ensures Reachable(s) && s.spaces.rows == map[1 := Ready] && s.spaces.dirs == {1} && s.spaces.used == {1}
    ensures s.shots == START.shots && s.calls.Keys == {0}
  {
    assert Legal(START, []) && After(START, []) == START;
    var s1 := Next(START, 0, Begin(CallCreate(1)));
    var s2 := Next(s1, 0, Make(InsertWs(true, true)));
    s := Next(s2, 0, Make(Resume(Filled)));
  }

  lemma TakeASnapshot() returns (s: State)
    ensures Reachable(s) && s.spaces.rows == map[1 := Ready] && s.shots.rows == map[7 := 1] && s.shots.archives == {7}
    ensures s.shots.recorded == map[7 := 1]
    ensures s.spaces.used == {1} && s.spaces.dirs == {1} && s.calls.Keys == {0, 1}
  {
    var s1 := CreateOne();
    var s2 := Next(s1, 1, Begin(CallSnapshot(1)));
    var s3 := Next(s2, 1, Save(WriteArchive(7, true, false)));
    s := Next(s3, 1, Save(InsertSnap(true, true)));
  }

  lemma BeginARestore() returns (s: State)
    ensures Reachable(s) && s.spaces.rows == map[1 := Ready] && s.shots.archives == {7} && s.spaces.used == {1}
    ensures 2 in s.calls && s.calls[2] == StartingCopy(7)
  {
    var s1 := TakeASnapshot();
    var s2 := Next(s1, 2, Begin(CallRestore(7)));
    s := Next(s2, 2, Make(FindSource));
  }

  /** A broken wipe does leave a ready row without its directory. */
  lemma BrokenWipeLosesADirectory()
    ensures exists s :: Reachable(s) && 2 in s.spaces.rows && s.spaces.rows[2].Ready? && 2 !in s.spaces.dirs
  {
    var s := BeginARestore();
    var t1 := Next(s, 2, Make(CopyWorkspace(2)));
    var t2 := Next(t1, 2, Make(InsertWs(true, true)));
    var t3 := Next(t2, 2, Make(Resume(WipeBroke)));
  }

  /** A deleted workspace leaves the archives of its snapshots behind. */
  lemma DeletedWorkspaceLeavesArchives()
    ensures exists s ::
              Reachable(s) && 7 in s.shots.archives && 7 !in s.shots.rows && !BeingSaved(s, 7) && Cascaded(s, 7)
  {
    var s := TakeASnapshot();
    var t1 := Next(s, 2, Begin(CallDelete(1)));
    var t2 := Next(t1, 2, Delete(GetRow(true)));
    var t3 := Next(t2, 2, Delete(Mark(true)));
    var t4 := RowRemoved(t3, 2);
    ArchivesStayInStep(t4);
  }

  lemma RowRemoved(s: State, c: CallId) returns (t: State)
    requires Reachable(s) && c in s.calls && s.calls[c].DeletingTree? && s.calls[c].ws in s.spaces.rows
    ensures Reachable(t) && s.calls[c].ws !in t.spaces.rows
    ensures t.shots.archives == s.shots.archives && t.shots.recorded == s.shots.recorded
  {
    var t1 := Next(s, c, Delete(RemoveTree(true)));
    t := Next(t1, c, Delete(RemoveRow(true)));
  }

  /** A directory made half leaves it behind without a row, and no call will give it one. */
  lemma HalfMadeDirectoryStays()
    ensures exists s :: Reachable(s) && 1 in s.spaces.dirs && 1 !in s.spaces.rows && !BeingInserted(s, 1)
  {
    assert Legal(START, []) && After(START, []) == START;
    var s := Next(START, 0, Begin(CallCreateFails(1, true)));
    assert 1 in s.spaces.dirs && 1 !in s.spaces.rows && !BeingInserted(s, 1);
  }

  /** Once a restore has failed with its clean-up done, nothing other calls do brings the workspace back. */
  lemma CleanedUpStaysGone(s: State, c: CallId, ws: WsId)
    requires Reachable(s) && c in s.calls && s.calls[c] == Ended(CleanedUp(ws))
    ensures ws !in s.spaces.rows && ws !in s.spaces.dirs
    ensures forall x :: x in s.shots.rows ==> s.shots.rows[x] != ws
  {
    InvReachable(s);
  }

  /** Rows and directories are those of `was`, but for a new workspace with that row, if any, and directory. */
  predicate With(was: Spaces, w: Spaces, ws: WsId, row: Option<Status>, dir: bool) {
    && ws !in was.used
    && w.rows == (if row.Some? then was.rows[ws := row.value] else was.rows)
    && w.dirs == (if dir then was.dirs + {ws} else was.dirs)
  }

  predicate Same(was: Spaces, w: Spaces) { w.rows == was.rows && w.dirs == was.dirs }

  /** `s` relates to the state `was` before a restore started as its program point says. */
  ghost predicate Progress(was: State, s: State, c: CallId) {
    && c in s.calls
    && s.shots.rows == was.shots.rows && s.shots.archives == was.shots.archives
    && was.spaces.used <= s.spaces.used
    && match s.calls[c]
       case FindingSource(_, _) => Same(was.spaces, s.spaces)
       case StartingCopy(_) => Same(was.spaces, s.spaces)
       case InsertingWs(ws, from) => from.Some? && With(was.spaces, s.spaces, ws, None, true)
       case Created(ws, from) => from.Some? && With(was.spaces, s.spaces, ws, Some(Ready), true)
       case DeletingGet(ws, cleanup) => cleanup && With(was.spaces, s.spaces, ws, Some(Ready), true)
       case DeletingMark(ws, cleanup) => cleanup && With(was.spaces, s.spaces, ws, Some(Ready), true)
       case DeletingTree(ws, cleanup) => cleanup && With(was.spaces, s.spaces, ws, Some(Deleting), true)
       case DeletingRow(ws, cleanup) => cleanup && With(was.spaces, s.spaces, ws, Some(Deleting), false)
       case Archiving(_) => false
       case InsertingSnap(_, _) => false
       case Ended(end) => end.CleanedUp? ==> Same(was.spaces, s.spaces)
  }

  lemma ProgressKept(was: State, s: State, c: CallId, a: CallStep)
    requires WsIds(was) && SnapIds(was) && Progress(was, s, c) && Enabled(s, c, a)
    ensures Progress(was, Do(s, c, a), c)
  {
    if a.Delete? && a.d.RemoveRow? {
      var ws := s.calls[c].ws;
      assert forall x :: x in s.shots.rows ==> s.shots.rows[x] != ws;
      assert Do(s, c, a).shots.rows == s.shots.rows;
    }
  }

  lemma {:induction false} ProgressAfter(was: State, s: State, c: CallId, steps: seq<Step>)
    requires WsIds(was) && SnapIds(was) && Progress(was, s, c) && Legal(s, steps)
    requires forall k :: 0 <= k < |steps| ==> steps[k].c == c
    ensures Progress(was, After(s, steps), c)
    decreases |steps|
  {
    if steps == [] {
    } else {
      ProgressKept(was, s, c, steps[0].a);
      ProgressAfter(was, Do(s, c, steps[0].a), c, steps[1..]);
    }
  }

  /**
   * A restore running alone that fails on a bad archive and whose clean-up succeeds leaves rows,
   * directories, snapshots and archives as they were, whatever run led up to it.
   */
  lemma FailedRestoreLeavesNoTrace(was: State, c: CallId, snap: SnapId, steps: seq<Step>, ws: WsId)
    requires Reachable(was) && c !in was.calls
    requires forall k :: 0 <= k < |steps| ==> steps[k].c == c
    requires var s := Do(was, c, Begin(CallRestore(snap)));
      Legal(s, steps) && (c, Ended(CleanedUp(ws))) in After(s, steps).calls.Items
    ensures var s := After(Do(was, c, Begin(CallRestore(snap))), steps);
      && s.spaces.rows == was.spaces.rows && s.spaces.dirs == was.spaces.dirs
      && s.shots.rows == was.shots.rows && s.shots.archives == was.shots.archives
  {
    InvReachable(was);
    ProgressAfter(was, Do(was, c, Begin(CallRestore(snap))), c, steps);
  }
}
