/**
 * One workspace call alone: what create, delete, snapshot and restore do to rows, directories and archives when nobody
 * interferes, for each way in which their steps may end.  Everything that is not said to change is as it was before the
 * call; in that these laws are complete.
 */
module WorkspaceAlone {
  import opened Prelude
  import opened WorkspaceLifecycle

  ghost predicate OwnRun(s: State, c: CallId, acts: seq<CallStep>)
    decreases |acts|
  {
    acts == [] || (Enabled(s, c, acts[0]) && OwnRun(Do(s, c, acts[0]), c, acts[1..]))
  }

  ghost function EndOf(s: State, c: CallId, acts: seq<CallStep>): State
    requires OwnRun(s, c, acts)
    decreases |acts|
  {
    if acts == [] then s else EndOf(Do(s, c, acts[0]), c, acts[1..])
  }

  /** The steps `acts` of call `c`, one after the other, lead from `s` to `s'`. */
  ghost predicate Goes(s: State, c: CallId, acts: seq<CallStep>, s': State) {
    OwnRun(s, c, acts) && EndOf(s, c, acts) == s'
  }

  lemma OneStep(s: State, c: CallId, a: CallStep)
    requires Enabled(s, c, a)
    ensures Goes(s, c, [a], Do(s, c, a))
  {
    var none: seq<CallStep> := [];
    assert [a][1..] == none && OwnRun(Do(s, c, a), c, none);
  }

  lemma {:induction false} AndThen(s: State, c: CallId, first: seq<CallStep>, s1: State, more: seq<CallStep>, s2: State)
    requires Goes(s, c, first, s1) && Goes(s1, c, more, s2)
    ensures Goes(s, c, first + more, s2)
    decreases |first|
  {
    if first == [] {
      assert first + more == more;
    } else {
      AndThen(Do(s, c, first[0]), c, first[1..], s1, more, s2);
      assert (first + more)[0] == first[0] && (first + more)[1..] == first[1..] + more;
    }
  }

  /** The call stands at `call`, the stores are as given, and the other calls as in `s`. */
  function Now(s: State, c: CallId, call: Call, w: Spaces, n: Shots): State { State(w, n, s.calls[c := call]) }

  /** The next step of the call, from where it stands. */
  lemma Step1(s: State, c: CallId, x: Call, w: Spaces, n: Shots, a: CallStep, y: Call, w': Spaces, n': Shots)
    requires Enabled(Now(s, c, x, w, n), c, a)
    requires var t := Do(Now(s, c, x, w, n), c, a);
      t.spaces == w' && t.shots == n' && t.calls == s.calls[c := x][c := y]
    ensures Goes(Now(s, c, x, w, n), c, [a], Now(s, c, y, w', n'))
  {
    OneStep(Now(s, c, x, w, n), c, a);
    assert s.calls[c := x][c := y] == s.calls[c := y];
  }

  // ---- Workspaces -------------------------------------------------------------------------

  /** The directory is made. */
  function Made(w: Spaces, ws: WsId): Spaces { w.(dirs := w.dirs + {ws}, used := w.used + {ws}) }

  /** And the row inserted. */
  function Opened(w: Spaces, ws: WsId): Spaces {
    Made(w, ws).(rows := w.rows[ws := Ready], inserted := w.inserted + {ws})
  }

  lemma MakesDirectory(s: State, c: CallId, ws: WsId)
    requires c !in s.calls && ws !in s.spaces.used
    ensures Goes(s, c, [Begin(CallCreate(ws))], Now(s, c, InsertingWs(ws, None), Made(s.spaces, ws), s.shots))
  {
    OneStep(s, c, Begin(CallCreate(ws)));
  }

  /** A create or a copy whose row is inserted has its ready row and its directory. */
  lemma InsertsRow(s: State, c: CallId, ws: WsId, source: Option<SnapId>, undone: bool)
    ensures Goes(Now(s, c, InsertingWs(ws, source), Made(s.spaces, ws), s.shots), c, [Make(InsertWs(true, undone))],
      Now(s, c, Created(ws, source), Opened(s.spaces, ws), s.shots))
  {
    Step1(s, c, InsertingWs(ws, source), Made(s.spaces, ws), s.shots, Make(InsertWs(true, undone)),
      Created(ws, source), Opened(s.spaces, ws), s.shots);
  }

  /** Create: one ready row and its directory more. */
  lemma CreateSucceeds(s: State, c: CallId, ws: WsId)
    requires c !in s.calls && ws !in s.spaces.used
    ensures Goes(s, c, [Begin(CallCreate(ws))] + [Make(InsertWs(true, true))] + [Make(Resume(Filled))],
      Now(s, c, Ended(Ok), Opened(s.spaces, ws), s.shots))
  {
    var s1 := Now(s, c, InsertingWs(ws, None), Made(s.spaces, ws), s.shots);
    var s2 := Now(s, c, Created(ws, None), Opened(s.spaces, ws), s.shots);
    MakesDirectory(s, c, ws);
    InsertsRow(s, c, ws, None, true);
    AndThen(s, c, [Begin(CallCreate(ws))], s1, [Make(InsertWs(true, true))], s2);
    Step1(s, c, Created(ws, None), Opened(s.spaces, ws), s.shots, Make(Resume(Filled)),
      Ended(Ok), Opened(s.spaces, ws), s.shots);
    AndThen(s, c, [Begin(CallCreate(ws))] + [Make(InsertWs(true, true))], s2, [Make(Resume(Filled))],
      Now(s, c, Ended(Ok), Opened(s.spaces, ws), s.shots));
  }

  /** Create whose insert fails: nothing is left, or a stray directory if that cannot be removed. */
  lemma CreateFails(s: State, c: CallId, ws: WsId, undone: bool)
    requires c !in s.calls && ws !in s.spaces.used && ws !in s.spaces.dirs
    ensures Goes(s, c, [Begin(CallCreate(ws))] + [Make(InsertWs(false, undone))],
      Now(s, c, Ended(if undone then StoreFailed else FileFailed),
        if undone then s.spaces.(used := s.spaces.used + {ws})
        else Made(s.spaces, ws).(stray := s.spaces.stray + {ws}),
        s.shots))
  {
    var w, made := s.spaces, Made(s.spaces, ws);
    MakesDirectory(s, c, ws);
    assert w.dirs + {ws} - {ws} == w.dirs;
    var end := Ended(if undone then StoreFailed else FileFailed);
    var after := if undone then w.(used := w.used + {ws}) else made.(stray := w.stray + {ws});
    Step1(s, c, InsertingWs(ws, None), made, s.shots, Make(InsertWs(false, undone)), end, after, s.shots);
    AndThen(s, c, [Begin(CallCreate(ws))], Now(s, c, InsertingWs(ws, None), made, s.shots),
      [Make(InsertWs(false, undone))], Now(s, c, end, after, s.shots));
  }

  /** Create that breaks off while the directory is made leaves nothing, or the half-made directory. */
  lemma CreateBreaksOff(s: State, c: CallId, ws: WsId, half: bool)
    requires c !in s.calls && ws !in s.spaces.used
    ensures Goes(s, c, [Begin(CallCreateFails(ws, half))],
      Now(s, c, Ended(FileFailed),
        if half then Made(s.spaces, ws).(stray := s.spaces.stray + {ws}) else s.spaces, s.shots))
  {
    OneStep(s, c, Begin(CallCreateFails(ws, half)));
  }

  // ---- Deleting ---------------------------------------------------------------------------

  /** From the look-up on, for a delete or for the clean-up of a restore: the row is marked. */
  lemma Marks(s: State, c: CallId, ws: WsId, cleanup: bool, w: Spaces)
    requires ws in w.rows
    ensures Goes(Now(s, c, DeletingGet(ws, cleanup), w, s.shots), c, [Delete(GetRow(true))] + [Delete(Mark(true))],
      Now(s, c, DeletingTree(ws, cleanup), w.(rows := w.rows[ws := Deleting]), s.shots))
  {
    var marked := w.(rows := w.rows[ws := Deleting]);
    Step1(s, c, DeletingGet(ws, cleanup), w, s.shots, Delete(GetRow(true)), DeletingMark(ws, cleanup), w, s.shots);
    Step1(s, c, DeletingMark(ws, cleanup), w, s.shots, Delete(Mark(true)), DeletingTree(ws, cleanup), marked, s.shots);
    AndThen(Now(s, c, DeletingGet(ws, cleanup), w, s.shots), c, [Delete(GetRow(true))],
      Now(s, c, DeletingMark(ws, cleanup), w, s.shots), [Delete(Mark(true))],
      Now(s, c, DeletingTree(ws, cleanup), marked, s.shots));
  }

  /** Without the row of `ws` and the rows of its snapshots. */
  function Unsnapped(n: Shots, ws: WsId): Shots {
    n.(rows := map x | x in n.rows && n.rows[x] != ws :: n.rows[x])
  }

  /** Then directory and row go, and with the row those of its snapshots. */
  lemma Removes(s: State, c: CallId, ws: WsId, cleanup: bool, w: Spaces)
    requires ws in w.rows
    ensures Goes(Now(s, c, DeletingTree(ws, cleanup), w.(rows := w.rows[ws := Deleting]), s.shots), c,
      [Delete(RemoveTree(true))] + [Delete(RemoveRow(true))],
      Now(s, c, Ended(if cleanup then CleanedUp(ws) else Ok), w.(rows := w.rows - {ws}, dirs := w.dirs - {ws}),
        Unsnapped(s.shots, ws)))
  {
    var end := Ended(if cleanup then CleanedUp(ws) else Ok);
    var marked := w.(rows := w.rows[ws := Deleting]);
    var bare := marked.(dirs := w.dirs - {ws});
    var gone := w.(rows := w.rows - {ws}, dirs := w.dirs - {ws});
    assert w.rows[ws := Deleting] - {ws} == w.rows - {ws};
    Step1(s, c, DeletingTree(ws, cleanup), marked, s.shots, Delete(RemoveTree(true)),
      DeletingRow(ws, cleanup), bare, s.shots);
    Step1(s, c, DeletingRow(ws, cleanup), bare, s.shots, Delete(RemoveRow(true)), end, gone, Unsnapped(s.shots, ws));
    AndThen(Now(s, c, DeletingTree(ws, cleanup), marked, s.shots), c, [Delete(RemoveTree(true))],
      Now(s, c, DeletingRow(ws, cleanup), bare, s.shots), [Delete(RemoveRow(true))],
      Now(s, c, end, gone, Unsnapped(s.shots, ws)));
  }

  /** Delete: neither row nor directory nor snapshot rows are left; archives stay. */
  lemma DeleteSucceeds(s: State, c: CallId, ws: WsId)
    requires c !in s.calls && ws in s.spaces.rows
    ensures Goes(s, c,
      [Begin(CallDelete(ws))] + ([Delete(GetRow(true))] + [Delete(Mark(true))])
      + ([Delete(RemoveTree(true))] + [Delete(RemoveRow(true))]),
      Now(s, c, Ended(Ok), s.spaces.(rows := s.spaces.rows - {ws}, dirs := s.spaces.dirs - {ws}),
        Unsnapped(s.shots, ws)))
  {
    var w := s.spaces;
    var s1 := Now(s, c, DeletingGet(ws, false), w, s.shots);
    var s2 := Now(s, c, DeletingTree(ws, false), w.(rows := w.rows[ws := Deleting]), s.shots);
    var s3 := Now(s, c, Ended(Ok), w.(rows := w.rows - {ws}, dirs := w.dirs - {ws}), Unsnapped(s.shots, ws));
    OneStep(s, c, Begin(CallDelete(ws)));
    Marks(s, c, ws, false, w);
    Removes(s, c, ws, false, w);
    AndThen(s, c, [Begin(CallDelete(ws))], s1, [Delete(GetRow(true))] + [Delete(Mark(true))], s2);
    AndThen(s, c, [Begin(CallDelete(ws))] + ([Delete(GetRow(true))] + [Delete(Mark(true))]), s2,
      [Delete(RemoveTree(true))] + [Delete(RemoveRow(true))], s3);
  }

  /** Delete of an unknown workspace changes nothing. */
  lemma DeleteFindsNothing(s: State, c: CallId, ws: WsId)
    requires c !in s.calls && ws !in s.spaces.rows
    ensures Goes(s, c, [Begin(CallDelete(ws))] + [Delete(GetRow(true))], Now(s, c, Ended(NotFound), s.spaces, s.shots))
  {
    OneStep(s, c, Begin(CallDelete(ws)));
    Step1(s, c, DeletingGet(ws, false), s.spaces, s.shots, Delete(GetRow(true)), Ended(NotFound), s.spaces, s.shots);
    AndThen(s, c, [Begin(CallDelete(ws))], Now(s, c, DeletingGet(ws, false), s.spaces, s.shots),
      [Delete(GetRow(true))], Now(s, c, Ended(NotFound), s.spaces, s.shots));
  }

  /** Delete that cannot remove the tree, or then the row, leaves the row marked. */
  lemma DeleteStops(s: State, c: CallId, ws: WsId, w: Spaces, cleanup: bool)
    requires ws in w.rows && w.rows[ws] == Deleting
    ensures Goes(Now(s, c, DeletingTree(ws, cleanup), w, s.shots), c, [Delete(RemoveTree(false))],
      Now(s, c, Ended(FileFailed), w, s.shots))
    ensures Goes(Now(s, c, DeletingRow(ws, cleanup), w, s.shots), c, [Delete(RemoveRow(false))],
      Now(s, c, Ended(StoreFailed), w, s.shots))
  {
    Step1(s, c, DeletingTree(ws, cleanup), w, s.shots, Delete(RemoveTree(false)), Ended(FileFailed), w, s.shots);
    Step1(s, c, DeletingRow(ws, cleanup), w, s.shots, Delete(RemoveRow(false)), Ended(StoreFailed), w, s.shots);
  }

  /** Delete whose look-up or marking fails, or finds that the row has gone in between, changes nothing. */
  lemma DeleteNeverStarts(s: State, c: CallId, ws: WsId, w: Spaces, cleanup: bool)
    ensures Goes(Now(s, c, DeletingGet(ws, cleanup), w, s.shots), c, [Delete(GetRow(false))],
      Now(s, c, Ended(StoreFailed), w, s.shots))
    ensures Goes(Now(s, c, DeletingMark(ws, cleanup), w, s.shots), c, [Delete(Mark(false))],
      Now(s, c, Ended(StoreFailed), w, s.shots))
    ensures ws !in w.rows ==>
      Goes(Now(s, c, DeletingMark(ws, cleanup), w, s.shots), c, [Delete(Mark(true))],
        Now(s, c, Ended(StoreFailed), w, s.shots))
  {
    var n := s.shots;
    Step1(s, c, DeletingGet(ws, cleanup), w, n, Delete(GetRow(false)), Ended(StoreFailed), w, n);
    Step1(s, c, DeletingMark(ws, cleanup), w, n, Delete(Mark(false)), Ended(StoreFailed), w, n);
    if ws !in w.rows {
      Step1(s, c, DeletingMark(ws, cleanup), w, n, Delete(Mark(true)), Ended(StoreFailed), w, n);
    }
  }

  /** Whoever removes the row second is told so. */
  lemma RowHasGone(s: State, c: CallId, ws: WsId, w: Spaces, cleanup: bool)
    requires ws !in w.rows
    ensures Goes(Now(s, c, DeletingRow(ws, cleanup), w, s.shots), c, [Delete(RemoveRow(true))],
      Now(s, c, Ended(StoreFailed), w, s.shots))
  {
    Step1(s, c, DeletingRow(ws, cleanup), w, s.shots, Delete(RemoveRow(true)), Ended(StoreFailed), w, s.shots);
  }

  // ---- Snapshots --------------------------------------------------------------------------

  function Written(n: Shots, x: SnapId): Shots { n.(archives := n.archives + {x}, used := n.used + {x}) }

  /** Snapshot: one archive and its row more. */
  lemma SnapshotSucceeds(s: State, c: CallId, ws: WsId, x: SnapId)
    requires c !in s.calls && ws in s.spaces.rows && ws in s.spaces.dirs && x !in s.shots.used
    ensures var n := s.shots;
      Goes(s, c, [Begin(CallSnapshot(ws))] + [Save(WriteArchive(x, true, false))] + [Save(InsertSnap(true, true))],
        Now(s, c, Ended(Ok), s.spaces,
          Written(n, x).(rows := n.rows[x := ws], recorded := n.recorded[x := ws])))
  {
    var w, n := s.spaces, s.shots;
    var last := Written(n, x).(rows := n.rows[x := ws], recorded := n.recorded[x := ws]);
    OneStep(s, c, Begin(CallSnapshot(ws)));
    Step1(s, c, Archiving(ws), w, n, Save(WriteArchive(x, true, false)), InsertingSnap(ws, x), w, Written(n, x));
    AndThen(s, c, [Begin(CallSnapshot(ws))], Now(s, c, Archiving(ws), w, n), [Save(WriteArchive(x, true, false))],
      Now(s, c, InsertingSnap(ws, x), w, Written(n, x)));
    Step1(s, c, InsertingSnap(ws, x), w, Written(n, x), Save(InsertSnap(true, true)), Ended(Ok), w, last);
    AndThen(s, c, [Begin(CallSnapshot(ws))] + [Save(WriteArchive(x, true, false))],
      Now(s, c, InsertingSnap(ws, x), w, Written(n, x)), [Save(InsertSnap(true, true))], Now(s, c, Ended(Ok), w, last));
  }

  /** Snapshot whose insert fails and is rolled back leaves no archive. */
  lemma SnapshotRollsBack(s: State, c: CallId, ws: WsId, x: SnapId)
    requires c !in s.calls && ws in s.spaces.rows && ws in s.spaces.dirs && x !in s.shots.used && x !in s.shots.archives
    ensures Goes(s, c,
      [Begin(CallSnapshot(ws))] + [Save(WriteArchive(x, true, false))] + [Save(InsertSnap(false, true))],
      Now(s, c, Ended(StoreFailed), s.spaces, s.shots.(used := s.shots.used + {x})))
  {
    var w, n := s.spaces, s.shots;
    var last := n.(used := n.used + {x});
    assert n.archives + {x} - {x} == n.archives;
    OneStep(s, c, Begin(CallSnapshot(ws)));
    Step1(s, c, Archiving(ws), w, n, Save(WriteArchive(x, true, false)), InsertingSnap(ws, x), w, Written(n, x));
    AndThen(s, c, [Begin(CallSnapshot(ws))], Now(s, c, Archiving(ws), w, n), [Save(WriteArchive(x, true, false))],
      Now(s, c, InsertingSnap(ws, x), w, Written(n, x)));
    Step1(s, c, InsertingSnap(ws, x), w, Written(n, x), Save(InsertSnap(false, true)), Ended(StoreFailed), w, last);
    AndThen(s, c, [Begin(CallSnapshot(ws))] + [Save(WriteArchive(x, true, false))],
      Now(s, c, InsertingSnap(ws, x), w, Written(n, x)), [Save(InsertSnap(false, true))],
      Now(s, c, Ended(StoreFailed), w, last));
  }

  /** Snapshot whose write fails leaves nothing, or part of the archive; and nothing without the directory. */
  lemma SnapshotBreaksOff(s: State, c: CallId, ws: WsId, x: SnapId, ok: bool, half: bool)
    requires c !in s.calls && ws in s.spaces.rows && x !in s.shots.used && (ws in s.spaces.dirs ==> !ok)
    ensures var n := s.shots;
      Goes(s, c, [Begin(CallSnapshot(ws))] + [Save(WriteArchive(x, ok, half))],
        Now(s, c, Ended(FileFailed), s.spaces,
          if half && ws in s.spaces.dirs then Written(n, x).(broken := n.broken + {x}) else n))
  {
    var n := s.shots;
    var after := if half && ws in s.spaces.dirs then Written(n, x).(broken := n.broken + {x}) else n;
    OneStep(s, c, Begin(CallSnapshot(ws)));
    Step1(s, c, Archiving(ws), s.spaces, n, Save(WriteArchive(x, ok, half)), Ended(FileFailed), s.spaces, after);
    AndThen(s, c, [Begin(CallSnapshot(ws))], Now(s, c, Archiving(ws), s.spaces, n),
      [Save(WriteArchive(x, ok, half))], Now(s, c, Ended(FileFailed), s.spaces, after));
  }

  /** Snapshot of an unknown workspace, and restore of an unknown snapshot, change nothing. */
  lemma NothingToCopy(s: State, c: CallId, ws: WsId, x: SnapId)
    requires c !in s.calls
    ensures ws !in s.spaces.rows ==>
      Goes(s, c, [Begin(CallSnapshot(ws))], Now(s, c, Ended(NotFound), s.spaces, s.shots))
    ensures x !in s.shots.rows ==> Goes(s, c, [Begin(CallRestore(x))], Now(s, c, Ended(NotFound), s.spaces, s.shots))
  {
    OneStep(s, c, Begin(CallSnapshot(ws)));
    OneStep(s, c, Begin(CallRestore(x)));
  }

  // ---- Restoring --------------------------------------------------------------------------

  function CopySteps(x: SnapId, ws: WsId): seq<CallStep> {
    [Begin(CallRestore(x))] + [Make(FindSource)] + [Make(CopyWorkspace(ws))] + [Make(InsertWs(true, true))]
  }

  lemma MakesCopy(s: State, c: CallId, x: SnapId, ws: WsId)
    requires c !in s.calls && x in s.shots.rows && s.shots.rows[x] in s.spaces.rows && ws !in s.spaces.used
    ensures Goes(s, c, CopySteps(x, ws), Now(s, c, Created(ws, Some(x)), Opened(s.spaces, ws), s.shots))
  {
    var w, n, from := s.spaces, s.shots, s.shots.rows[x];
    var s1, s2 := Now(s, c, FindingSource(x, from), w, n), Now(s, c, StartingCopy(x), w, n);
    var s3 := Now(s, c, InsertingWs(ws, Some(x)), Made(w, ws), n);
    OneStep(s, c, Begin(CallRestore(x)));
    Step1(s, c, FindingSource(x, from), w, n, Make(FindSource), StartingCopy(x), w, n);
    AndThen(s, c, [Begin(CallRestore(x))], s1, [Make(FindSource)], s2);
    Step1(s, c, StartingCopy(x), w, n, Make(CopyWorkspace(ws)), InsertingWs(ws, Some(x)), Made(w, ws), n);
    AndThen(s, c, [Begin(CallRestore(x))] + [Make(FindSource)], s2, [Make(CopyWorkspace(ws))], s3);
    InsertsRow(s, c, ws, Some(x), true);
    AndThen(s, c, [Begin(CallRestore(x))] + [Make(FindSource)] + [Make(CopyWorkspace(ws))], s3,
      [Make(InsertWs(true, true))], Now(s, c, Created(ws, Some(x)), Opened(w, ws), n));
  }

  /**
   * Restore: one ready row and its directory more.  If `.forge/exec` is blocked the call raises and
   * leaves them; if the wipe breaks off the row is left without its directory.
   */
  lemma RestoreEnds(s: State, c: CallId, x: SnapId, ws: WsId, fill: Fill)
    requires c !in s.calls && x in s.shots.rows && s.shots.rows[x] in s.spaces.rows && ws !in s.spaces.used
    requires !fill.BadArchive? && (fill.Filled? ==> x in s.shots.archives)
    ensures var w := Opened(s.spaces, ws);
      Goes(s, c, CopySteps(x, ws) + [Make(Resume(fill))],
        Now(s, c, Ended(if fill.Filled? then Ok else FileFailed),
          if fill.WipeBroke? then w.(dirs := w.dirs - {ws}, lost := w.lost + {ws}) else w, s.shots))
  {
    var w := Opened(s.spaces, ws);
    var after := if fill.WipeBroke? then w.(dirs := w.dirs - {ws}, lost := w.lost + {ws}) else w;
    var end := Ended(if fill.Filled? then Ok else FileFailed);
    MakesCopy(s, c, x, ws);
    Step1(s, c, Created(ws, Some(x)), w, s.shots, Make(Resume(fill)), end, after, s.shots);
    AndThen(s, c, CopySteps(x, ws), Now(s, c, Created(ws, Some(x)), w, s.shots), [Make(Resume(fill))],
      Now(s, c, end, after, s.shots));
  }

  /** Restore of a bad archive goes on to delete the new workspace. */
  lemma RestoreCleansUp(s: State, c: CallId, x: SnapId, ws: WsId)
    requires c !in s.calls && x in s.shots.rows && s.shots.rows[x] in s.spaces.rows && ws !in s.spaces.used
    ensures Goes(s, c, CopySteps(x, ws) + [Make(Resume(BadArchive))],
      Now(s, c, DeletingGet(ws, true), Opened(s.spaces, ws), s.shots))
  {
    var w := Opened(s.spaces, ws);
    MakesCopy(s, c, x, ws);
    Step1(s, c, Created(ws, Some(x)), w, s.shots, Make(Resume(BadArchive)), DeletingGet(ws, true), w, s.shots);
    AndThen(s, c, CopySteps(x, ws), Now(s, c, Created(ws, Some(x)), w, s.shots), [Make(Resume(BadArchive))],
      Now(s, c, DeletingGet(ws, true), w, s.shots));
  }

  /** If the source workspace has gone in between, restore finds nothing and changes nothing. */
  lemma SourceHasGone(s: State, c: CallId, x: SnapId, from: WsId, w: Spaces)
    requires from !in w.rows
    ensures Goes(Now(s, c, FindingSource(x, from), w, s.shots), c, [Make(FindSource)],
      Now(s, c, Ended(NotFound), w, s.shots))
  {
    Step1(s, c, FindingSource(x, from), w, s.shots, Make(FindSource), Ended(NotFound), w, s.shots);
  }

  /** Without its archive no restore succeeds. */
  lemma NoRestoreWithoutArchive(s: State, c: CallId, a: CallStep)
    requires Enabled(s, c, a) && c in s.calls && s.calls[c].Created? && s.calls[c].source.Some?
    requires s.calls[c].source.value !in s.shots.archives
    ensures Do(s, c, a).calls[c] != Ended(Ok)
  {
  }

  /** If the new directory has gone in between, restore raises and changes nothing, whatever the archive. */
  lemma DirectoryHasGone(s: State, c: CallId, x: SnapId, ws: WsId, fill: Fill, w: Spaces)
    requires ws !in w.dirs && (fill.Filled? ==> x in s.shots.archives)
    ensures Goes(Now(s, c, Created(ws, Some(x)), w, s.shots), c, [Make(Resume(fill))],
      Now(s, c, Ended(FileFailed), w, s.shots))
  {
    Step1(s, c, Created(ws, Some(x)), w, s.shots, Make(Resume(fill)), Ended(FileFailed), w, s.shots);
  }
}
