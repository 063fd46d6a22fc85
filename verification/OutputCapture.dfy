/** Capped output of one execution, where it is recorded, and what a replay of it returns. */
module OutputCapture {
  import opened Prelude
  import opened TextLines
  import X = ExecutionProtocol

  // ---- _drain -----------------------------------------------------------------------------

  /** The first `limit` elements. */
  function Cap<T>(s: seq<T>, limit: int): seq<T> {
    if limit <= 0 then [] else if limit < |s| then s[..limit] else s
  }

  /**
   * The buffer holds exactly the first `limit` bytes of everything read, and `truncated` is set as
   * soon as that many have arrived, even if nothing follows.  For a limit of zero or less any
   * chunk sets it.
   */
  method Drain<T>(chunks: seq<seq<T>>, limit: int) returns (buf: seq<T>, truncated: bool)
    ensures buf == Cap(Flatten(chunks), limit)
    ensures truncated <==> chunks != [] && |Flatten(chunks)| >= limit
  {
    buf, truncated := [], false;
    for i := 0 to |chunks|
      invariant buf == Cap(Flatten(chunks[..i]), limit)
      invariant truncated <==> i > 0 && |Flatten(chunks[..i])| >= limit
    {
      var chunk := chunks[i];
      FlattenSnoc(chunks[..i], chunk);
      assert chunks[..i] + [chunk] == chunks[..i + 1];
      if !truncated {
        var remaining := limit - |buf|;
        if remaining <= 0 {
          truncated := true;
          continue;
        }
        buf := buf + Cap(chunk, remaining);
        if |buf| >= limit { truncated := true; }
      }
    }
    assert chunks[..|chunks|] == chunks;
  }

  // ---- exec and its replay ----------------------------------------------------------------

  datatype DriverResult = DriverResult(output: string, exitCode: int, truncated: bool)

  /** A command that has ended: the time it took by the monotonic clock, its start and end by the wall clock. */
  datatype Run = Run(result: DriverResult, elapsedUs: int, startedUs: int, finishedUs: int)

  datatype ExecutionResult = ExecutionResult(
    id: string, output: string, exitCode: int, truncated: bool, outputPath: Option<string>, durationMs: int)

  /** The columns of a terminal row that a replay reads; times are in microseconds. */
  datatype Row = Row(
    exitCode: Option<int>, truncated: bool, outputPath: Option<string>, startedAt: Option<int>, finishedAt: Option<int>)

  /** `int(... * 1000)` of a time in seconds: truncation toward zero. */
  function Millis(us: int): (ms: int)
    ensures us >= 0 ==> 1000 * ms <= us < 1000 * (ms + 1)
    ensures us < 0 ==> 1000 * (ms - 1) < us <= 1000 * ms
  {
    if us >= 0 then us / 1000 else -(-us / 1000)
  }

  function LogPath(id: string): string { ".forge/exec/" + id + ".log" }

  /** What the call that ran the command returns. */
  function Answer(id: string, run: Run): ExecutionResult {
    var d := run.result;
    ExecutionResult(
      id, d.output, d.exitCode, d.truncated, if d.truncated then Some(LogPath(id)) else None, Millis(run.elapsedUs))
  }

  /** The row `exec` leaves. */
  function RowOf(id: string, run: Run): Row {
    Row(Some(run.result.exitCode), run.result.truncated, Answer(id, run).outputPath,
      Some(run.startedUs), Some(run.finishedUs))
  }

  /**
   * `again` is `first` but for the text and the duration; each of these is the same exactly under
   * the condition given.
   */
  predicate Repeats(again: ExecutionResult, first: ExecutionResult, run: Run) {
    var d := run.result;
    && again.(output := first.output, durationMs := first.durationMs) == first
    && (again.output == first.output <==> if d.truncated then '\r' !in d.output else d.output == "")
    && (again.durationMs == first.durationMs <==> Millis(run.finishedUs - run.startedUs) == Millis(run.elapsedUs))
  }

  lemma LogsAreDistinct(id: string)
    ensures forall x :: LogPath(x) == LogPath(id) ==> x == id
  {
    forall x | LogPath(x) == LogPath(id)
      ensures x == id
    {
      LogNamesItsExecution(x);
      LogNamesItsExecution(id);
    }
  }

  lemma LogNamesItsExecution(id: string)
    ensures |LogPath(id)| == |id| + 16 && LogPath(id)[12..12 + |id|] == id
  {
    assert LogPath(id) == ".forge/exec/" + (id + ".log");
  }

  /** `read_text`: CR LF and CR become LF. */
  function UniversalNewlines(s: string): string {
    if s == "" then ""
    else if s[0] == '\r' then "\n" + UniversalNewlines(if |s| > 1 && s[1] == '\n' then s[2..] else s[1..])
    else [s[0]] + UniversalNewlines(s[1..])
  }

  /** The metadata table and the workspace's files, as one execution leaves and finds them. */
  class ExecutionLog {
    var rows: map<string, Row>
    var files: map<string, string>

    constructor ()
      ensures rows == map[] && files == map[]
    {
      rows, files := map[], map[];
    }

    /** Execution `id` has finished as `run`, and nobody has touched its row since. */
    ghost predicate Completed(id: string, run: Run)
      reads this
    {
      id in rows && rows[id] == RowOf(id, run)
    }

    /** Nor its log. */
    ghost predicate Recorded(id: string, run: Run)
      reads this
    {
      && Completed(id, run)
      && (run.result.truncated ==> LogPath(id) in files && files[LogPath(id)] == run.result.output)
    }

    /** Execution `id` has failed in the driver or before, and nobody has touched its row since. */
    ghost predicate Failed(id: string, startedUs: int, finishedUs: int)
      reads this
    {
      id in rows && rows[id] == Row(None, false, None, Some(startedUs), Some(finishedUs))
    }

    /**
     * The end of `exec`: spill the captured output if it was truncated, then complete the row.  The
     * execution is recorded, and whatever other execution was recorded still is: no two share a log.
     */
    method Complete(id: string, run: Run) returns (r: ExecutionResult)
      modifies this
      ensures r == Answer(id, run) && Recorded(id, run)
      ensures forall x, y :: x != id && old(Recorded(x, y)) ==> Recorded(x, y)
      ensures forall x, from, to :: x != id && old(Failed(x, from, to)) ==> Failed(x, from, to)
      ensures rows == old(rows)[id := RowOf(id, run)]
      ensures files == if run.result.truncated then old(files)[LogPath(id) := run.result.output] else old(files)
    {
      var d, path := run.result, None;
      LogsAreDistinct(id);
      if d.truncated {
        files := files[LogPath(id) := d.output];
        path := Some(LogPath(id));
      }
      rows := rows[id := Row(Some(d.exitCode), d.truncated, path, Some(run.startedUs), Some(run.finishedUs))];
      r := ExecutionResult(id, d.output, d.exitCode, d.truncated, path, Millis(run.elapsedUs));
    }

    /**
     * The end of `exec` when the session or the driver has raised: the row is completed without an
     * exit code, nothing is spilled, and the call raises as well.
     */
    method Fail(id: string, startedUs: int, finishedUs: int)
      modifies this
      ensures Failed(id, startedUs, finishedUs) && files == old(files)
      ensures forall x, y :: x != id && old(Recorded(x, y)) ==> Recorded(x, y)
      ensures forall x, from, to :: x != id && old(Failed(x, from, to)) ==> Failed(x, from, to)
    {
      rows := rows[id := Row(None, false, None, Some(startedUs), Some(finishedUs))];
    }

    /** The log is deleted from the workspace. */
    method DeleteLog(id: string)
      modifies this
      ensures rows == old(rows) && files == old(files) - {LogPath(id)}
      ensures forall x, y :: x != id && old(Recorded(x, y)) ==> Recorded(x, y)
      ensures forall x, y :: old(Completed(x, y)) ==> Completed(x, y)
    {
      LogsAreDistinct(id);
      files := files - {LogPath(id)};
    }

    /**
     * `_result_from_terminal_execution`.  For a recorded execution it repeats the first answer: the
     * text exactly if that was truncated and has no carriage return, or empty; the duration exactly
     * if both clocks tell the same.  Without the log the text is empty and the rest as before.  An
     * execution that failed in the driver or before is reported as exit code -1, with no output.
     */
    method Replay(id: string) returns (r: ExecutionResult)
      requires id in rows
      ensures r == Replayed(id, rows[id], files)
      ensures forall run :: Recorded(id, run) ==> Repeats(r, Answer(id, run), run)
      ensures forall run :: Completed(id, run) && LogPath(id) !in files ==>
                r == Answer(id, run).(output := "", durationMs := Millis(run.finishedUs - run.startedUs))
      ensures forall from, to :: Failed(id, from, to) ==>
                r == ExecutionResult(id, "", -1, false, None, Millis(to - from))
      ensures forall row: X.Row :: row.code == rows[id].exitCode ==> r.exitCode == X.Report(row)
      ensures rows[id].startedAt.None? || rows[id].finishedAt.None? ==> r.durationMs == 0
      ensures rows[id].outputPath.None? || rows[id].outputPath == Some("") ==> r.output == ""
    {
      forall run | Recorded(id, run)
        ensures Repeats(Replayed(id, rows[id], files), Answer(id, run), run)
      {
        ReplayRepeatsTheAnswer(id, run, files);
      }
      var row := rows[id];
      var output := "";
      if row.outputPath.Some? && row.outputPath.value != "" && row.outputPath.value in files {
        output := UniversalNewlines(files[row.outputPath.value]);
      }
      var code := if row.exitCode.Some? then row.exitCode.value else -1;
      var duration := 0;
      if row.startedAt.Some? && row.finishedAt.Some? {
        duration := Millis(row.finishedAt.value - row.startedAt.value);
      }
      r := ExecutionResult(id, output, code, row.truncated, row.outputPath, duration);
    }
  }

  function Replayed(id: string, row: Row, files: map<string, string>): ExecutionResult {
    ExecutionResult(id,
      if row.outputPath.Some? && row.outputPath.value != "" && row.outputPath.value in files
        then UniversalNewlines(files[row.outputPath.value]) else "",
      if row.exitCode.Some? then row.exitCode.value else -1, row.truncated, row.outputPath,
      if row.startedAt.Some? && row.finishedAt.Some? then Millis(row.finishedAt.value - row.startedAt.value) else 0)
  }

  lemma {:induction false} NewlinesPass(a: string, rest: string)
    requires '\r' !in a
    ensures UniversalNewlines(a + rest) == a + UniversalNewlines(rest)
  {
    if a == "" {
      assert a + rest == rest;
    } else {
      NewlinesPass(a[1..], rest);
      assert a == [a[0]] + a[1..] && a + rest == [a[0]] + (a[1..] + rest);
      NewlinesAfter(a[0], a[1..] + rest);
      Regroup([a[0]], a[1..], UniversalNewlines(rest));
    }
  }

  lemma NewlinesAfter(c: char, rest: string)
    requires c != '\r'
    ensures UniversalNewlines([c] + rest) == [c] + UniversalNewlines(rest)
  {
    assert ([c] + rest)[1..] == rest;
  }

  lemma LineEndMeans(b: string)
    ensures UniversalNewlines("\r\n" + b) == "\n" + UniversalNewlines(b)
    ensures UniversalNewlines("\n" + b) == "\n" + UniversalNewlines(b)
    ensures b == "" || b[0] != '\n' ==> UniversalNewlines("\r" + b) == "\n" + UniversalNewlines(b)
  {
    assert ("\r\n" + b)[2..] == b && ("\r" + b)[1..] == b && ("\n" + b)[1..] == b;
  }

  /** Up to the first CR nothing changes; CR LF, and a CR without LF after it, become LF. */
  lemma NewlinesMean(a: string, b: string)
    requires '\r' !in a
    ensures UniversalNewlines(a) == a
    ensures UniversalNewlines(a + ("\r\n" + b)) == a + ("\n" + UniversalNewlines(b))
    ensures b == "" || b[0] != '\n' ==> UniversalNewlines(a + ("\r" + b)) == a + ("\n" + UniversalNewlines(b))
  {
    NewlinesKeepCrFree(a);
    LineEndMeans(b);
    NewlinesPass(a, "\r\n" + b);
    NewlinesPass(a, "\r" + b);
  }

  lemma {:induction false} NewlinesShorten(s: string)
    ensures |UniversalNewlines(s)| <= |s| && '\r' !in UniversalNewlines(s)
    decreases |s|
  {
    if s == "" {
    } else {
      NewlinesShorten(if s[0] == '\r' && |s| > 1 && s[1] == '\n' then s[2..] else s[1..]);
    }
  }

  lemma {:induction false} NewlinesKeepCrFree(s: string)
    requires '\r' !in s
    ensures UniversalNewlines(s) == s
  {
    if s == "" {
    } else {
      NewlinesKeepCrFree(s[1..]);
      assert s == [s[0]] + s[1..];
    }
  }

  /** Reading text back changes it exactly if it has a carriage return. */
  lemma NewlinesUnchangedIff(s: string)
    ensures UniversalNewlines(s) == s <==> '\r' !in s
  {
    NewlinesShorten(s);
    if '\r' !in s { NewlinesKeepCrFree(s); }
  }

  /**
   * If the log is left in place, a replay returns the same id, exit code, flag and path as the call
   * that ran; the same text exactly if the output was truncated and has no carriage return, or was
   * not truncated and is empty; and the same duration exactly if both clocks tell the same.
   */
  lemma ReplayRepeatsTheAnswer(id: string, run: Run, files: map<string, string>)
    requires run.result.truncated ==> LogPath(id) in files && files[LogPath(id)] == run.result.output
    ensures Repeats(Replayed(id, RowOf(id, run), files), Answer(id, run), run)
  {
    NewlinesUnchangedIff(run.result.output);
    assert LogPath(id)[0] == '.';
  }
}
