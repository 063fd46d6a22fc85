/** The server-sent events of one workspace: the server's frames and the client's buffering loop. */
module EventStream {
  import opened Prelude
  import opened PathText
  import opened TextLines

  /** What goes on the wire for one event: its kind and its encoded payload. */
  datatype Frame = Frame(kind: string, payload: string)

  const FIELD := "data: "

  /** `_sse`, one event, without the blank line that ends it. */
  function Body(f: Frame): string { "event: " + f.kind + "\n" + (FIELD + f.payload) }

  function Print(f: Frame): string { Body(f) + "\n\n" }

  function Stream(frames: seq<Frame>): string { if frames == [] then "" else Print(frames[0]) + Stream(frames[1..]) }

  // ---- The client -------------------------------------------------------------------------

  predicate BlankAt(s: string, i: int) { 0 <= i < |s| - 1 && s[i] == '\n' && s[i + 1] == '\n' }

  /** Where the first `"\n\n"` of `s` is, or its length if there is none. */
  function FirstBlank(s: string): (n: nat)
    ensures n <= |s| && (n < |s| ==> BlankAt(s, n))
    ensures forall i :: 0 <= i < n ==> !BlankAt(s, i)
  {
    if s == "" then 0
    else if BlankAt(s, 0) then 0
    else
      var n := FirstBlank(s[1..]);
      assert forall i :: 0 <= i < |s| - 1 ==> BlankAt(s, i + 1) == BlankAt(s[1..], i);
      assert forall i :: 1 <= i < 1 + n ==> !BlankAt(s, i) by {
        forall i | 1 <= i < 1 + n
          ensures !BlankAt(s, i)
        {
          assert !BlankAt(s[1..], i - 1);
        }
      }
      1 + n
  }

  predicate HasBlank(s: string) { FirstBlank(s) < |s| }

  /** The payloads of the `data: ` lines among `lines`. */
  function DataOf(lines: seq<string>): seq<string> {
    if lines == [] then []
    else
      var line := lines[|lines| - 1];
      DataOf(lines[..|lines| - 1]) + if StartsWith(line, FIELD) then [line[|FIELD|..]] else []
  }

  /** All payloads in the complete blocks of `s`, and what is left after the last blank line. */
  function Payloads(s: string): seq<string>
    decreases |s|
  {
    var n := FirstBlank(s);
    if n == |s| then [] else DataOf(SplitLines(s[..n])) + Payloads(s[n + 2..])
  }

  function Leftover(s: string): string
    decreases |s|
  {
    var n := FirstBlank(s);
    if n == |s| then s else Leftover(s[n + 2..])
  }

  ghost predicate Printable(f: Frame) { BreakFree(f.kind) && BreakFree(f.payload) }

  function PayloadsOf(frames: seq<Frame>): (r: seq<string>)
    ensures |r| == |frames| && forall i :: 0 <= i < |r| ==> r[i] == frames[i].payload
  {
    if frames == [] then [] else [frames[0].payload] + PayloadsOf(frames[1..])
  }

  /** `chunks` is some way of cutting up what the server printed for `frames`. */
  ghost predicate Carries(chunks: seq<string>, frames: seq<Frame>) {
    Flatten(chunks) == Stream(frames) && forall i :: 0 <= i < |frames| ==> Printable(frames[i])
  }

  /**
   * The buffering loop of `subscribe`: however the stream is cut, it yields what the whole stream
   * holds; and if that is what the server printed, it yields exactly the events printed.
   */
  method Subscribe(chunks: seq<string>) returns (out: seq<string>, buf: string)
    ensures out == Payloads(Flatten(chunks)) && buf == Leftover(Flatten(chunks))
    ensures forall frames :: Carries(chunks, frames) ==> out == PayloadsOf(frames) && buf == ""
  {
    forall frames | Carries(chunks, frames)
      ensures Payloads(Flatten(chunks)) == PayloadsOf(frames) && Leftover(Flatten(chunks)) == ""
    {
      StreamRoundTrips(frames);
    }
    out, buf := [], "";
    for i := 0 to |chunks|
      invariant out == Payloads(Flatten(chunks[..i])) && buf == Leftover(Flatten(chunks[..i]))
    {
      ghost var seen := Flatten(chunks[..i]);
      FlattenSnoc(chunks[..i], chunks[i]);
      assert chunks[..i] + [chunks[i]] == chunks[..i + 1];
      ParseAppend(seen, chunks[i]);
      buf := buf + chunks[i];
      var found: seq<string>;
      found, buf := DrainBlocks(buf);
      out := out + found;
    }
    assert chunks[..|chunks|] == chunks;
  }

  /** `while "\n\n" in buf`. */
  method DrainBlocks(text: string) returns (out: seq<string>, buf: string)
    ensures out == Payloads(text) && buf == Leftover(text)
  {
    out, buf := [], text;
    while HasBlank(buf)
      invariant out + Payloads(buf) == Payloads(text) && Leftover(buf) == Leftover(text)
      decreases |buf|
    {
      var n := FirstBlank(buf);
      var raw := buf[..n];
      buf := buf[n + 2..];
      var found := DataLines(SplitLines(raw));
      out := out + found;
    }
  }

  /** `for line in raw.splitlines()`. */
  method DataLines(lines: seq<string>) returns (out: seq<string>)
    ensures out == DataOf(lines)
  {
    out := [];
    for i := 0 to |lines|
      invariant out == DataOf(lines[..i])
    {
      assert lines[..i + 1][..i] == lines[..i];
      if StartsWith(lines[i], FIELD) { out := out + [lines[i][|FIELD|..]]; }
    }
    assert lines[..|lines|] == lines;
  }

  // ---- What the payloads are --------------------------------------------------------------

  /** A line with the field contributes its rest, any other line nothing. */
  lemma DataOfLine(line: string)
    ensures StartsWith(line, "data: ") ==> DataOf([line]) == [line[6..]]
    ensures !StartsWith(line, "data: ") ==> DataOf([line]) == []
  {
    assert [line][..0] == [];
  }

  /** Lines contribute one after the other. */
  lemma {:induction false} DataOfConcat(a: seq<string>, b: seq<string>)
    ensures DataOf(a + b) == DataOf(a) + DataOf(b)
  {
    if b == [] {
      assert a + b == a;
    } else {
      var rest, last := b[..|b| - 1], b[|b| - 1];
      DataOfConcat(a, rest);
      assert (a + b)[..|a + b| - 1] == a + rest;
      Regroup(DataOf(a), DataOf(rest), if StartsWith(last, FIELD) then [last[|FIELD|..]] else []);
    }
  }

  /** A block up to the first blank line contributes its lines, and then the rest of the stream its blocks. */
  lemma BlockThenRest(block: string, rest: string)
    requires forall i :: 0 <= i <= |block| - 1 ==> !BlankAt(block + "\n\n" + rest, i)
    ensures Payloads(block + "\n\n" + rest) == DataOf(SplitLines(block)) + Payloads(rest)
    ensures Leftover(block + "\n\n" + rest) == Leftover(rest)
  {
    var s, n := block + "\n\n" + rest, |block|;
    assert BlankAt(s, n);
    assert FirstBlank(s) == n;
    assert s[..n] == block && s[n + 2..] == rest;
  }

  /** Without a blank line nothing is yielded and everything is kept. */
  lemma NoBlockYet(s: string)
    requires forall i :: !BlankAt(s, i)
    ensures Payloads(s) == [] && Leftover(s) == s
  {
  }

  /** A blank line found in a prefix is the first one of the whole. */
  lemma FirstBlankStays(s: string, t: string)
    requires HasBlank(s)
    ensures FirstBlank(s + t) == FirstBlank(s)
  {
    var n, m := FirstBlank(s), FirstBlank(s + t);
    assert BlankAt(s + t, n);
    assert m < n ==> BlankAt(s, m);
  }

  /** Parsing a longer stream is going on with what was left over. */
  lemma {:induction false} ParseAppend(s: string, t: string)
    ensures Payloads(s + t) == Payloads(s) + Payloads(Leftover(s) + t)
    ensures Leftover(s + t) == Leftover(Leftover(s) + t)
    decreases |s|
  {
    if HasBlank(s) {
      var n := FirstBlank(s);
      FirstBlankStays(s, t);
      assert (s + t)[..n] == s[..n] && (s + t)[n + 2..] == s[n + 2..] + t;
      ParseAppend(s[n + 2..], t);
    }
  }

  // ---- The round trip ---------------------------------------------------------------------

  /** The first blank line of two lines ended by one is at their end. */
  lemma FirstBlankOfTwo(a: string, b: string, rest: string)
    requires BreakFree(a) && BreakFree(b) && b != ""
    ensures FirstBlank(a + "\n" + b + "\n\n" + rest) == |a| + 1 + |b|
  {
    var s, n := a + "\n" + b + "\n\n" + rest, |a| + 1 + |b|;
    assert s[n] == '\n' && s[n + 1] == '\n' && s[|a| + 1] == b[0];
    assert BlankAt(s, n);
    forall i | 0 <= i < n
      ensures !BlankAt(s, i)
    {
      assert s[i] == if i < |a| then a[i] else if i == |a| then '\n' else b[i - |a| - 1];
    }
  }

  lemma FirstBlankOfPrint(f: Frame, rest: string)
    requires Printable(f)
    ensures FirstBlank(Print(f) + rest) == |Body(f)|
  {
    var a, b := "event: " + f.kind, FIELD + f.payload;
    assert BreakFree(a) && BreakFree(b);
    FirstBlankOfTwo(a, b, rest);
    assert Print(f) + rest == a + "\n" + b + "\n\n" + rest;
  }

  lemma {:induction false} BreakFreeLine(s: string)
    requires BreakFree(s)
    ensures LineLength(s) == |s| && Bare(s) == s
  {
    if s == "" {
    } else {
      BreakFreeLine(s[1..]);
    }
  }

  lemma {:induction false} LineEndsHere(a: string, rest: string)
    requires BreakFree(a)
    ensures LineLength(a + "\n" + rest) == |a| + 1
  {
    if a == "" {
    } else {
      LineEndsHere(a[1..], rest);
      assert (a + "\n" + rest)[1..] == a[1..] + "\n" + rest;
    }
  }

  lemma BodyLines(f: Frame)
    requires Printable(f)
    ensures SplitLines(Body(f)) == ["event: " + f.kind, FIELD + f.payload]
  {
    var a, b := "event: " + f.kind, FIELD + f.payload;
    assert BreakFree(a) && BreakFree(b);
    assert Body(f) == a + "\n" + b;
    LineEndsHere(a, b);
    assert Body(f)[..|a| + 1] == a + "\n" && Body(f)[|a| + 1..] == b;
    BreakFreeLine(a);
    BreakFreeLine(b);
    assert SplitKeep(b) == [b] by { assert b[..|b|] == b && b[|b|..] == ""; }
    assert SplitKeep(Body(f)) == [a + "\n"] + [b];
    assert Bare(a + "\n") == Bare(a) by { assert (a + "\n")[..|a|] == a; }
  }

  lemma BodyPayload(f: Frame)
    requires Printable(f)
    ensures DataOf(SplitLines(Body(f))) == [f.payload]
  {
    BodyLines(f);
    var a, b := "event: " + f.kind, FIELD + f.payload;
    assert !StartsWith(a, FIELD) by { assert a[0] == 'e'; }
    assert StartsWith(b, FIELD) && b[|FIELD|..] == f.payload;
    var none: seq<string> := [];
    assert [a, b][..1] == [a] && [a][..0] == none;
    assert DataOf([a]) == none + none;
  }

  /** Every sequence of events comes back in order, and nothing is left in the buffer. */
  lemma {:induction false} StreamRoundTrips(frames: seq<Frame>)
    requires forall i :: 0 <= i < |frames| ==> Printable(frames[i])
    ensures Payloads(Stream(frames)) == PayloadsOf(frames)
    ensures Leftover(Stream(frames)) == ""
  {
    if frames == [] {
    } else {
      PrintThenRest(frames[0], Stream(frames[1..]));
      StreamRoundTrips(frames[1..]);
    }
  }

  lemma PrintThenRest(f: Frame, rest: string)
    requires Printable(f)
    ensures Payloads(Print(f) + rest) == [f.payload] + Payloads(rest)
    ensures Leftover(Print(f) + rest) == Leftover(rest)
  {
    var s, n := Print(f) + rest, |Body(f)|;
    FirstBlankOfPrint(f, rest);
    BodyPayload(f);
    assert s[..n] == Body(f) && s[n + 2..] == rest;
  }
}
