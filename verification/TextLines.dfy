/** `str.splitlines`, and reading a text file in windows of lines. */
module TextLines {
  import opened Prelude

  /** The characters at which `str.splitlines` ends a line. */
  predicate IsBreak(c: char) {
    c == '\n' || c == '\r' || 11 as char <= c <= 12 as char || 28 as char <= c <= 30 as char
    || c == 0x85 as char || c == 0x2028 as char || c == 0x2029 as char
  }

  /** By code point: LF, VT, FF, CR, FS, GS, RS, NEL, and the line and paragraph separators. */
  lemma BreaksAre(c: char)
    ensures IsBreak(c) <==> c as int in {10, 11, 12, 13, 28, 29, 30, 0x85, 0x2028, 0x2029}
  {
  }

  predicate BreakFree(s: string) { forall i :: 0 <= i < |s| ==> !IsBreak(s[i]) }

  /** The length of the first line, its terminator included; CR LF is one terminator. */
  function LineLength(text: string): (n: nat)
    ensures n <= |text| && (text != "" ==> n > 0)
  {
    if text == "" then 0
    else if text[0] == '\r' && |text| > 1 && text[1] == '\n' then 2
    else if IsBreak(text[0]) then 1
    else 1 + LineLength(text[1..])
  }

  /** `text.splitlines(keepends=True)`. */
  function SplitKeep(text: string): seq<string>
    decreases |text|
  {
    if text == "" then [] else [text[..LineLength(text)]] + SplitKeep(text[LineLength(text)..])
  }

  /** A line without its terminator. */
  function Bare(line: string): string
    decreases |line|
  {
    if line != "" && IsBreak(line[|line| - 1]) then Bare(line[..|line| - 1]) else line
  }

  /** `text.splitlines()`. */
  function SplitLines(text: string): seq<string> {
    var lines := SplitKeep(text);
    seq(|lines|, i requires 0 <= i < |lines| => Bare(lines[i]))
  }

  function Flatten<T>(parts: seq<seq<T>>): seq<T> { if parts == [] then [] else parts[0] + Flatten(parts[1..]) }

  lemma {:induction false} FlattenConcat<T>(a: seq<seq<T>>, b: seq<seq<T>>)
    ensures Flatten(a + b) == Flatten(a) + Flatten(b)
  {
    if a == [] {
      assert a + b == b;
    } else {
      FlattenConcat(a[1..], b);
      assert a + b == [a[0]] + (a[1..] + b);
      FlattenCons(a[0], a[1..] + b);
      Regroup(a[0], Flatten(a[1..]), Flatten(b));
    }
  }

  lemma FlattenCons<T>(x: seq<T>, rest: seq<seq<T>>)
    ensures Flatten([x] + rest) == x + Flatten(rest)
  {
    assert ([x] + rest)[1..] == rest;
  }

  lemma FlattenSnoc<T>(a: seq<seq<T>>, x: seq<T>)
    ensures Flatten(a + [x]) == Flatten(a) + x
  {
    FlattenConcat(a, [x]);
    assert [x][1..] == [];
  }

  /** Splitting keeps every character. */
  lemma {:induction false} SplitKeepsAll(text: string)
    ensures Flatten(SplitKeep(text)) == text
    decreases |text|
  {
    if text == "" {
    } else {
      var n := LineLength(text);
      SplitKeepsAll(text[n..]);
      FlattenCons(text[..n], SplitKeep(text[n..]));
    }
  }

  // ---- What the lines are -----------------------------------------------------------------

  /** One break character, or CR LF. */
  predicate IsTerminator(t: string) { t == "\r\n" || (|t| == 1 && IsBreak(t[0])) }

  /** A text without breaks and exactly one terminator after it. */
  predicate Ends(line: string, n: nat) { n <= |line| && BreakFree(line[..n]) && IsTerminator(line[n..]) }

  ghost predicate Terminated(line: string) { exists n :: Ends(line, n) }

  /**
   * Every line but the last is terminated; the last one is, or it is a text without breaks and not
   * empty; and no two lines meet between CR and LF.
   */
  ghost predicate ProperLines(lines: seq<string>) {
    && (forall i :: 0 <= i < |lines| ==>
          lines[i] != "" && (Terminated(lines[i]) || (i == |lines| - 1 && BreakFree(lines[i]))))
    && (forall i :: 0 <= i < |lines| - 1 ==> !Severed(lines[i], lines[i + 1]))
  }

  /** A CR at the end of `a` and an LF at the front of `b`. */
  predicate Severed(a: string, b: string) { a != "" && b != "" && a[|a| - 1] == '\r' && b[0] == '\n' }

  /** The first line ends with the first terminator, if there is one. */
  lemma {:induction false} FirstLine(text: string)
    requires text != ""
    ensures var n := LineLength(text);
      && (Terminated(text[..n]) || (n == |text| && BreakFree(text)))
      && !Severed(text[..n], text[n..])
  {
    var n := LineLength(text);
    if text[0] == '\r' && |text| > 1 && text[1] == '\n' {
      assert text[..2] == "\r\n";
      assert Ends(text[..n], 0);
    } else if IsBreak(text[0]) {
      assert Ends(text[..n], 0);
    } else if |text| == 1 {
    } else {
      var m := LineLength(text[1..]);
      FirstLine(text[1..]);
      assert text[..n][1..] == text[1..][..m] && text[n..] == text[1..][m..];
      if k :| Ends(text[1..][..m], k) { LongerLine(text[..n], k); }
    }
  }

  lemma LongerLine(line: string, k: nat)
    requires line != "" && !IsBreak(line[0]) && Ends(line[1..], k)
    ensures Ends(line, k + 1)
  {
    assert line[..k + 1][1..] == line[1..][..k] && line[k + 1..] == line[1..][k..];
    var text := line[..k + 1];
    forall i | 0 <= i < |text|
      ensures !IsBreak(text[i])
    {
      if i > 0 { assert text[i] == line[1..][..k][i - 1]; }
    }
  }

  lemma {:induction false} LinesAreProper(text: string)
    ensures ProperLines(SplitKeep(text))
    decreases |text|
  {
    if text == "" {
    } else {
      var n := LineLength(text);
      FirstLine(text);
      LinesAreProper(text[n..]);
      ProperCons(text[..n], SplitKeep(text[n..]));
      if text[n..] != "" { assert SplitKeep(text[n..])[0][0] == text[n..][0]; }
    }
  }

  lemma ProperCons(line: string, rest: seq<string>)
    requires ProperLines(rest) && line != "" && (Terminated(line) || (rest == [] && BreakFree(line)))
    requires rest != [] ==> !Severed(line, rest[0])
    ensures ProperLines([line] + rest)
  {
  }

  /** Where a line ends, whatever follows that does not sever it from an LF. */
  lemma {:induction false} LineEndsThere(line: string, n: nat, rest: string)
    requires Ends(line, n) && !Severed(line, rest)
    ensures LineLength(line + rest) == |line|
    decreases n
  {
    if n == 0 {
      assert line[0..] == line;
    } else {
      assert line[..n][0] == line[0];
      ShorterLine(line, n);
      LineEndsThere(line[1..], n - 1, rest);
      assert (line + rest)[1..] == line[1..] + rest;
    }
  }

  lemma ShorterLine(line: string, n: nat)
    requires n > 0 && Ends(line, n)
    ensures Ends(line[1..], n - 1)
  {
    assert line[1..][..n - 1] == line[..n][1..] && line[1..][n - 1..] == line[n..];
  }

  lemma {:induction false} NoLineEnd(text: string)
    requires BreakFree(text)
    ensures LineLength(text) == |text|
  {
    if text == "" {
    } else {
      NoLineEnd(text[1..]);
    }
  }

  /** There is no other way to cut a text into such lines. */
  lemma {:induction false} ProperLinesAreTheLines(lines: seq<string>)
    requires ProperLines(lines)
    ensures SplitKeep(Flatten(lines)) == lines
  {
    if lines == [] {
    } else {
      var line, rest := lines[0], lines[1..];
      ProperTail(lines);
      ProperLinesAreTheLines(rest);
      if rest == [] && BreakFree(line) {
        NoLineEnd(line);
        assert line + Flatten(rest) == line;
      } else {
        var n :| Ends(line, n);
        NotSevered(lines);
        LineEndsThere(line, n, Flatten(rest));
      }
      var text := Flatten(lines);
      assert text == line + Flatten(rest) && text[..|line|] == line && text[|line|..] == Flatten(rest);
    }
  }

  lemma ProperTail(lines: seq<string>)
    requires ProperLines(lines) && lines != []
    ensures ProperLines(lines[1..])
  {
  }

  lemma NotSevered(lines: seq<string>)
    requires ProperLines(lines) && lines != []
    ensures !Severed(lines[0], Flatten(lines[1..]))
  {
    var rest := lines[1..];
    if rest != [] { assert rest[0] == lines[1] && Flatten(rest)[0] == rest[0][0]; }
  }

  /** A line without its terminator is what was before it. */
  lemma BareIsContent(line: string, n: nat)
    requires Ends(line, n)
    ensures Bare(line) == line[..n]
  {
    BareOfBreakFree(line[..n]);
    var t := line[n..];
    assert line == line[..n] + t && line[|line| - 1] == t[|t| - 1];
    assert line[..|line| - 1] == line[..n] + t[..|t| - 1];
    if |t| == 2 {
      var cut := line[..|line| - 1];
      assert cut[|cut| - 1] == '\r' && cut[..|cut| - 1] == line[..n];
    }
  }

  lemma BareOfBreakFree(text: string)
    requires BreakFree(text)
    ensures Bare(text) == text
  {
  }

  // ---- FilesService.read ------------------------------------------------------------------

  /** A slice bound as Python clips it: negative counts from the end. */
  function Clip(i: int, n: nat): (r: nat)
    ensures r <= n
  {
    if i < 0 then (if n + i < 0 then 0 else n + i) else if i > n then n else i
  }

  function Slice<T>(s: seq<T>, from: int, to: int): seq<T> {
    var a, b := Clip(from, |s|), Clip(to, |s|);
    if a < b then s[a..b] else []
  }

  datatype ReadResult =
    | Content(lines: seq<string>, totalLines: nat, truncated: bool)
    | Binary
    | NegativeOffset

  /** The window `read` computes from the decoded text; its content is the lines joined. */
  function Read(text: string, offset: int, limit: Option<int>): ReadResult {
    if 0 as char in text then Binary
    else
      var lines := SplitKeep(text);
      if offset < 0 then NegativeOffset
      else
        match limit
        case None => Content(Slice(lines, offset, |lines|), |lines|, false)
        case Some(n) => Content(Slice(lines, offset, offset + n), |lines|, offset + n < |lines|)
  }

  /** Reading at `offset`, `offset + limit`, and so on, while the result says it was truncated. */
  function Pages(text: string, offset: nat, limit: nat): seq<seq<string>>
    requires limit >= 1 && 0 as char !in text
    decreases |SplitKeep(text)| - offset
  {
    var page := Read(text, offset, Some(limit));
    [page.lines] + if page.truncated then Pages(text, offset + limit, limit) else []
  }

  /** A sequence from `i` on, in windows of `n`, the last one shorter. */
  function Windows<T>(lines: seq<T>, i: nat, n: nat): seq<seq<T>>
    requires n >= 1 && i <= |lines|
    decreases |lines| - i
  {
    if i + n < |lines| then [lines[i..i + n]] + Windows(lines, i + n, n) else [lines[i..]]
  }

  lemma {:induction false} WindowsCover<T>(lines: seq<T>, i: nat, n: nat)
    requires n >= 1 && i <= |lines|
    ensures Flatten(Windows(lines, i, n)) == lines[i..]
    decreases |lines| - i
  {
    if i + n < |lines| {
      WindowsCover(lines, i + n, n);
      FlattenCons(lines[i..i + n], Windows(lines, i + n, n));
      assert lines[i..i + n] + lines[i + n..] == lines[i..];
    } else {
      assert [lines[i..]][1..] == [];
    }
  }

  lemma {:induction false} PagesAreWindows(text: string, offset: nat, limit: nat)
    requires limit >= 1 && 0 as char !in text && offset <= |SplitKeep(text)|
    ensures Pages(text, offset, limit) == Windows(SplitKeep(text), offset, limit)
    decreases |SplitKeep(text)| - offset
  {
    ReadAt(text, offset, limit);
    if offset + limit < |SplitKeep(text)| {
      PagesAreWindows(text, offset + limit, limit);
    } else {
      assert [SplitKeep(text)[offset..]] + [] == [SplitKeep(text)[offset..]];
    }
  }

  /**
   * The window holds exactly the lines from `offset` on and before `offset + limit`, in order, and
   * `truncated` says whether there are more after them.
   */
  lemma ReadWindow(text: string, offset: nat, limit: nat)
    requires 0 as char !in text
    ensures var lines, page := SplitKeep(text), Read(text, offset, Some(limit));
      && page.Content? && page.totalLines == |lines|
      && |page.lines| ==
           (if offset + limit <= |lines| then limit else if offset <= |lines| then |lines| - offset else 0)
      && (forall i :: 0 <= i < |page.lines| ==> page.lines[i] == lines[offset + i])
      && (page.truncated <==> offset + limit < |lines|)
    ensures var lines := SplitKeep(text);
      Read(text, offset, None) == Content(lines[if offset < |lines| then offset else |lines|..], |lines|, false)
  {
  }

  /**
   * A NUL makes the file binary whatever the window; else a negative offset is refused.  A negative
   * limit is not: it shows nothing, or, if it reaches back beyond the first line, all from `offset`
   * on but as many lines at the end.
   */
  lemma ReadRefuses(text: string, offset: int, limit: Option<int>)
    ensures Read(text, offset, limit) == Binary <==> 0 as char in text
    ensures Read(text, offset, limit) == NegativeOffset <==> 0 as char !in text && offset < 0
    ensures 0 as char !in text && offset >= 0 && limit.Some? && limit.value < 0 ==>
      var lines, back := SplitKeep(text), -(offset + limit.value);
      Read(text, offset, limit) ==
        Content(if back > 0 && offset + back < |lines| then lines[offset..|lines| - back] else [], |lines|,
          offset + limit.value < |lines|)
  {
  }

  /** A window that starts within the text. */
  lemma ReadAt(text: string, offset: nat, limit: nat)
    requires 0 as char !in text && offset <= |SplitKeep(text)|
    ensures var lines := SplitKeep(text);
      Read(text, offset, Some(limit)) ==
        if offset + limit < |lines| then Content(lines[offset..offset + limit], |lines|, true)
        else Content(lines[offset..], |lines|, false)
  {
  }

  /** Paging through any text with any window of at least one line shows every line once, in order. */
  lemma PagingCoversTheText(text: string, limit: nat)
    requires limit >= 1 && 0 as char !in text
    ensures Flatten(Pages(text, 0, limit)) == SplitKeep(text)
    ensures Flatten(Flatten(Pages(text, 0, limit))) == text
  {
    PagesAreWindows(text, 0, limit);
    WindowsCover(SplitKeep(text), 0, limit);
    SplitKeepsAll(text);
  }
}
