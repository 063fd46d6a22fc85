/** Matching a path against a glob. */
module Glob {
  import opened Prelude
  import opened PathText

  /*
   * In `_glob_match` patterns with `**` are compiled to a regular expression, all others go to
   * `fnmatchcase`.  Patterns contain no `[`, so that `*` and `?` are the only wildcards.
   */

  // ---- Regular expressions ----------------------------------------------------------------

  datatype Regex =
    | Eps
    | Lit(c: char)
    | Dot                                  // any character but a newline
    | AnyChar                              // `.` under `(?s:...)`
    | Star(r: Regex)
    | Cat(first: Regex, second: Regex)
    | Opt(r: Regex)
    | DotAll(r: Regex)                     // `(?s:r)`: its dots are all `AnyChar`
    | Shortest(r: Regex)                   // `(?>r)`, `r` a lazy search: its shortest match and no other

  /** `fullmatch`. */
  ghost predicate Accepts(r: Regex, w: string)
    decreases r, |w|
  {
    match r
    case Eps => w == ""
    case Lit(c) => w == [c]
    case Dot => |w| == 1 && w[0] != '\n'
    case AnyChar => |w| == 1
    case Star(x) => w == "" || exists i :: 0 < i <= |w| && Accepts(x, w[..i]) && Accepts(r, w[i..])
    case Cat(x, y) => exists i :: 0 <= i <= |w| && Accepts(x, w[..i]) && Accepts(y, w[i..])
    case Opt(x) => w == "" || Accepts(x, w)
    case DotAll(x) => Accepts(x, w)
    case Shortest(x) => Accepts(x, w) && forall i :: 0 <= i < |w| ==> !Accepts(x, w[..i])
  }

  lemma {:induction false} AnyStar(w: string)
    ensures Accepts(Star(AnyChar), w)
  {
    if w == "" {
    } else {
      AnyStar(w[1..]);
      assert Accepts(AnyChar, w[..1]);
    }
  }

  lemma {:induction false} DotStar(w: string)
    ensures Accepts(Star(Dot), w) <==> '\n' !in w
    decreases |w|
  {
    if w == "" {
    } else {
      forall i | 0 < i <= |w| && Accepts(Dot, w[..i])
        ensures i == 1
      {
        assert |w[..i]| == i;
      }
      DotStar(w[1..]);
      assert w == w[..1] + w[1..];
      if '\n' !in w { assert Accepts(Dot, w[..1]); }
      if Accepts(Star(Dot), w) {
        var i :| 0 < i <= |w| && Accepts(Dot, w[..i]) && Accepts(Star(Dot), w[i..]);
      }
    }
  }

  // ---- The direct matcher -----------------------------------------------------------------

  predicate Plain(p: string) { '[' !in p }

  /** Shell matching of one text: `*` is any run of characters, `?` any one; both may be `/`. */
  ghost predicate Wild(p: string, w: string) {
    if p == "" then w == ""
    else if p[0] == '*' then exists i :: 0 <= i <= |w| && Wild(p[1..], w[i..])
    else w != "" && (p[0] == '?' || p[0] == w[0]) && Wild(p[1..], w[1..])
  }

  /**
   * Matching over the `/`-separated parts of a pattern.  `**` stands for any number of leading
   * components together with their `/`, or at the end for anything; newlines it never covers.
   */
  ghost predicate Match(parts: seq<string>, w: string)
    decreases |parts|
  {
    if parts == [] then w == ""
    else if parts[0] == "**" then
      if |parts| == 1 then '\n' !in w
      else (
        || Match(parts[1..], w)
        || exists i :: 0 <= i < |w| && w[i] == '/' && '\n' !in w[..i] && Match(parts[1..], w[i + 1..]))
    else if |parts| == 1 then Wild(parts[0], w)
    else exists i :: 0 <= i < |w| && w[i] == '/' && Wild(parts[0], w[..i]) && Match(parts[1..], w[i + 1..])
  }

  // ---- fnmatch.translate ------------------------------------------------------------------

  /** Drops leading stars: a run of `*` is translated as one. */
  function AfterStars(p: string): (q: string)
    ensures |q| <= |p| && forall c :: c !in p ==> c !in q
  {
    if p != "" && p[0] == '*' then AfterStars(p[1..]) else p
  }

  /** The fixed pieces of a pattern: before, between and after its runs of `*`. */
  function Segments(p: string): (r: seq<string>)
    ensures r != []
    decreases |p|
  {
    if p == "" then [""]
    else if p[0] == '*' then [""] + Segments(AfterStars(p[1..]))
    else ConsHead(p[0], Segments(p[1..]))
  }

  lemma {:induction false} SegmentsAvoid(c: char, p: string)
    requires c !in p
    ensures forall i :: 0 <= i < |Segments(p)| ==> c !in Segments(p)[i]
    decreases |p|
  {
    if p == "" {
    } else if p[0] == '*' {
      SegmentsAvoid(c, AfterStars(p[1..]));
    } else {
      SegmentsAvoid(c, p[1..]);
    }
  }

  function FixedRegex(f: string): Regex {
    if f == "" then Eps else Cat(if f[0] == '?' then AnyChar else Lit(f[0]), FixedRegex(f[1..]))
  }

  /** `.*?f`, or `.*f`: the same texts, found in another order. */
  function Search(f: string): Regex { Cat(Star(AnyChar), FixedRegex(f)) }

  /** After the first piece: an atomic lazy search for each inner piece, a greedy one for the last. */
  function TailRegex(fs: seq<string>): Regex
    requires fs != []
  {
    if |fs| == 1 then Search(fs[0]) else Cat(Shortest(Search(fs[0])), TailRegex(fs[1..]))
  }

  /** `fnmatch.translate`, for a pattern without brackets. */
  function Translate(p: string): Regex
    requires Plain(p)
  {
    var fs := Segments(p);
    DotAll(if |fs| == 1 then FixedRegex(fs[0]) else Cat(FixedRegex(fs[0]), TailRegex(fs[1..])))
  }

  lemma {:induction false} StarsAreOne(p: string, w: string)
    ensures (exists i :: 0 <= i <= |w| && Wild(p, w[i..])) <==> exists i :: 0 <= i <= |w| && Wild(AfterStars(p), w[i..])
    decreases |p|
  {
    if p == "" || p[0] != '*' {
    } else {
      StarsAreOne(p[1..], w);
      if i :| 0 <= i <= |w| && Wild(p, w[i..]) {
        var j :| 0 <= j <= |w[i..]| && Wild(p[1..], w[i..][j..]);
        assert w[i..][j..] == w[i + j..];
      }
      if i :| 0 <= i <= |w| && Wild(p[1..], w[i..]) {
        assert w[i..][0..] == w[i..];
        assert Wild(p, w[i..]);
      }
    }
  }

  /** `f` is as long as `w`, and equal to it where it has no `?`. */
  predicate Fits(f: string, w: string) {
    |f| == |w| && forall i :: 0 <= i < |f| ==> f[i] == '?' || f[i] == w[i]
  }

  predicate EndsWith(f: string, w: string) { |f| <= |w| && Fits(f, w[|w| - |f|..]) }

  lemma {:induction false} FixedFits(f: string, w: string)
    ensures Accepts(FixedRegex(f), w) <==> Fits(f, w)
  {
    if f == "" || w == "" {
    } else {
      FixedFits(f[1..], w[1..]);
      FitsCons(f, w);
      var head := if f[0] == '?' then AnyChar else Lit(f[0]);
      assert |w[..1]| == 1 && w[..1] == [w[0]];
      if i :| 0 <= i <= |w| && Accepts(head, w[..i]) && Accepts(FixedRegex(f[1..]), w[i..]) {
        assert |w[..i]| == i == 1;
      }
    }
  }

  lemma FitsCons(f: string, w: string)
    requires f != "" && w != ""
    ensures Fits(f, w) <==> (f[0] == '?' || f[0] == w[0]) && Fits(f[1..], w[1..])
  {
    if Fits(f[1..], w[1..]) {
      assert forall i :: 1 <= i < |f| ==> f[i] == f[1..][i - 1] && w[i] == w[1..][i - 1];
    }
  }

  lemma SearchEnds(f: string, w: string)
    ensures Accepts(Search(f), w) <==> EndsWith(f, w)
  {
    if i :| 0 <= i <= |w| && Accepts(Star(AnyChar), w[..i]) && Accepts(FixedRegex(f), w[i..]) {
      FixedFits(f, w[i..]);
      assert |w[i..]| == |w| - i;
    }
    if EndsWith(f, w) {
      var i := |w| - |f|;
      AnyStar(w[..i]);
      FixedFits(f, w[i..]);
    }
  }

  /** Each piece is found after the one before, and nothing follows the last. */
  ghost predicate StarThen(fs: seq<string>, w: string)
    decreases |fs|
  {
    if fs == [] then w == ""
    else exists i :: 0 <= i <= |w| && EndsWith(fs[0], w[..i]) && StarThen(fs[1..], w[i..])
  }

  /** A search that may start late may start early. */
  lemma StartEarlier(fs: seq<string>, w: string, i: nat, j: nat)
    requires fs != [] && i <= j <= |w| && StarThen(fs, w[j..])
    ensures StarThen(fs, w[i..])
  {
    var k :| 0 <= k <= |w[j..]| && EndsWith(fs[0], w[j..][..k]) && StarThen(fs[1..], w[j..][k..]);
    SlicesJoin(w, i, j, k);
    EndsLater(fs[0], w[i..j], w[j..][..k]);
  }

  lemma SlicesJoin(w: string, i: nat, j: nat, k: nat)
    requires i <= j <= |w| && k <= |w[j..]|
    ensures var n := j - i + k; w[i..][n..] == w[j..][k..] && w[i..][..n] == w[i..j] + w[j..][..k]
  {
  }

  lemma EndsLater(f: string, x: string, y: string)
    requires EndsWith(f, y)
    ensures EndsWith(f, x + y)
  {
    assert (x + y)[|x + y| - |f|..] == y[|y| - |f|..];
  }

  /** Where the search for `f` first succeeds. */
  lemma {:induction false} FirstEnd(f: string, w: string, i: nat) returns (k: nat)
    requires i <= |w| && EndsWith(f, w[..i])
    ensures k <= i && Accepts(Shortest(Search(f)), w[..k])
    decreases i
  {
    if j :| 0 <= j < i && EndsWith(f, w[..j]) {
      k := FirstEnd(f, w, j);
    } else {
      k := i;
      SearchEnds(f, w[..i]);
      forall j | 0 <= j < i
        ensures !Accepts(Search(f), w[..i][..j])
      {
        assert w[..i][..j] == w[..j];
        SearchEnds(f, w[..j]);
      }
    }
  }

  /** Taking the first occurrence of each inner piece for good loses nothing: the next search starts earlier. */
  lemma {:induction false} TailSearches(fs: seq<string>, w: string)
    requires fs != []
    ensures Accepts(TailRegex(fs), w) <==> StarThen(fs, w)
    decreases |fs|
  {
    if |fs| == 1 {
      LastSearch(fs, w);
    } else {
      var rest := fs[1..];
      if i :| 0 <= i <= |w| && Accepts(Shortest(Search(fs[0])), w[..i]) && Accepts(TailRegex(rest), w[i..]) {
        SearchEnds(fs[0], w[..i]);
        TailSearches(rest, w[i..]);
      }
      if i :| 0 <= i <= |w| && EndsWith(fs[0], w[..i]) && StarThen(rest, w[i..]) {
        var k := FirstEnd(fs[0], w, i);
        StartEarlier(rest, w, k, i);
        TailSearches(rest, w[k..]);
      }
    }
  }

  lemma LastSearch(fs: seq<string>, w: string)
    requires |fs| == 1
    ensures Accepts(Search(fs[0]), w) <==> StarThen(fs, w)
  {
    SearchEnds(fs[0], w);
    assert w[..|w|] == w && w[|w|..] == "";
    if i :| 0 <= i <= |w| && EndsWith(fs[0], w[..i]) && StarThen(fs[1..], w[i..]) {
      assert w[i..] == "" && w[..i] == w;
    }
  }

  /** The first piece at the front, the others found one after the other. */
  ghost predicate InOrder(fs: seq<string>, w: string)
    requires fs != []
  {
    |fs[0]| <= |w| && Fits(fs[0], w[..|fs[0]|]) && StarThen(fs[1..], w[|fs[0]|..])
  }

  lemma {:induction false} WildInOrder(p: string, w: string)
    ensures Wild(p, w) <==> InOrder(Segments(p), w)
    decreases |p|
  {
    if p == "" {
    } else if p[0] == '*' {
      var q := AfterStars(p[1..]);
      StarsAreOne(p[1..], w);
      forall i | 0 <= i <= |w|
        ensures Wild(q, w[i..]) <==> InOrder(Segments(q), w[i..])
      {
        WildInOrder(q, w[i..]);
      }
      FoundSomewhere(Segments(q), w);
      assert ([""] + Segments(q))[1..] == Segments(q) && w[0..] == w;
    } else if w != "" {
      WildInOrder(p[1..], w[1..]);
      OneMoreInFront(p[0], Segments(p[1..]), w);
    }
  }

  lemma FoundSomewhere(fs: seq<string>, w: string)
    requires fs != []
    ensures StarThen(fs, w) <==> exists i :: 0 <= i <= |w| && InOrder(fs, w[i..])
  {
    if i :| 0 <= i <= |w| && InOrder(fs, w[i..]) { FoundAt(fs, w, i); }
    if k :| 0 <= k <= |w| && EndsWith(fs[0], w[..k]) && StarThen(fs[1..], w[k..]) { FoundBefore(fs, w, k); }
  }

  lemma FoundAt(fs: seq<string>, w: string, i: nat)
    requires fs != [] && i <= |w| && InOrder(fs, w[i..])
    ensures StarThen(fs, w)
  {
    var n := |fs[0]|;
    var k := i + n;
    assert w[i..][..n] == w[..k][k - n..] && w[i..][n..] == w[k..];
    assert EndsWith(fs[0], w[..k]);
  }

  lemma FoundBefore(fs: seq<string>, w: string, k: nat)
    requires fs != [] && k <= |w| && EndsWith(fs[0], w[..k]) && StarThen(fs[1..], w[k..])
    ensures InOrder(fs, w[k - |fs[0]|..])
  {
    var n := |fs[0]|;
    var i := k - n;
    assert w[i..][..n] == w[..k][i..] && w[i..][n..] == w[k..];
  }

  lemma OneMoreInFront(c: char, fs: seq<string>, w: string)
    requires fs != [] && w != ""
    ensures InOrder(ConsHead(c, fs), w) <==> (c == '?' || c == w[0]) && InOrder(fs, w[1..])
  {
    var f, n := [c] + fs[0], |fs[0]|;
    assert ConsHead(c, fs)[1..] == fs[1..];
    if n < |w| {
      FitsCons(f, w[..n + 1]);
      assert f[1..] == fs[0] && w[..n + 1][1..] == w[1..][..n] && w[n + 1..] == w[1..][n..];
    }
  }

  lemma TranslateIsWild(p: string, w: string)
    requires Plain(p)
    ensures Accepts(Translate(p), w) <==> Wild(p, w)
  {
    var fs := Segments(p);
    WildInOrder(p, w);
    if |fs| == 1 {
      FixedFits(fs[0], w);
      assert |fs[0]| == |w| ==> w[..|fs[0]|] == w;
    } else {
      FixedThenTail(fs, w);
    }
  }

  lemma FixedThenTail(fs: seq<string>, w: string)
    requires |fs| > 1
    ensures Accepts(Cat(FixedRegex(fs[0]), TailRegex(fs[1..])), w) <==> InOrder(fs, w)
  {
    var n := |fs[0]|;
    forall i | 0 <= i <= |w|
      ensures Accepts(FixedRegex(fs[0]), w[..i]) ==> i == n
      ensures Accepts(FixedRegex(fs[0]), w[..i]) <==> Fits(fs[0], w[..i])
      ensures Accepts(TailRegex(fs[1..]), w[i..]) <==> StarThen(fs[1..], w[i..])
    {
      FixedFits(fs[0], w[..i]);
      TailSearches(fs[1..], w[i..]);
      assert |w[..i]| == i;
    }
  }

  /** `w` splits into a text that matches `a` and one that matches `b`. */
  ghost predicate Divides(a: string, b: string, w: string) {
    exists i :: 0 <= i <= |w| && Wild(a, w[..i]) && Wild(b, w[i..])
  }

  /** Matching a concatenation is splitting the text. */
  lemma {:induction false} WildConcat(a: string, b: string, w: string)
    ensures Wild(a + b, w) <==> Divides(a, b, w)
    decreases |a|
  {
    if a == "" {
      assert a + b == b && w[0..] == w && w[..0] == "";
    } else {
      var rest := a[1..];
      assert a + b == [a[0]] + (rest + b);
      WildCons(a[0], rest + b, w);
      if a[0] == '*' {
        forall k | 0 <= k <= |w|
          ensures Wild(rest + b, w[k..]) <==> Divides(rest, b, w[k..])
        {
          WildConcat(rest, b, w[k..]);
        }
        StarDivides(a, b, w);
      } else if w != "" {
        WildConcat(rest, b, w[1..]);
        OneDivides(a, b, w);
      }
    }
  }

  lemma WildCons(c: char, p: string, w: string)
    ensures Wild([c] + p, w) <==>
              if c == '*' then exists i :: 0 <= i <= |w| && Wild(p, w[i..])
              else w != "" && (c == '?' || c == w[0]) && Wild(p, w[1..])
  {
    assert ([c] + p)[1..] == p;
  }

  lemma StarDivides(a: string, b: string, w: string)
    requires a != "" && a[0] == '*'
    ensures Divides(a, b, w) <==> exists k :: 0 <= k <= |w| && Divides(a[1..], b, w[k..])
  {
    if k :| 0 <= k <= |w| && Divides(a[1..], b, w[k..]) {
      var i :| 0 <= i <= |w[k..]| && Wild(a[1..], w[k..][..i]) && Wild(b, w[k..][i..]);
      StarStretches(a, b, w, k, i);
    }
    if i :| 0 <= i <= |w| && Wild(a, w[..i]) && Wild(b, w[i..]) {
      var k, j := StarEnds(a, b, w, i);
    }
  }

  lemma StarStretches(a: string, b: string, w: string, k: nat, i: nat)
    requires a != "" && a[0] == '*' && k <= |w| && i <= |w[k..]|
    requires Wild(a[1..], w[k..][..i]) && Wild(b, w[k..][i..])
    ensures k + i <= |w| && Wild(a, w[..k + i]) && Wild(b, w[k + i..])
  {
    assert w[k..][..i] == w[..k + i][k..] && w[k..][i..] == w[k + i..];
  }

  lemma StarEnds(a: string, b: string, w: string, i: nat) returns (k: nat, j: nat)
    requires a != "" && a[0] == '*' && i <= |w| && Wild(a, w[..i]) && Wild(b, w[i..])
    ensures k <= |w| && j <= |w[k..]| && Wild(a[1..], w[k..][..j]) && Wild(b, w[k..][j..])
  {
    k :| 0 <= k <= i && Wild(a[1..], w[..i][k..]);
    j := i - k;
    assert w[..i][k..] == w[k..][..j] && w[i..] == w[k..][j..];
  }

  lemma OneDivides(a: string, b: string, w: string)
    requires a != "" && a[0] != '*' && w != ""
    ensures Divides(a, b, w) <==> (a[0] == '?' || a[0] == w[0]) && Divides(a[1..], b, w[1..])
  {
    if i :| 0 <= i <= |w[1..]| && Wild(a[1..], w[1..][..i]) && Wild(b, w[1..][i..]) {
      assert w[1..][..i] == w[..i + 1][1..] && w[1..][i..] == w[i + 1..];
    }
    if i :| 0 <= i <= |w| && Wild(a, w[..i]) && Wild(b, w[i..]) {
      assert i > 0 && w[..i][1..] == w[1..][..i - 1] && w[i..] == w[1..][i - 1..];
    }
  }

  // ---- _glob_to_regex ---------------------------------------------------------------------

  /** The pieces appended to `regex_parts`. */
  datatype Piece =
    | Gap                                  // (?:.*/)?
    | Tail                                 // .*
    | Part(text: string)                   // (?s:...)
    | Slash                                // /

  predicate PlainPieces(pieces: seq<Piece>) {
    forall i :: 0 <= i < |pieces| ==> pieces[i].Part? ==> Plain(pieces[i].text)
  }

  /** `piece.endswith(("/", "?"))`; a translated part ends in `)`. */
  predicate EndsInSlashOrMark(p: Piece) { p.Gap? || p.Slash? }

  predicate IsGap(part: string) { part == "**" }

  /** The pieces for one part; `last` says no part follows. */
  function PiecesFor(part: string, last: bool): seq<Piece> {
    if IsGap(part) then (if last then [Tail] else [Gap])
    else if last then [Part(part)] else [Part(part), Slash]
  }

  /** The pieces for a pattern split at `/`. */
  function Compile(parts: seq<string>): seq<Piece> {
    if parts == [] then [] else PiecesFor(parts[0], |parts| == 1) + Compile(parts[1..])
  }

  lemma CompileNext(parts: seq<string>, i: nat)
    requires i < |parts|
    ensures Compile(parts[i..]) == PiecesFor(parts[i], i + 1 == |parts|) + Compile(parts[i + 1..])
  {
    assert parts[i..][1..] == parts[i + 1..];
  }

  /** The loop over the parts. */
  method GlobToPieces(pattern: string) returns (pieces: seq<Piece>)
    ensures pieces == Compile(Split(pattern))
  {
    var parts := Split(pattern);
    ghost var all := Compile(parts);
    pieces := [];
    var i := 0;
    while i < |parts|
      invariant i <= |parts| && pieces + Compile(parts[i..]) == all
      decreases |parts| - i
    {
      var part := parts[i];
      CompileNext(parts, i);
      ghost var done, rest := pieces, Compile(parts[i + 1..]);
      if IsGap(part) {
        // Absorb an optional following "/".
        if i + 1 < |parts| {
          pieces := pieces + [Gap];
          Regroup(done, [Gap], rest);
          i := i + 1;
          continue;
        }
        pieces := pieces + [Tail];
        Regroup(done, [Tail], rest);
        i := i + 1;
        continue;
      }
      pieces := pieces + [Part(part)];
      if i + 1 < |parts| && !EndsInSlashOrMark(pieces[|pieces| - 1]) {
        pieces := pieces + [Slash];
      }
      assert pieces == done + PiecesFor(part, i + 1 == |parts|);
      Regroup(done, PiecesFor(part, i + 1 == |parts|), rest);
      i := i + 1;
    }
  }

  function PieceRegex(p: Piece): Regex
    requires p.Part? ==> Plain(p.text)
  {
    match p
    case Gap => Opt(Cat(Star(Dot), Lit('/')))
    case Tail => Star(Dot)
    case Part(text) => Translate(text)
    case Slash => Lit('/')
  }

  function ToRegex(pieces: seq<Piece>): Regex
    requires PlainPieces(pieces)
  {
    if pieces == [] then Eps else Cat(PieceRegex(pieces[0]), ToRegex(pieces[1..]))
  }

  lemma {:induction false} CompilePlain(parts: seq<string>)
    requires forall i :: 0 <= i < |parts| ==> Plain(parts[i])
    ensures PlainPieces(Compile(parts))
  {
    if parts == [] {
    } else {
      CompilePlain(parts[1..]);
    }
  }

  // ---- The `/+` collapse ------------------------------------------------------------------

  /** `re.escape` of one character. */
  function Escape(c: char): (r: string)
    ensures '/' in r ==> c == '/'
  {
    if c in "()[]{}?*+-|^$\\.&~# \t\n\r" || c == 11 as char || c == 12 as char then ['\\', c] else [c]
  }

  function FixedText(f: string): (r: string)
    ensures '/' !in f ==> '/' !in r
  {
    if f == "" then "" else (if f[0] == '?' then "." else Escape(f[0])) + FixedText(f[1..])
  }

  function TailText(fs: seq<string>): (r: string)
    ensures (forall i :: 0 <= i < |fs| ==> '/' !in fs[i]) ==> '/' !in r
  {
    if fs == [] then ""
    else if |fs| == 1 then ".*" + FixedText(fs[0])
    else "(?>.*?" + FixedText(fs[0]) + ")" + TailText(fs[1..])
  }

  /** The body of a translated part. */
  function Body(p: string): string { FixedText(Segments(p)[0]) + TailText(Segments(p)[1..]) }

  lemma BodyAvoidsSlash(p: string)
    requires '/' !in p
    ensures '/' !in Body(p)
  {
    SegmentsAvoid('/', p);
  }

  function PieceText(p: Piece): string {
    match p
    case Gap => "(?:.*/)?"
    case Tail => ".*"
    case Part(text) => "(?s:" + Body(text) + ")"
    case Slash => "/"
  }

  function Text(pieces: seq<Piece>): string {
    if pieces == [] then "" else PieceText(pieces[0]) + Text(pieces[1..])
  }

  // ---- The text is that of the expression -------------------------------------------------

  /** How an expression is written. */
  function Render(r: Regex): string {
    match r
    case Eps => ""
    case Lit(c) => Escape(c)
    case Dot => "."
    case AnyChar => "."
    case Star(x) => Render(x) + "*"
    case Cat(x, y) => Render(x) + Render(y)
    case Opt(x) => "(?:" + Render(x) + ")?"
    case DotAll(x) => "(?s:" + Render(x) + ")"
    case Shortest(Cat(Star(x), y)) => "(?>" + Render(x) + "*?" + Render(y) + ")"
    case Shortest(x) => "(?>" + Render(x) + ")"
  }

  lemma {:induction false} FixedIsRendered(f: string)
    ensures FixedText(f) == Render(FixedRegex(f))
  {
    if f == "" {
    } else {
      FixedIsRendered(f[1..]);
    }
  }

  lemma {:induction false} TailIsRendered(fs: seq<string>)
    requires fs != []
    ensures TailText(fs) == Render(TailRegex(fs))
  {
    FixedIsRendered(fs[0]);
    if |fs| == 1 {
      assert Render(Star(AnyChar)) == "." + "*" == ".*";
    } else {
      TailIsRendered(fs[1..]);
      assert Render(Shortest(Search(fs[0]))) == "(?>" + "." + "*?" + FixedText(fs[0]) + ")";
      assert "(?>" + "." + "*?" == "(?>.*?";
    }
  }

  lemma PieceIsRendered(p: Piece)
    requires p.Part? ==> Plain(p.text)
    ensures PieceText(p) == Render(PieceRegex(p))
  {
    match p
    case Gap =>
      assert Render(Star(Dot)) == "." + "*" == ".*";
      assert Render(Cat(Star(Dot), Lit('/'))) == ".*" + "/" == ".*/";
      assert "(?:" + ".*/" + ")?" == "(?:.*/)?";
    case Tail => assert "." + "*" == ".*";
    case Part(text) =>
      var fs := Segments(text);
      FixedIsRendered(fs[0]);
      if |fs| > 1 { TailIsRendered(fs[1..]); }
      assert |fs| == 1 ==> fs[1..] == [] && FixedText(fs[0]) + "" == FixedText(fs[0]);
    case Slash =>
  }

  /** What one element of a pattern without groups matches. */
  datatype Token = Any | Only(c: char)

  /** The characters that mean something in a regular expression unless they are escaped. */
  const META := "\\.^$*+?{}[]|()"

  /** Reading such a pattern; none if a special character other than `.` stands unescaped. */
  function Tokens(text: string): Option<seq<Token>> {
    if text == "" then Some([])
    else if text[0] == '\\' then (if |text| == 1 then None else Then(Only(text[1]), Tokens(text[2..])))
    else if text[0] == '.' then Then(Any, Tokens(text[1..]))
    else if text[0] in META then None
    else Then(Only(text[0]), Tokens(text[1..]))
  }

  function Then(t: Token, rest: Option<seq<Token>>): Option<seq<Token>> {
    match rest
    case None => None
    case Some(ts) => Some([t] + ts)
  }

  /** What a fixed piece means: `?` is any character, every other one itself. */
  function Meant(f: string): (ts: seq<Token>)
    ensures |ts| == |f| && forall i :: 0 <= i < |f| ==> ts[i] == if f[i] == '?' then Any else Only(f[i])
  {
    if f == "" then [] else [if f[0] == '?' then Any else Only(f[0])] + Meant(f[1..])
  }

  /** A fixed piece is read back as it is meant. */
  lemma {:induction false} FixedReadsBack(f: string)
    ensures Tokens(FixedText(f)) == Some(Meant(f))
  {
    if f == "" {
    } else {
      var rest := FixedText(f[1..]);
      FixedReadsBack(f[1..]);
      EscapedReadsBack(f[0], rest);
      assert f[0] == '?' ==> ("." + rest)[1..] == rest;
    }
  }

  lemma EscapedReadsBack(c: char, rest: string)
    ensures Tokens(Escape(c) + rest) == Then(Only(c), Tokens(rest))
  {
    var text := Escape(c) + rest;
    if |Escape(c)| == 2 {
      assert text[0] == '\\' && text[1] == c && text[2..] == rest;
    } else {
      assert text[0] == c && text[1..] == rest;
    }
  }

  /** The joined text is the compiled expression, written out. */
  lemma {:induction false} TextIsRendered(pieces: seq<Piece>)
    requires PlainPieces(pieces)
    ensures Text(pieces) == Render(ToRegex(pieces))
  {
    if pieces == [] {
    } else {
      PieceIsRendered(pieces[0]);
      TextIsRendered(pieces[1..]);
    }
  }

  /** `re.sub(r"/+", "/", text)`. */
  function CollapseSlashes(text: string): string {
    if |text| < 2 then text
    else if text[0] == '/' && text[1] == '/' then CollapseSlashes(text[1..])
    else [text[0]] + CollapseSlashes(text[1..])
  }

  ghost predicate NoDoubleSlash(text: string) {
    forall i :: 0 <= i < |text| - 1 ==> text[i] != '/' || text[i + 1] != '/'
  }

  lemma {:induction false} NothingToCollapse(text: string)
    requires NoDoubleSlash(text)
    ensures CollapseSlashes(text) == text
  {
    if |text| < 2 {
    } else {
      NothingToCollapse(text[1..]);
      assert text == [text[0]] + text[1..];
    }
  }

  lemma NoDoubleSlashConcat(a: string, b: string)
    requires NoDoubleSlash(a) && NoDoubleSlash(b)
    requires a == "" || b == "" || a[|a| - 1] != '/' || b[0] != '/'
    ensures NoDoubleSlash(a + b)
  {
  }

  lemma PieceTextIsSafe(p: Piece)
    requires p.Part? ==> '/' !in p.text
    ensures var t := PieceText(p); NoDoubleSlash(t) && t != "" && (!p.Slash? ==> t[0] != '/')
  {
    if p.Part? {
      BodyAvoidsSlash(p.text);
      assert '/' !in PieceText(p);
    }
  }

  /** Slash-free parts, and no two slashes in a row. */
  ghost predicate Tidy(ps: seq<Piece>) {
    && (forall i :: 0 <= i < |ps| && ps[i].Part? ==> '/' !in ps[i].text)
    && (forall i :: 0 <= i < |ps| - 1 && ps[i].Slash? ==> !ps[i + 1].Slash?)
  }

  lemma {:induction false} TidyText(ps: seq<Piece>)
    requires Tidy(ps)
    ensures NoDoubleSlash(Text(ps))
    ensures ps != [] && !ps[0].Slash? ==> Text(ps) != "" && Text(ps)[0] != '/'
  {
    if ps == [] {
    } else {
      PieceTextIsSafe(ps[0]);
      TidyText(ps[1..]);
      var t, rest := PieceText(ps[0]), Text(ps[1..]);
      NoDoubleSlashConcat(t, rest);
    }
  }

  lemma {:induction false} CompiledIsTidy(parts: seq<string>)
    requires forall i :: 0 <= i < |parts| ==> '/' !in parts[i]
    ensures Tidy(Compile(parts))
    ensures parts != [] ==> Compile(parts) != [] && !Compile(parts)[0].Slash?
  {
    if parts == [] {
    } else {
      CompiledIsTidy(parts[1..]);
    }
  }

  lemma CompiledTextHasNoDoubleSlash(parts: seq<string>)
    requires forall i :: 0 <= i < |parts| ==> '/' !in parts[i]
    ensures NoDoubleSlash(Text(Compile(parts)))
  {
    CompiledIsTidy(parts);
    TidyText(Compile(parts));
  }

  /** A run of slashes becomes one, whatever is around it. */
  lemma {:induction false} CollapseMeans(a: string, b: string)
    ensures CollapseSlashes(a + "//" + b) == CollapseSlashes(a + "/" + b)
  {
    if a == "" {
      assert "" + "//" + b == "//" + b && ("//" + b)[1..] == "/" + b && "" + "/" + b == "/" + b;
    } else {
      CollapseMeans(a[1..], b);
      assert (a + "//" + b)[1..] == a[1..] + "//" + b && (a + "/" + b)[1..] == a[1..] + "/" + b;
    }
  }

  /** The collapse of repeated slashes never changes the compiled pattern. */
  lemma CollapseChangesNothing(pattern: string)
    ensures CollapseSlashes(Text(Compile(Split(pattern)))) == Text(Compile(Split(pattern)))
  {
    CompiledTextHasNoDoubleSlash(Split(pattern));
    NothingToCollapse(Text(Compile(Split(pattern))));
  }

  // ---- The compiled pattern means what the matcher says -----------------------------------

  lemma GapMeans(w: string)
    ensures Accepts(PieceRegex(Gap), w) <==> w == "" || (w[|w| - 1] == '/' && '\n' !in w[..|w| - 1])
  {
    if w != "" {
      var n := |w| - 1;
      DotStar(w[..n]);
      assert w[n..] == [w[n]];
      if Accepts(Cat(Star(Dot), Lit('/')), w) {
        var i :| 0 <= i <= |w| && Accepts(Star(Dot), w[..i]) && Accepts(Lit('/'), w[i..]);
        assert |w[i..]| == 1 && i == n;
      }
      if w[n] == '/' && '\n' !in w[..n] { assert Accepts(Lit('/'), w[n..]); }
    }
  }

  lemma SlashThen(r: Regex, w: string)
    ensures Accepts(Cat(Lit('/'), r), w) <==> w != "" && w[0] == '/' && Accepts(r, w[1..])
  {
    if w != "" { assert w[..1] == [w[0]]; }
    if i :| 0 <= i <= |w| && Accepts(Lit('/'), w[..i]) && Accepts(r, w[i..]) {
      assert |w[..i]| == 1;
    }
  }

  ghost predicate GapSplits(r: Regex, w: string, i: int) {
    0 <= i < |w| && w[i] == '/' && '\n' !in w[..i] && Accepts(r, w[i + 1..])
  }

  lemma GapThenSplits(r: Regex, w: string)
    requires Accepts(Cat(PieceRegex(Gap), r), w)
    ensures Accepts(r, w) || exists i :: GapSplits(r, w, i)
  {
    var gap := PieceRegex(Gap);
    var i :| 0 <= i <= |w| && Accepts(gap, w[..i]) && Accepts(r, w[i..]);
    GapMeans(w[..i]);
    if i == 0 {
      assert w[0..] == w;
    } else {
      assert w[..i][..i - 1] == w[..i - 1] && w[..i][i - 1] == w[i - 1];
      assert GapSplits(r, w, i - 1);
    }
  }

  lemma GapThen(r: Regex, w: string)
    ensures Accepts(Cat(PieceRegex(Gap), r), w) <==> Accepts(r, w) || exists i :: GapSplits(r, w, i)
  {
    var gap := PieceRegex(Gap);
    if Accepts(Cat(gap, r), w) { GapThenSplits(r, w); }
    if Accepts(r, w) {
      assert w[..0] == "" && w[0..] == w;
      CatSplits(gap, r, w, 0);
    }
    if i :| GapSplits(r, w, i) {
      assert w[..i + 1][..i] == w[..i];
      GapMeans(w[..i + 1]);
      CatSplits(gap, r, w, i + 1);
    }
  }

  lemma CatSplits(x: Regex, y: Regex, w: string, i: nat)
    requires i <= |w| && Accepts(x, w[..i]) && Accepts(y, w[i..])
    ensures Accepts(Cat(x, y), w)
  {
  }

  ghost predicate PartSplits(part: string, r: Regex, w: string, i: int) {
    0 <= i < |w| && w[i] == '/' && Wild(part, w[..i]) && Accepts(r, w[i + 1..])
  }

  lemma PartThen(part: string, r: Regex, w: string)
    requires Plain(part)
    ensures Accepts(Cat(Translate(part), Cat(Lit('/'), r)), w) <==> exists i :: PartSplits(part, r, w, i)
  {
    var x, y := Translate(part), Cat(Lit('/'), r);
    if Accepts(Cat(x, y), w) {
      var i :| 0 <= i <= |w| && Accepts(x, w[..i]) && Accepts(y, w[i..]);
      TranslateIsWild(part, w[..i]);
      SlashThen(r, w[i..]);
      assert w[i..][1..] == w[i + 1..];
      assert PartSplits(part, r, w, i);
    }
    if i :| PartSplits(part, r, w, i) {
      TranslateIsWild(part, w[..i]);
      assert w[i..][1..] == w[i + 1..];
      SlashThen(r, w[i..]);
      assert Accepts(x, w[..i]) && Accepts(y, w[i..]);
    }
  }

  lemma ThenEnd(x: Regex, w: string)
    ensures Accepts(Cat(x, Eps), w) <==> Accepts(x, w)
  {
    assert w[..|w|] == w && w[|w|..] == "";
    if i :| 0 <= i <= |w| && Accepts(x, w[..i]) && Accepts(Eps, w[i..]) {
      assert |w[i..]| == 0;
    }
  }

  lemma ToRegexCons(p: Piece, rest: seq<Piece>)
    requires PlainPieces(rest) && (p.Part? ==> Plain(p.text))
    ensures PlainPieces([p] + rest) && ToRegex([p] + rest) == Cat(PieceRegex(p), ToRegex(rest))
  {
    assert ([p] + rest)[1..] == rest;
  }

  ghost predicate PlainParts(parts: seq<string>) { forall i :: 0 <= i < |parts| ==> Plain(parts[i]) }

  /** For every pattern and every text the compiled expression accepts exactly what the matcher does. */
  lemma {:induction false} CompiledIsMatch(parts: seq<string>, w: string)
    requires PlainParts(parts)
    ensures PlainPieces(Compile(parts)) && (Accepts(ToRegex(Compile(parts)), w) <==> Match(parts, w))
    decreases |parts|
  {
    CompilePlain(parts);
    if parts == [] {
    } else if |parts| == 1 {
      LastPartIsMatch(parts[0], w);
      assert parts == [parts[0]];
    } else if IsGap(parts[0]) {
      GapIsMatch(parts, w);
    } else {
      PartIsMatch(parts, w);
    }
  }

  lemma LastPartIsMatch(part: string, w: string)
    requires Plain(part)
    ensures var c := Compile([part]); PlainPieces(c) && (Accepts(ToRegex(c), w) <==> Match([part], w))
  {
    var p := if IsGap(part) then Tail else Part(part);
    assert [part][1..] == [] && Compile([part]) == [p] + [];
    ToRegexCons(p, []);
    ThenEnd(PieceRegex(p), w);
    if IsGap(part) { DotStar(w); } else { TranslateIsWild(part, w); }
  }

  lemma {:induction false} GapIsMatch(parts: seq<string>, w: string)
    requires PlainParts(parts) && |parts| > 1 && IsGap(parts[0])
    ensures PlainPieces(Compile(parts)) && (Accepts(ToRegex(Compile(parts)), w) <==> Match(parts, w))
    decreases |parts|, 0
  {
    var rest := parts[1..];
    CompilePlain(rest);
    var r := ToRegex(Compile(rest));
    ToRegexCons(Gap, Compile(rest));
    GapThen(r, w);
    CompiledIsMatch(rest, w);
    if i :| GapSplits(r, w, i) { CompiledIsMatch(rest, w[i + 1..]); }
    if i :| 0 <= i < |w| && w[i] == '/' && '\n' !in w[..i] && Match(rest, w[i + 1..]) {
      CompiledIsMatch(rest, w[i + 1..]);
      assert GapSplits(r, w, i);
    }
  }

  lemma {:induction false} PartIsMatch(parts: seq<string>, w: string)
    requires PlainParts(parts) && |parts| > 1 && !IsGap(parts[0])
    ensures PlainPieces(Compile(parts)) && (Accepts(ToRegex(Compile(parts)), w) <==> Match(parts, w))
    decreases |parts|, 0
  {
    var rest := parts[1..];
    CompilePlain(rest);
    var r := ToRegex(Compile(rest));
    ToRegexCons(Slash, Compile(rest));
    ToRegexCons(Part(parts[0]), [Slash] + Compile(rest));
    assert Compile(parts) == [Part(parts[0])] + ([Slash] + Compile(rest));
    PartThen(parts[0], r, w);
    if i :| PartSplits(parts[0], r, w, i) { CompiledIsMatch(rest, w[i + 1..]); }
    if i :| 0 <= i < |w| && w[i] == '/' && Wild(parts[0], w[..i]) && Match(rest, w[i + 1..]) {
      CompiledIsMatch(rest, w[i + 1..]);
      assert PartSplits(parts[0], r, w, i);
    }
  }

  // ---- Patterns without `**` --------------------------------------------------------------

  ghost predicate NoGaps(parts: seq<string>) { forall i :: 0 <= i < |parts| ==> !IsGap(parts[i]) }

  /** A `/` in a pattern matches only a `/`. */
  lemma WildSlash(a: string, b: string, w: string)
    ensures Wild(a + "/" + b, w) <==> exists i :: 0 <= i < |w| && w[i] == '/' && Wild(a, w[..i]) && Wild(b, w[i + 1..])
  {
    assert a + "/" + b == a + ("/" + b) && ("/" + b)[1..] == b;
    WildConcat(a, "/" + b, w);
    if Wild(a + "/" + b, w) {
      var i :| 0 <= i <= |w| && Wild(a, w[..i]) && Wild("/" + b, w[i..]);
      assert w[i..] != "" && w[i..][1..] == w[i + 1..];
    }
    if i :| 0 <= i < |w| && w[i] == '/' && Wild(a, w[..i]) && Wild(b, w[i + 1..]) {
      assert w[i..][1..] == w[i + 1..];
      assert Wild("/" + b, w[i..]);
    }
  }

  /** Without `**`, matching the whole pattern at once is matching it part by part. */
  lemma {:induction false} WildIsMatch(parts: seq<string>, w: string)
    requires parts != [] && NoGaps(parts)
    ensures Wild(Join(parts), w) <==> Match(parts, w)
    decreases |parts|
  {
    assert !IsGap(parts[0]);
    if |parts| <= 1 {
    } else {
      var rest := parts[1..];
      WildSlash(parts[0], Join(rest), w);
      if i :| 0 <= i < |w| && w[i] == '/' && Wild(parts[0], w[..i]) && Wild(Join(rest), w[i + 1..]) {
        WildIsMatch(rest, w[i + 1..]);
      }
      if i :| 0 <= i < |w| && w[i] == '/' && Wild(parts[0], w[..i]) && Match(rest, w[i + 1..]) {
        WildIsMatch(rest, w[i + 1..]);
      }
    }
  }

  // ---- _glob_match ------------------------------------------------------------------------

  /** `"**" in pattern`. */
  predicate HasGap(p: string) { exists i :: 0 <= i < |p| - 1 && p[i] == '*' && p[i + 1] == '*' }

  ghost predicate GlobMatch(rel: string, pattern: string)
    requires Plain(pattern)
  {
    if pattern == "**" || pattern == "**/*" then true
    else if HasGap(pattern) then
      PlainSplit(pattern);
      Accepts(ToRegex(Compile(Split(pattern))), rel)
    else Accepts(Translate(pattern), rel)
  }

  lemma {:induction false} SplitPlain(p: string)
    requires Plain(p)
    ensures PlainParts(Split(p))
  {
    if p == "" {
    } else {
      SplitPlain(p[1..]);
    }
  }

  lemma PlainSplit(p: string)
    requires Plain(p)
    ensures PlainPieces(Compile(Split(p)))
  {
    SplitPlain(p);
    CompilePlain(Split(p));
  }

  lemma {:induction false} GapPartIsGap(parts: seq<string>, k: nat)
    requires k < |parts| && IsGap(parts[k])
    ensures HasGap(Join(parts))
  {
    var text := Join(parts);
    if |parts| == 1 {
      assert text[0] == '*' && text[1] == '*';
    } else if k == 0 {
      assert text == parts[0] + ("/" + Join(parts[1..]));
      assert text[0] == '*' && text[1] == '*';
    } else {
      GapPartIsGap(parts[1..], k - 1);
      var rest := Join(parts[1..]);
      var i :| 0 <= i < |rest| - 1 && rest[i] == '*' && rest[i + 1] == '*';
      var n := |parts[0]| + 1;
      assert text[n + i] == rest[i] && text[n + (i + 1)] == rest[i + 1];
    }
  }

  /**
   * All three branches agree with the one matcher, for every bracket-free pattern and every path,
   * except that a bare `**` also accepts paths with a newline in them.
   */
  lemma GlobMatchIsMatch(rel: string, pattern: string)
    requires Plain(pattern)
    ensures GlobMatch(rel, pattern) <==> Match(Split(pattern), rel) || (pattern == "**" && '\n' in rel)
  {
    var parts := Split(pattern);
    SplitPlain(pattern);
    JoinOfSplit(pattern);
    if pattern == "**" {
      SplitSlashFree("**");
    } else if pattern == "**/*" {
      SplitSlashFree("**");
      SplitSlashFree("*");
      SplitConcat("**", "*");
      assert "**" + "/" + "*" == "**/*" && parts == ["**", "*"] && parts[1..] == ["*"];
      assert rel[|rel|..] == "" && Wild("", rel[|rel|..]);
      assert Wild("*", rel);
    } else if HasGap(pattern) {
      CompiledIsMatch(parts, rel);
    } else {
      TranslateIsWild(pattern, rel);
      forall k | 0 <= k < |parts|
        ensures !IsGap(parts[k])
      {
        if IsGap(parts[k]) { GapPartIsGap(parts, k); }
      }
      WildIsMatch(parts, rel);
    }
  }

  // ---- Laws of `**` -----------------------------------------------------------------------

  /** A second gap adds nothing. */
  lemma GapTwice(parts: seq<string>, w: string)
    requires parts != []
    ensures Match(["**", "**"] + parts, w) <==> Match(["**"] + parts, w)
  {
    var one, two := ["**"] + parts, ["**", "**"] + parts;
    assert one[1..] == parts && two[1..] == one;
    if i :| 0 <= i < |w| && w[i] == '/' && '\n' !in w[..i] && Match(one, w[i + 1..]) {
      GapInside(parts, w, i);
    }
  }

  lemma GapInside(parts: seq<string>, w: string, i: nat)
    requires parts != [] && i < |w| && w[i] == '/' && '\n' !in w[..i] && Match(["**"] + parts, w[i + 1..])
    ensures Match(["**"] + parts, w)
  {
    var one, v := ["**"] + parts, w[i + 1..];
    assert one[1..] == parts;
    if !Match(parts, v) {
      var j :| 0 <= j < |v| && v[j] == '/' && '\n' !in v[..j] && Match(parts, v[j + 1..]);
      OneLine(w, i, j);
    }
  }

  /** Two breakless stretches with one character between them make a longer one. */
  lemma OneLine(w: string, i: nat, j: nat)
    requires i < |w| && w[i] != '\n' && '\n' !in w[..i]
    requires j < |w[i + 1..]| && '\n' !in w[i + 1..][..j]
    ensures '\n' !in w[..i + 1 + j]
    ensures w[i + 1 + j] == w[i + 1..][j] && w[i + 1 + j + 1..] == w[i + 1..][j + 1..]
  {
    assert w[..i + 1 + j] == w[..i] + [w[i]] + w[i + 1..][..j];
  }

  // `**/**/p` is `**/p`.
  lemma DoubleGapIsGap(rel: string, p: string)
    requires Plain(p)
    ensures Plain("**/" + p) && Plain("**/**/" + p)
    ensures GlobMatch(rel, "**/**/" + p) <==> GlobMatch(rel, "**/" + p)
  {
    GapPrefix(p);
    GapPrefix("**/" + p);
    assert "**/" + ("**/" + p) == "**/**/" + p;
    assert ["**"] + (["**"] + Split(p)) == ["**", "**"] + Split(p);
    GlobMatchIsMatch(rel, "**/" + p);
    GlobMatchIsMatch(rel, "**/**/" + p);
    GapTwice(Split(p), rel);
  }

  lemma GapPrefix(p: string)
    ensures Split("**/" + p) == ["**"] + Split(p) && "**/" + p != "**" && (Plain(p) ==> Plain("**/" + p))
  {
    SplitSlashFree("**");
    SplitConcat("**", p);
    assert "**" + "/" + p == "**/" + p;
    assert |"**/" + p| >= 3;
  }

  // `**/p` accepts everything `p` does, unless `p` is a bare `**` and the path has a newline.
  lemma GapAcceptsMore(rel: string, p: string)
    requires Plain(p) && GlobMatch(rel, p)
    ensures Plain("**/" + p)
    ensures p != "**" || '\n' !in rel ==> GlobMatch(rel, "**/" + p)
    ensures p == "**" && '\n' in rel ==> !GlobMatch(rel, "**/" + p)
  {
    GapPrefix(p);
    GlobMatchIsMatch(rel, p);
    GlobMatchIsMatch(rel, "**/" + p);
    var parts := ["**"] + Split(p);
    assert parts[1..] == Split(p);
    if p == "**" {
      SplitSlashFree("**");
      forall i | 0 <= i < |rel| && '\n' !in rel[..i] && '\n' !in rel[i + 1..] && rel[i] == '/'
        ensures '\n' !in rel
      {
        assert rel == rel[..i] + [rel[i]] + rel[i + 1..];
      }
    }
  }
}
