/** Paths as component lists and as `/`-separated text, and the order in which names sort. */
module PathText {

  type Name = string
  type Path = seq<Name>

  /** `"/".join(parts)`. */
  function Join(parts: seq<string>): string {
    if parts == [] then "" else if |parts| == 1 then parts[0] else parts[0] + "/" + Join(parts[1..])
  }

  /** `text.split("/")`: always at least one part. */
  function Split(text: string): (parts: seq<string>)
    ensures parts != []
    ensures forall i :: 0 <= i < |parts| ==> '/' !in parts[i]
  {
    if text == "" then [""]
    else if text[0] == '/' then [""] + Split(text[1..])
    else ConsHead(text[0], Split(text[1..]))
  }

  /** Puts a character in front of the first part. */
  function ConsHead(c: char, parts: seq<string>): (r: seq<string>)
    requires parts != []
    ensures |r| == |parts|
  {
    [[c] + parts[0]] + parts[1..]
  }

  lemma ConsHeadAppend(c: char, a: seq<string>, b: seq<string>)
    requires a != []
    ensures ConsHead(c, a + b) == ConsHead(c, a) + b
  {
  }

  lemma SplitCons(c: char, text: string)
    ensures Split([c] + text) == if c == '/' then [""] + Split(text) else ConsHead(c, Split(text))
  {
    assert ([c] + text)[1..] == text;
  }

  lemma PartsConcat(c: char, p: seq<string>, q: seq<string>)
    requires p != []
    ensures [""] + (p + q) == ([""] + p) + q && ConsHead(c, p + q) == ConsHead(c, p) + q
  {
    ConsHeadAppend(c, p, q);
  }

  /** Splitting is compositional at every `/`. */
  lemma {:induction false} SplitConcat(a: string, b: string)
    ensures Split(a + "/" + b) == Split(a) + Split(b)
  {
    if a == "" {
      assert a + "/" + b == ['/'] + b;
      SplitCons('/', b);
    } else {
      var c, rest := a[0], a[1..];
      SplitConcat(rest, b);
      assert a + "/" + b == [c] + (rest + "/" + b);
      SplitCons(c, rest + "/" + b);
      PartsConcat(c, Split(rest), Split(b));
    }
  }

  lemma {:induction false} JoinConcat(p: seq<string>, q: seq<string>)
    requires p != [] && q != []
    ensures Join(p + q) == Join(p) + "/" + Join(q)
  {
    if |p| == 1 {
      assert (p + q)[1..] == q;
    } else {
      JoinConcat(p[1..], q);
      assert (p + q)[1..] == p[1..] + q;
      assert Join(p + q) == p[0] + "/" + (Join(p[1..]) + "/" + Join(q));
    }
  }

  lemma {:induction false} SplitSlashFree(part: string)
    requires '/' !in part
    ensures Split(part) == [part]
  {
    if part == "" {
    } else {
      SplitSlashFree(part[1..]);
      assert [part[0]] + part[1..] == part;
    }
  }

  /** Text to parts and back loses nothing, for parts without `/`. */
  lemma {:induction false} SplitOfJoin(parts: seq<string>)
    requires parts != [] && forall i :: 0 <= i < |parts| ==> '/' !in parts[i]
    ensures Split(Join(parts)) == parts
  {
    if |parts| == 1 {
      SplitSlashFree(parts[0]);
    } else {
      SplitOfJoin(parts[1..]);
      SplitSlashFree(parts[0]);
      SplitConcat(parts[0], Join(parts[1..]));
    }
  }

  lemma {:induction false} JoinOfSplit(text: string)
    ensures Join(Split(text)) == text
  {
    if text == "" {
    } else {
      JoinOfSplit(text[1..]);
      var r := Split(text[1..]);
      if text[0] == '/' {
        assert ([""] + r)[1..] == r;
        assert text == "/" + text[1..];
      } else {
        assert ConsHead(text[0], r)[1..] == r[1..];
        assert text == [text[0]] + text[1..];
      }
    }
  }

  predicate StartsWith(text: string, prefix: string) {
    |prefix| <= |text| && text[..|prefix|] == prefix
  }

  // ---- The order of names -----------------------------------------------------------------

  /** Code point order on strings. */
  predicate Before(a: string, b: string) {
    a == "" || (b != "" && (a[0] < b[0] || (a[0] == b[0] && Before(a[1..], b[1..]))))
  }

  /** `a` is a prefix of `b`, or smaller where they first differ. */
  ghost predicate SmallerFirst(a: string, b: string) {
    a <= b || exists k :: DifferAt(a, b, k)
  }

  ghost predicate DifferAt(a: string, b: string, k: nat) {
    k < |a| && k < |b| && a[..k] == b[..k] && a[k] < b[k]
  }

  lemma {:induction false} BeforeMeans(a: string, b: string)
    ensures Before(a, b) <==> SmallerFirst(a, b)
  {
    if a == "" {
    } else if b == "" {
    } else if a[0] != b[0] {
      if a[0] < b[0] { assert DifferAt(a, b, 0); }
    } else {
      BeforeMeans(a[1..], b[1..]);
      assert a == [a[0]] + a[1..] && b == [b[0]] + b[1..];
      if k: nat :| DifferAt(a[1..], b[1..], k) {
        assert a[..k + 1] == [a[0]] + a[1..][..k] && b[..k + 1] == [b[0]] + b[1..][..k];
        assert DifferAt(a, b, k + 1);
      }
      if k: nat :| DifferAt(a, b, k) {
        assert a[..k][1..] == a[1..][..k - 1] && b[..k][1..] == b[1..][..k - 1];
        assert DifferAt(a[1..], b[1..], k - 1);
      }
    }
  }

  lemma {:induction false} BeforeTotal(a: string, b: string)
    ensures Before(a, b) || Before(b, a)
    ensures Before(a, b) && Before(b, a) ==> a == b
  {
    if a == "" || b == "" || a[0] != b[0] {
    } else {
      BeforeTotal(a[1..], b[1..]);
      assert a == [a[0]] + a[1..] && b == [b[0]] + b[1..];
    }
  }

  lemma {:induction false} BeforeTransitive(a: string, b: string, c: string)
    requires Before(a, b) && Before(b, c)
    ensures Before(a, c)
  {
    if a == "" || a[0] != b[0] || b[0] != c[0] {
    } else {
      BeforeTransitive(a[1..], b[1..], c[1..]);
    }
  }

  lemma {:induction false} FirstExists(s: set<string>) returns (first: string)
    requires s != {}
    ensures first in s && forall x :: x in s ==> Before(first, x)
    decreases |s|
  {
    var a :| a in s;
    if s - {a} == {} {
      assert s == {a};
      BeforeTotal(a, a);
      return a;
    }
    var b := FirstExists(s - {a});
    BeforeTotal(a, a);
    BeforeTotal(a, b);
    first := if Before(a, b) then a else b;
    forall x | x in s
      ensures Before(first, x)
    {
      if x != a && first == a { BeforeTransitive(a, b, x); }
    }
  }

  lemma FirstUnique(s: set<string>)
    ensures s != {} ==> exists f :: f in s && forall x :: x in s ==> Before(f, x)
    ensures forall f, g ::
              && f in s && (forall x :: x in s ==> Before(f, x))
              && g in s && (forall x :: x in s ==> Before(g, x))
              ==> f == g
  {
    if s != {} { var f := FirstExists(s); }
    forall f, g | f in s && g in s && (forall x :: x in s ==> Before(f, x)) && (forall x :: x in s ==> Before(g, x))
      ensures f == g
    {
      BeforeTotal(f, g);
    }
  }

  /** `sorted(names)`. */
  function Sorted(s: set<string>): seq<string>
    decreases |s|
  {
    if s == {} then []
    else
      FirstUnique(s);
      var f :| f in s && forall x :: x in s ==> Before(f, x);
      [f] + Sorted(s - {f})
  }

  lemma {:induction false} SortedMembers(s: set<string>)
    ensures |Sorted(s)| == |s| && forall x :: x in Sorted(s) <==> x in s
    decreases |s|
  {
    if s == {} {
    } else {
      FirstUnique(s);
      var f :| f in s && forall x :: x in s ==> Before(f, x);
      SortedMembers(s - {f});
    }
  }

  lemma {:induction false} SortedOrder(s: set<string>)
    ensures Increasing(Sorted(s))
    decreases |s|
  {
    if s == {} {
    } else {
      FirstUnique(s);
      var f :| f in s && forall x :: x in s ==> Before(f, x);
      var rest := Sorted(s - {f});
      SortedMembers(s - {f});
      SortedOrder(s - {f});
      FirstThenRest(f, rest);
    }
  }

  /** Each name is before, and different from, all that follow. */
  ghost predicate Increasing(names: seq<string>) {
    forall i, j :: 0 <= i < j < |names| ==> names[i] != names[j] && Before(names[i], names[j])
  }

  lemma FirstThenRest(f: string, rest: seq<string>)
    requires Increasing(rest) && forall x :: x in rest ==> x != f && Before(f, x)
    ensures Increasing([f] + rest)
  {
    var all := [f] + rest;
    forall i, j | 0 <= i < j < |all|
      ensures all[i] != all[j] && Before(all[i], all[j])
    {
      assert all[j] == rest[j - 1] && rest[j - 1] in rest && (i > 0 ==> all[i] == rest[i - 1]);
    }
  }
}
