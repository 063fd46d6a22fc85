/** A directory's contents, and the traversal that lists them. */
module FileTree {
  import opened Prelude
  import opened PathText

  /** What is at a path.  A symbolic link is a leaf: its target is elsewhere, and only `is_dir` looks through it. */
  datatype Node =
    | File(data: string)
    | Dir
    | Link(target: string, toDir: bool)

  type Tree = map<Path, Node>

  function Parent(p: Path): Path
    requires p != []
  {
    p[..|p| - 1]
  }

  function Leaf(p: Path): Name { if p == [] then "" else p[|p| - 1] }

  predicate ValidName(n: Name) { n != "" && '/' !in n }

  /** Every entry's parent is the root or a directory of the tree. */
  ghost predicate WellFormed(t: Tree) {
    forall p :: p in t ==>
      && p != [] && (forall i :: 0 <= i < |p| ==> ValidName(p[i]))
      && IsDirOf(t, Parent(p))
  }

  /** The root or a directory below it. */
  predicate IsDirOf(t: Tree, d: Path) { d == [] || (d in t && t[d].Dir?) }

  predicate Under(p: Path, d: Path) { |d| < |p| && p[..|d|] == d }

  predicate ChildOf(t: Tree, d: Path, p: Path) { p in t && p != [] && Parent(p) == d }

  ghost predicate AllChildren(t: Tree, d: Path, s: seq<Path>) {
    forall i :: 0 <= i < |s| ==> ChildOf(t, d, s[i])
  }

  function ChildNames(t: Tree, d: Path): set<Name> { set p | p in t && p != [] && Parent(p) == d :: p[|p| - 1] }

  /** `sorted(d.iterdir())`. */
  function Kids(t: Tree, d: Path): seq<Path> {
    var names := Sorted(ChildNames(t, d));
    seq(|names|, i requires 0 <= i < |names| => d + [names[i]])
  }

  lemma NamedChild(t: Tree, d: Path, n: Name)
    requires n in ChildNames(t, d)
    ensures ChildOf(t, d, d + [n])
  {
    var p :| p in t && p != [] && Parent(p) == d && p[|p| - 1] == n;
    assert p == Parent(p) + [p[|p| - 1]];
  }

  lemma KidsAre(t: Tree, d: Path)
    ensures AllChildren(t, d, Kids(t, d))
  {
    var names, r := Sorted(ChildNames(t, d)), Kids(t, d);
    SortedMembers(ChildNames(t, d));
    forall i | 0 <= i < |r|
      ensures ChildOf(t, d, r[i])
    {
      assert names[i] in names;
      NamedChild(t, d, names[i]);
    }
  }

  /** Entries come in the order of their names, each once. */
  lemma KidsSorted(t: Tree, d: Path)
    ensures var r := Kids(t, d); forall i, j :: 0 <= i < j < |r| ==> r[i] != r[j] && Before(Leaf(r[i]), Leaf(r[j]))
  {
    var names, r := Sorted(ChildNames(t, d)), Kids(t, d);
    SortedOrder(ChildNames(t, d));
    forall i | 0 <= i < |r|
      ensures Leaf(r[i]) == names[i]
    {
    }
  }

  lemma KidIn(t: Tree, d: Path, p: Path)
    requires ChildOf(t, d, p)
    ensures p in Kids(t, d)
  {
    var names := Sorted(ChildNames(t, d));
    SortedMembers(ChildNames(t, d));
    assert p[|p| - 1] in names;
    var i :| 0 <= i < |names| && names[i] == p[|p| - 1];
    assert p == Parent(p) + [names[i]];
    assert Kids(t, d)[i] == p;
  }

  /** `entry.is_dir()`, which follows links. */
  predicate ReportsDir(n: Node) { n.Dir? || (n.Link? && n.toDir) }

  predicate IsListed(t: Tree, p: Path) { p in t && !t[p].Link? }

  predicate IsSubDir(t: Tree, p: Path) { p in t && t[p].Dir? }

  /** The entries that are listed: all but symbolic links. */
  function Listed(t: Tree, entries: seq<Path>): seq<Path> {
    if entries == [] then []
    else
      var e := entries[|entries| - 1];
      Listed(t, entries[..|entries| - 1]) + if IsListed(t, e) then [e] else []
  }

  /** The real directories among `entries`. */
  function SubDirs(t: Tree, entries: seq<Path>): (r: seq<Path>)
    ensures |r| <= |Listed(t, entries)|
  {
    if entries == [] then []
    else
      var e := entries[|entries| - 1];
      SubDirs(t, entries[..|entries| - 1]) + if IsSubDir(t, e) then [e] else []
  }

  lemma ListedSnoc(t: Tree, entries: seq<Path>, e: Path)
    ensures Listed(t, entries + [e]) == Listed(t, entries) + if IsListed(t, e) then [e] else []
    ensures SubDirs(t, entries + [e]) == SubDirs(t, entries) + if IsSubDir(t, e) then [e] else []
  {
    assert (entries + [e])[..|entries|] == entries;
  }

  lemma {:induction false} SubDirsAre(t: Tree, d: Path, entries: seq<Path>)
    requires AllChildren(t, d, entries)
    ensures var r := SubDirs(t, entries);
      AllChildren(t, d, r) && forall i :: 0 <= i < |r| ==> IsSubDir(t, r[i])
  {
    if entries == [] {
    } else {
      var rest, e := entries[..|entries| - 1], entries[|entries| - 1];
      assert AllChildren(t, d, rest) by {
        forall i | 0 <= i < |rest|
          ensures ChildOf(t, d, rest[i])
        {
          assert ChildOf(t, d, entries[i]);
        }
      }
      SubDirsAre(t, d, rest);
      assert ChildOf(t, d, e);
    }
  }

  // ---- The order of the listing, by structural recursion ----------------------------------

  ghost function Below(t: Tree, d: Path): set<Path> { set p | p in t && Under(p, d) }

  lemma ChildIsSmaller(t: Tree, d: Path, child: Path)
    requires child in t && child != [] && Parent(child) == d
    ensures Below(t, child) < Below(t, d)
  {
    forall p | p in Below(t, child)
      ensures p in Below(t, d)
    {
      assert p[..|d|] == p[..|child|][..|d|];
    }
    assert child in Below(t, d) && child !in Below(t, child);
  }

  /** Everything below `d`: its entries first, then its subdirectories, the last one first. */
  ghost function Walk(t: Tree, d: Path): seq<Path>
    decreases Below(t, d), 1, 0
  {
    KidsAre(t, d);
    SubDirsAre(t, d, Kids(t, d));
    Listed(t, Kids(t, d)) + WalkAll(t, d, SubDirs(t, Kids(t, d)))
  }

  ghost function WalkAll(t: Tree, d: Path, dirs: seq<Path>): seq<Path>
    requires AllChildren(t, d, dirs)
    decreases Below(t, d), 0, |dirs|
  {
    if dirs == [] then []
    else
      var last := dirs[|dirs| - 1];
      assert ChildOf(t, d, last);
      ChildIsSmaller(t, d, last);
      Walk(t, last) + WalkAll(t, d, dirs[..|dirs| - 1])
  }

  // ---- The explicit stack -----------------------------------------------------------------

  /** What visiting everything on `stack` yields, the top (its last element) first. */
  ghost function Gather<T, U>(visit: T -> seq<U>, stack: seq<T>): seq<U> {
    if stack == [] then [] else visit(stack[|stack| - 1]) + Gather(visit, stack[..|stack| - 1])
  }

  lemma {:induction false} GatherPush<T, U>(visit: T -> seq<U>, stack: seq<T>, pushed: seq<T>)
    ensures Gather(visit, stack + pushed) == Gather(visit, pushed) + Gather(visit, stack)
  {
    if pushed == [] {
      assert stack + pushed == stack;
    } else {
      var rest := pushed[..|pushed| - 1];
      var top := pushed[|pushed| - 1];
      GatherPush(visit, stack, rest);
      assert pushed == rest + [top] && stack + pushed == (stack + rest) + [top];
      GatherSnoc(visit, stack + rest, top);
      GatherSnoc(visit, rest, top);
      Regroup(visit(top), Gather(visit, rest), Gather(visit, stack));
    }
  }

  lemma GatherSnoc<T, U>(visit: T -> seq<U>, stack: seq<T>, top: T)
    ensures Gather(visit, stack + [top]) == visit(top) + Gather(visit, stack)
  {
    assert (stack + [top])[..|stack|] == stack;
  }

  ghost function WalkOf(t: Tree): Path -> seq<Path> { d => Walk(t, d) }

  lemma {:induction false} WalkAllGathers(t: Tree, d: Path, dirs: seq<Path>)
    requires AllChildren(t, d, dirs)
    ensures WalkAll(t, d, dirs) == Gather(WalkOf(t), dirs)
  {
    if dirs == [] {
    } else {
      assert AllChildren(t, d, dirs[..|dirs| - 1]);
      WalkAllGathers(t, d, dirs[..|dirs| - 1]);
    }
  }

  /** Visiting one directory: its listed entries come out, its subdirectories go on the stack. */
  lemma WalkGathers(t: Tree, d: Path)
    ensures Walk(t, d) == Listed(t, Kids(t, d)) + Gather(WalkOf(t), SubDirs(t, Kids(t, d)))
  {
    KidsAre(t, d);
    SubDirsAre(t, d, Kids(t, d));
    WalkAllGathers(t, d, SubDirs(t, Kids(t, d)));
  }

  /**
   * `_iter_files`: an explicit stack of directories.  It terminates on every tree and yields
   * what the recursive listing yields, in the same order.
   */
  method IterFiles(t: Tree) returns (out: seq<Path>)
    ensures out == Walk(t, [])
  {
    out := [];
    var stack: seq<Path> := [[]];
    ghost var all := Walk(t, []);
    GatherOne(WalkOf(t), []);
    while stack != []
      invariant out + Gather(WalkOf(t), stack) == all
      decreases |Gather(WalkOf(t), stack)|, |stack|
    {
      var current := stack[|stack| - 1];
      var found, dirs := Visit(t, current);
      VisitTop(t, stack, out, found, dirs);
      out := out + found;
      stack := stack[..|stack| - 1] + dirs;
    }
  }

  lemma GatherOne<T, U>(visit: T -> seq<U>, x: T)
    ensures Gather(visit, [x]) == visit(x)
  {
    assert [x][..0] == [];
  }

  /** Popping a directory, yielding what it lists and pushing its subdirectories, leaves the whole listing the same. */
  lemma VisitTop(t: Tree, stack: seq<Path>, out: seq<Path>, found: seq<Path>, dirs: seq<Path>)
    requires stack != []
    requires var d := stack[|stack| - 1]; found == Listed(t, Kids(t, d)) && dirs == SubDirs(t, Kids(t, d))
    ensures var rest := stack[..|stack| - 1];
      && out + found + Gather(WalkOf(t), rest + dirs) == out + Gather(WalkOf(t), stack)
      && |found| + |Gather(WalkOf(t), rest + dirs)| == |Gather(WalkOf(t), stack)|
  {
    WalkGathers(t, stack[|stack| - 1]);
    GatherStep(WalkOf(t), stack, out, found, dirs);
  }

  lemma GatherStep<T, U>(visit: T -> seq<U>, stack: seq<T>, out: seq<U>, found: seq<U>, pushed: seq<T>)
    requires stack != [] && visit(stack[|stack| - 1]) == found + Gather(visit, pushed)
    ensures var rest := stack[..|stack| - 1];
      && out + found + Gather(visit, rest + pushed) == out + Gather(visit, stack)
      && |found| + |Gather(visit, rest + pushed)| == |Gather(visit, stack)|
  {
    var rest, top := stack[..|stack| - 1], stack[|stack| - 1];
    GatherPush(visit, rest, pushed);
    assert stack == rest + [top];
    GatherSnoc(visit, rest, top);
    Regroup(found, Gather(visit, pushed), Gather(visit, rest));
    Regroup(out, found, Gather(visit, rest + pushed));
  }

  /** The loop over the sorted entries of one directory: what it yields and what it pushes. */
  method Visit(t: Tree, current: Path) returns (out: seq<Path>, pushed: seq<Path>)
    ensures out == Listed(t, Kids(t, current)) && pushed == SubDirs(t, Kids(t, current))
    ensures |pushed| <= |out|
  {
    KidsAre(t, current);
    var entries := Kids(t, current);
    out, pushed := [], [];
    for i := 0 to |entries|
      invariant out == Listed(t, entries[..i])
      invariant pushed == SubDirs(t, entries[..i])
    {
      var entry := entries[i];
      ListedSnoc(t, entries[..i], entry);
      assert entries[..i + 1] == entries[..i] + [entry];
      assert ChildOf(t, current, entry);
      if t[entry].Link? { continue; }
      if ReportsDir(t[entry]) {
        out := out + [entry];
        pushed := pushed + [entry];
      } else {
        out := out + [entry];
      }
    }
    assert entries[..|entries|] == entries;
  }
}
