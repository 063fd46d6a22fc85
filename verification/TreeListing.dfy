/** What the traversal lists: every entry that is no symbolic link, once, directories first. */
module TreeListing {
  import opened Prelude
  import opened PathText
  import opened FileTree

  // ---- Members ----------------------------------------------------------------------------

  lemma {:induction false} ListedMembers(t: Tree, entries: seq<Path>, p: Path)
    ensures p in Listed(t, entries) <==> p in entries && IsListed(t, p)
    ensures p in SubDirs(t, entries) <==> p in entries && IsSubDir(t, p)
  {
    if entries == [] {
    } else {
      var rest, e := entries[..|entries| - 1], entries[|entries| - 1];
      ListedMembers(t, rest, p);
      assert entries == rest + [e];
    }
  }

  lemma KidMembers(t: Tree, d: Path, p: Path)
    ensures p in Kids(t, d) <==> ChildOf(t, d, p)
  {
    if p in Kids(t, d) {
      KidsAre(t, d);
      var i :| 0 <= i < |Kids(t, d)| && Kids(t, d)[i] == p;
      assert ChildOf(t, d, Kids(t, d)[i]);
    }
    if ChildOf(t, d, p) { KidIn(t, d, p); }
  }

  /** What is above an entry is a directory. */
  lemma {:induction false} AboveIsDir(t: Tree, p: Path, k: nat)
    requires WellFormed(t) && p in t && 0 < k < |p|
    ensures IsSubDir(t, p[..k])
    decreases |p|
  {
    var q := Parent(p);
    ParentIsSubDir(t, p);
    if k == |q| {
      assert p[..k] == q;
    } else {
      AboveIsDir(t, q, k);
      assert p[..k] == q[..k];
    }
  }

  lemma ParentIsSubDir(t: Tree, p: Path)
    requires WellFormed(t) && p in t && |p| > 1
    ensures |Parent(p)| == |p| - 1 && IsSubDir(t, Parent(p))
  {
    assert IsDirOf(t, Parent(p));
  }

  /** Below `d` means: an entry of `d`, or below one of its subdirectories. */
  lemma BelowSplits(t: Tree, d: Path, p: Path)
    requires WellFormed(t) && p in t && Under(p, d)
    ensures ChildOf(t, d, p) || (var c := p[..|d| + 1]; ChildOf(t, d, c) && IsSubDir(t, c) && Under(p, c))
  {
    var c := p[..|d| + 1];
    assert Parent(c) == d by { assert c[..|d|] == p[..|d|]; }
    if |p| == |d| + 1 {
      assert c == p;
    } else {
      AboveIsDir(t, p, |d| + 1);
    }
  }

  lemma UnderChild(t: Tree, d: Path, c: Path, p: Path)
    requires ChildOf(t, d, c) && Under(p, c)
    ensures Under(p, d) && c == p[..|d| + 1]
  {
    assert p[..|d|] == p[..|c|][..|d|];
  }

  lemma {:induction false} WalkMembers(t: Tree, d: Path, p: Path)
    requires WellFormed(t)
    ensures p in Walk(t, d) <==> IsListed(t, p) && Under(p, d)
    decreases Below(t, d), 1, 0
  {
    var kids := Kids(t, d);
    var dirs := SubDirs(t, kids);
    KidsAre(t, d);
    SubDirsAre(t, d, kids);
    KidMembers(t, d, p);
    ListedMembers(t, kids, p);
    WalkAllMembers(t, d, dirs, p);
    assert ChildOf(t, d, p) ==> Under(p, d);
    if IsListed(t, p) && Under(p, d) {
      BelowSplits(t, d, p);
      if !ChildOf(t, d, p) {
        var c := p[..|d| + 1];
        KidMembers(t, d, c);
        ListedMembers(t, kids, c);
        assert c in dirs && Under(p, c);
      }
    }
    if c :| c in dirs && Under(p, c) {
      var i :| 0 <= i < |dirs| && dirs[i] == c;
      assert ChildOf(t, d, dirs[i]);
      UnderChild(t, d, c, p);
    }
  }

  lemma {:induction false} WalkAllMembers(t: Tree, d: Path, dirs: seq<Path>, p: Path)
    requires WellFormed(t) && AllChildren(t, d, dirs)
    ensures p in WalkAll(t, d, dirs) <==> IsListed(t, p) && BelowOne(dirs, p)
    decreases Below(t, d), 0, |dirs|
  {
    if dirs == [] {
    } else {
      var rest, last := dirs[..|dirs| - 1], dirs[|dirs| - 1];
      assert ChildOf(t, d, last);
      ChildIsSmaller(t, d, last);
      WalkMembers(t, last, p);
      assert AllChildren(t, d, rest);
      WalkAllMembers(t, d, rest, p);
      WalkAllUnfolds(t, d, dirs, p);
      BelowOneSnoc(dirs, p);
    }
  }

  /** `p` is below one of the directories. */
  ghost predicate BelowOne(dirs: seq<Path>, p: Path) { exists c :: c in dirs && Under(p, c) }

  lemma BelowOneSnoc(dirs: seq<Path>, p: Path)
    requires dirs != []
    ensures var rest, last := dirs[..|dirs| - 1], dirs[|dirs| - 1];
      BelowOne(dirs, p) <==> BelowOne(rest, p) || Under(p, last)
  {
    assert dirs == dirs[..|dirs| - 1] + [dirs[|dirs| - 1]];
  }

  lemma WalkAllUnfolds(t: Tree, d: Path, dirs: seq<Path>, p: Path)
    requires AllChildren(t, d, dirs) && dirs != []
    ensures var rest, last := dirs[..|dirs| - 1], dirs[|dirs| - 1];
      AllChildren(t, d, rest) && (p in WalkAll(t, d, dirs) <==> p in Walk(t, last) || p in WalkAll(t, d, rest))
  {
    assert AllChildren(t, d, dirs[..|dirs| - 1]);
  }

  // ---- Once each --------------------------------------------------------------------------

  lemma NoDupConcat<T>(a: seq<T>, b: seq<T>)
    requires NoDup(a) && NoDup(b) && forall x :: x in a ==> x !in b
    ensures NoDup(a + b)
  {
    forall i, j | 0 <= i < j < |a + b|
      ensures (a + b)[i] != (a + b)[j]
    {
      if i < |a| <= j { assert a[i] in a && b[j - |a|] in b; }
    }
  }

  lemma {:induction false} ListedNoDup(t: Tree, entries: seq<Path>)
    requires NoDup(entries)
    ensures NoDup(Listed(t, entries)) && NoDup(SubDirs(t, entries))
  {
    if entries == [] {
    } else {
      var rest, e := entries[..|entries| - 1], entries[|entries| - 1];
      ListedNoDup(t, rest);
      ListedMembers(t, rest, e);
      if IsListed(t, e) { NoDupConcat(Listed(t, rest), [e]); }
      if IsSubDir(t, e) { NoDupConcat(SubDirs(t, rest), [e]); }
    }
  }

  lemma {:induction false} WalkOnce(t: Tree, d: Path)
    requires WellFormed(t)
    ensures NoDup(Walk(t, d))
    decreases Below(t, d), 1, 0
  {
    var kids := Kids(t, d);
    var dirs := SubDirs(t, kids);
    KidsAre(t, d);
    KidsSorted(t, d);
    SubDirsAre(t, d, kids);
    ListedNoDup(t, kids);
    WalkAllOnce(t, d, dirs);
    forall p | p in Listed(t, kids)
      ensures p !in WalkAll(t, d, dirs)
    {
      ListedMembers(t, kids, p);
      KidMembers(t, d, p);
      NotBelowSibling(t, d, dirs, p);
    }
    NoDupConcat(Listed(t, kids), WalkAll(t, d, dirs));
  }

  lemma NotBelowSibling(t: Tree, d: Path, dirs: seq<Path>, p: Path)
    requires WellFormed(t) && AllChildren(t, d, dirs) && ChildOf(t, d, p)
    ensures p !in WalkAll(t, d, dirs)
  {
    WalkAllMembers(t, d, dirs, p);
    forall i | 0 <= i < |dirs|
      ensures !Under(p, dirs[i])
    {
      assert ChildOf(t, d, dirs[i]);
    }
  }

  lemma {:induction false} WalkAllOnce(t: Tree, d: Path, dirs: seq<Path>)
    requires WellFormed(t) && AllChildren(t, d, dirs) && NoDup(dirs)
    ensures NoDup(WalkAll(t, d, dirs))
    decreases Below(t, d), 0, |dirs|
  {
    if dirs == [] {
    } else {
      var rest, last := dirs[..|dirs| - 1], dirs[|dirs| - 1];
      assert ChildOf(t, d, last);
      ChildIsSmaller(t, d, last);
      WalkOnce(t, last);
      assert AllChildren(t, d, rest);
      WalkAllOnce(t, d, rest);
      forall p | p in Walk(t, last)
        ensures p !in WalkAll(t, d, rest)
      {
        WalkMembers(t, last, p);
        WalkAllMembers(t, d, rest, p);
        UnderChild(t, d, last, p);
        forall i | 0 <= i < |rest|
          ensures !Under(p, rest[i])
        {
          assert ChildOf(t, d, rest[i]) && rest[i] == dirs[i];
          if Under(p, rest[i]) { UnderChild(t, d, rest[i], p); }
        }
      }
      NoDupConcat(Walk(t, last), WalkAll(t, d, rest));
    }
  }

  // ---- Directories before what is in them -------------------------------------------------

  /** Each element's parent is known beforehand or occurs before it. */
  ghost predicate ParentFirst<T>(w: seq<T>, parent: T -> T, known: set<T>) {
    forall i :: 0 <= i < |w| ==> parent(w[i]) in known || parent(w[i]) in w[..i]
  }

  lemma ParentFirstConcat<T>(a: seq<T>, b: seq<T>, parent: T -> T, known: set<T>)
    requires ParentFirst(a, parent, known) && ParentFirst(b, parent, known + (set x | x in a))
    ensures ParentFirst(a + b, parent, known)
  {
    forall i | 0 <= i < |a + b|
      ensures parent((a + b)[i]) in known || parent((a + b)[i]) in (a + b)[..i]
    {
      if i < |a| {
        assert (a + b)[i] == a[i] && (a + b)[..i] == a[..i];
      } else {
        assert (a + b)[i] == b[i - |a|] && (a + b)[..i] == a + b[..i - |a|];
      }
    }
  }

  lemma ParentFirstMore<T>(w: seq<T>, parent: T -> T, known: set<T>, more: set<T>)
    requires ParentFirst(w, parent, known) && known <= more
    ensures ParentFirst(w, parent, more)
  {
  }

  function ParentOf(p: Path): Path { if p == [] then [] else Parent(p) }

  lemma {:induction false} WalkParentFirst(t: Tree, d: Path)
    requires WellFormed(t)
    ensures ParentFirst(Walk(t, d), ParentOf, {d})
    decreases Below(t, d), 1, 0
  {
    var kids := Kids(t, d);
    var dirs, listed := SubDirs(t, kids), Listed(t, kids);
    KidsAre(t, d);
    SubDirsAre(t, d, kids);
    forall i | 0 <= i < |listed|
      ensures ParentOf(listed[i]) == d
    {
      ListedMembers(t, kids, listed[i]);
      KidMembers(t, d, listed[i]);
    }
    WalkAllParentFirst(t, d, dirs);
    forall c | c in dirs
      ensures c in listed
    {
      ListedMembers(t, kids, c);
    }
    ParentFirstMore(WalkAll(t, d, dirs), ParentOf, (set c | c in dirs), {d} + (set x | x in listed));
    ParentFirstConcat(listed, WalkAll(t, d, dirs), ParentOf, {d});
  }

  lemma {:induction false} WalkAllParentFirst(t: Tree, d: Path, dirs: seq<Path>)
    requires WellFormed(t) && AllChildren(t, d, dirs)
    ensures ParentFirst(WalkAll(t, d, dirs), ParentOf, set c | c in dirs)
    decreases Below(t, d), 0, |dirs|
  {
    if dirs == [] {
    } else {
      var rest, last := dirs[..|dirs| - 1], dirs[|dirs| - 1];
      assert ChildOf(t, d, last);
      ChildIsSmaller(t, d, last);
      WalkParentFirst(t, last);
      assert AllChildren(t, d, rest);
      WalkAllParentFirst(t, d, rest);
      var known := set c | c in dirs;
      ParentFirstMore(Walk(t, last), ParentOf, {last}, known);
      ParentFirstMore(WalkAll(t, d, rest), ParentOf, (set c | c in rest), known + (set x | x in Walk(t, last)));
      ParentFirstConcat(Walk(t, last), WalkAll(t, d, rest), ParentOf, known);
    }
  }

  /** The entry at `i` is at the top, or the directory it is in was listed before it. */
  ghost predicate ParentBefore(w: seq<Path>, i: nat)
    requires i < |w|
  {
    |w[i]| == 1 || (|w[i]| > 1 && Parent(w[i]) in w[..i])
  }

  /**
   * The traversal yields every entry that is no symbolic link exactly once, nothing else, and
   * every directory before anything inside it.
   */
  lemma TraversalIsComplete(t: Tree)
    requires WellFormed(t)
    ensures NoDup(Walk(t, []))
    ensures forall p :: p in Walk(t, []) <==> p in t && !t[p].Link?
    ensures forall i :: 0 <= i < |Walk(t, [])| ==> ParentBefore(Walk(t, []), i)
  {
    var w := Walk(t, []);
    WalkOnce(t, []);
    WalkParentFirst(t, []);
    forall p
      ensures p in w <==> IsListed(t, p)
    {
      WalkMembers(t, [], p);
    }
    forall i | 0 <= i < |w|
      ensures ParentBefore(w, i)
    {
      WalkMembers(t, [], w[i]);
      assert ParentOf(w[i]) in {[]} || ParentOf(w[i]) in w[..i];
    }
  }
}
