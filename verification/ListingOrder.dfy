/** The order of the listing, stated without the traversal: archives of one tree never differ. */
module ListingOrder {
  import opened Prelude
  import opened PathText
  import opened FileTree
  import opened TreeListing
  import opened SnapshotArchive

  /**
   * Which of two paths is listed first.  A directory comes before what is in it.  Where two paths
   * part, entries of the common directory come first, by name, and then what is deeper, by the
   * names of the subdirectories backwards.
   */
  predicate Earlier(p: Path, q: Path) {
    if p == [] then q != []
    else if q == [] then false
    else if p[0] == q[0] then Earlier(p[1..], q[1..])
    else if |p| == 1 && |q| == 1 then Before(p[0], q[0])
    else if |p| == 1 || |q| == 1 then |p| == 1
    else Before(q[0], p[0])
  }

  lemma {:induction false} EarlierIsStrict(p: Path, q: Path)
    ensures !(Earlier(p, q) && Earlier(q, p))
  {
    if p == [] || q == [] {
    } else if p[0] == q[0] {
      EarlierIsStrict(p[1..], q[1..]);
    } else {
      BeforeTotal(p[0], q[0]);
    }
  }

  /** Only what follows a common directory matters. */
  lemma {:induction false} EarlierBelow(d: Path, x: Path, y: Path)
    ensures Earlier(d + x, d + y) <==> Earlier(x, y)
  {
    if d == [] {
      assert d + x == x && d + y == y;
    } else {
      EarlierBelow(d[1..], x, y);
      assert (d + x)[1..] == d[1..] + x && (d + y)[1..] == d[1..] + y;
    }
  }

  ghost predicate InOrder(w: seq<Path>) { forall i, j :: 0 <= i < j < |w| ==> Earlier(w[i], w[j]) }

  lemma InOrderConcat(a: seq<Path>, b: seq<Path>)
    requires InOrder(a) && InOrder(b) && forall x, y :: x in a && y in b ==> Earlier(x, y)
    ensures InOrder(a + b)
  {
    forall i, j | 0 <= i < j < |a + b|
      ensures Earlier((a + b)[i], (a + b)[j])
    {
      if i < |a| <= j { assert a[i] in a && b[j - |a|] in b; }
    }
  }

  /** Two listings of the same paths in this order are the same. */
  lemma {:induction false} OneOrderOnly(a: seq<Path>, b: seq<Path>)
    requires InOrder(a) && InOrder(b) && forall p :: p in a <==> p in b
    ensures a == b
  {
    if a == [] {
      HasMember(b);
    } else {
      assert a[0] in b;
      SameFirst(a, b);
      TailMembers(a);
      TailMembers(b);
      OneOrderOnly(a[1..], b[1..]);
      assert a == [a[0]] + a[1..] && b == [b[0]] + b[1..];
    }
  }

  lemma HasMember(w: seq<Path>)
    ensures w != [] ==> exists p :: p in w
  {
    if w != [] { assert w[0] in w; }
  }

  lemma SameFirst(a: seq<Path>, b: seq<Path>)
    requires a != [] && b != [] && InOrder(a) && InOrder(b) && a[0] in b && b[0] in a
    ensures a[0] == b[0]
  {
    EarlierIsStrict(a[0], b[0]);
  }

  lemma TailMembers(w: seq<Path>)
    requires w != [] && InOrder(w)
    ensures forall p :: p in w[1..] <==> p in w && p != w[0]
  {
    EarlierIsStrict(w[0], w[0]);
    assert forall i :: 0 < i < |w| ==> w[i] == w[1..][i - 1] && Earlier(w[0], w[i]);
  }

  // ---- The traversal ----------------------------------------------------------------------

  lemma KidsInOrder(t: Tree, d: Path)
    ensures InOrder(Kids(t, d))
  {
    var kids := Kids(t, d);
    KidsSorted(t, d);
    KidsAre(t, d);
    forall i, j | 0 <= i < j < |kids|
      ensures Earlier(kids[i], kids[j])
    {
      assert ChildOf(t, d, kids[i]) && ChildOf(t, d, kids[j]);
      SiblingsByName(d, kids[i], kids[j]);
    }
  }

  lemma SiblingsByName(d: Path, p: Path, q: Path)
    requires p != [] && q != [] && Parent(p) == d && Parent(q) == d && p != q && Before(Leaf(p), Leaf(q))
    ensures Earlier(p, q)
  {
    assert p == d + [Leaf(p)] && q == d + [Leaf(q)];
    EarlierBelow(d, [Leaf(p)], [Leaf(q)]);
  }

  lemma {:induction false} PartsInOrder(t: Tree, entries: seq<Path>)
    requires InOrder(entries)
    ensures InOrder(Listed(t, entries)) && InOrder(SubDirs(t, entries))
  {
    if entries == [] {
    } else {
      var rest, e := entries[..|entries| - 1], entries[|entries| - 1];
      PartsInOrder(t, rest);
      forall x | x in Listed(t, rest) || x in SubDirs(t, rest)
        ensures Earlier(x, e)
      {
        ListedMembers(t, rest, x);
        var i :| 0 <= i < |rest| && rest[i] == x;
        assert entries[i] == x;
      }
      if IsListed(t, e) { InOrderConcat(Listed(t, rest), [e]); }
      if IsSubDir(t, e) { InOrderConcat(SubDirs(t, rest), [e]); }
    }
  }

  /** An entry of `d` comes before everything deeper below `d`. */
  lemma EntryBeforeDeeper(d: Path, p: Path, c: Path, q: Path)
    requires p != [] && c != [] && Parent(p) == d && Parent(c) == d && Under(q, c)
    ensures Earlier(p, q)
  {
    var rest := BelowDir(d, c, q);
    assert p == d + [Leaf(p)];
    EarlierBelow(d, [Leaf(p)], rest);
  }

  /** From directory `d` on, a path below its entry `c`. */
  lemma BelowDir(d: Path, c: Path, x: Path) returns (rest: Path)
    requires c != [] && Parent(c) == d && Under(x, c)
    ensures x == d + rest && |rest| > 1 && rest[0] == Leaf(c)
  {
    rest := x[|d|..];
    assert x[..|d|] == x[..|c|][..|d|] == d;
    assert rest[0] == x[..|c|][|d|];
  }

  /** What is below a later subdirectory comes before what is below an earlier one. */
  lemma LaterDirFirst(d: Path, b: Path, x: Path, c: Path, y: Path)
    requires b != [] && c != [] && Parent(b) == d && Parent(c) == d && Earlier(b, c) && Under(x, c) && Under(y, b)
    ensures Earlier(x, y)
  {
    var m, n := Leaf(b), Leaf(c);
    var xs := BelowDir(d, c, x);
    var ys := BelowDir(d, b, y);
    assert b == d + [m] && c == d + [n];
    EarlierBelow(d, [m], [n]);
    EarlierBelow(d, xs, ys);
    assert m == n ==> !Earlier([m][1..], [n][1..]);
  }

  lemma {:induction false} WalkInOrder(t: Tree, d: Path)
    requires WellFormed(t)
    ensures InOrder(Walk(t, d))
    decreases Below(t, d), 1, 0
  {
    var kids := Kids(t, d);
    var dirs := SubDirs(t, kids);
    KidsAre(t, d);
    SubDirsAre(t, d, kids);
    KidsInOrder(t, d);
    PartsInOrder(t, kids);
    WalkAllInOrder(t, d, dirs);
    forall p, q | p in Listed(t, kids) && q in WalkAll(t, d, dirs)
      ensures Earlier(p, q)
    {
      ListedMembers(t, kids, p);
      KidMembers(t, d, p);
      var c := BelowWhich(t, d, dirs, q);
      EntryBeforeDeeper(d, p, c, q);
    }
    InOrderConcat(Listed(t, kids), WalkAll(t, d, dirs));
  }

  lemma BelowWhich(t: Tree, d: Path, dirs: seq<Path>, q: Path) returns (c: Path)
    requires WellFormed(t) && AllChildren(t, d, dirs) && q in WalkAll(t, d, dirs)
    ensures c in dirs && ChildOf(t, d, c) && Under(q, c)
  {
    WalkAllMembers(t, d, dirs, q);
    c :| c in dirs && Under(q, c);
    var i :| 0 <= i < |dirs| && dirs[i] == c;
    assert ChildOf(t, d, dirs[i]);
  }

  lemma {:induction false} WalkAllInOrder(t: Tree, d: Path, dirs: seq<Path>)
    requires WellFormed(t) && AllChildren(t, d, dirs) && InOrder(dirs)
    ensures InOrder(WalkAll(t, d, dirs))
    decreases Below(t, d), 0, |dirs|
  {
    if dirs == [] {
    } else {
      var rest, last := dirs[..|dirs| - 1], dirs[|dirs| - 1];
      assert ChildOf(t, d, last);
      ChildIsSmaller(t, d, last);
      WalkInOrder(t, last);
      assert AllChildren(t, d, rest);
      WalkAllInOrder(t, d, rest);
      forall x, y | x in Walk(t, last) && y in WalkAll(t, d, rest)
        ensures Earlier(x, y)
      {
        WalkMembers(t, last, x);
        var b := BelowWhich(t, d, rest, y);
        LaterDirFirst(d, b, x, last, y);
      }
      InOrderConcat(Walk(t, last), WalkAll(t, d, rest));
    }
  }

  /**
   * The listing of a tree is the one sequence that holds every entry but the symbolic links, and
   * nothing else, in this order.
   */
  lemma ListingIsDetermined(t: Tree, w: seq<Path>)
    requires WellFormed(t)
    ensures w == Walk(t, []) <==> InOrder(w) && forall p :: p in w <==> p in t && !t[p].Link?
  {
    WalkInOrder(t, []);
    TraversalIsComplete(t);
    if InOrder(w) && forall p :: p in w <==> p in t && !t[p].Link? {
      OneOrderOnly(w, Walk(t, []));
    }
  }

  // ---- The archive ------------------------------------------------------------------------

  /** The paths its members name. */
  function PathsOf(archive: seq<Member>): (r: seq<Path>)
    ensures |r| == |archive| && forall i :: 0 <= i < |r| ==> r[i] == Split(archive[i].name)
  {
    if archive == [] then [] else PathsOf(archive[..|archive| - 1]) + [Split(archive[|archive| - 1].name)]
  }

  lemma PathsSnoc(archive: seq<Member>, m: Member)
    ensures PathsOf(archive + [m]) == PathsOf(archive) + [Split(m.name)]
  {
    assert (archive + [m])[..|archive|] == archive;
  }

  /** The kept paths of a listing, in its order. */
  function KeptOf(ex: Path, t: Tree, w: seq<Path>): seq<Path> {
    if w == [] then []
    else
      var p := w[|w| - 1];
      KeptOf(ex, t, w[..|w| - 1]) + if Keeps(ex, t, p) then [p] else []
  }

  lemma {:induction false} KeptInOrder(ex: Path, t: Tree, w: seq<Path>)
    requires InOrder(w)
    ensures InOrder(KeptOf(ex, t, w)) && forall p :: p in KeptOf(ex, t, w) <==> p in w && Keeps(ex, t, p)
  {
    if w == [] {
    } else {
      var rest, p := w[..|w| - 1], w[|w| - 1];
      KeptInOrder(ex, t, rest);
      assert w == rest + [p];
      forall x | x in KeptOf(ex, t, rest)
        ensures Earlier(x, p)
      {
        var i :| 0 <= i < |rest| && rest[i] == x;
        assert w[i] == x;
      }
      if Keeps(ex, t, p) { InOrderConcat(KeptOf(ex, t, rest), [p]); }
    }
  }

  /** Each member names its path and has what is there. */
  ghost predicate Faithful(t: Tree, archive: seq<Member>, paths: seq<Path>) {
    && PathsOf(archive) == paths
    && forall i :: 0 <= i < |archive| ==> paths[i] in t && archive[i] == Member(Join(paths[i]), t[paths[i]])
  }

  lemma SoundName(t: Tree, p: Path)
    requires WellFormed(t) && p in t
    ensures Split(Join(p)) == p
  {
    assert forall k :: 0 <= k < |p| ==> ValidName(p[k]);
    SplitOfJoin(p);
  }

  lemma FaithfulSnoc(t: Tree, archive: seq<Member>, paths: seq<Path>, p: Path)
    requires Faithful(t, archive, paths) && p in t && Split(Join(p)) == p
    ensures Faithful(t, archive + [Member(Join(p), t[p])], paths + [p])
  {
    PathsSnoc(archive, Member(Join(p), t[p]));
  }

  lemma LastMember(ex: Path, t: Tree, w: seq<Path>)
    requires MetaDir(ex) && WellFormed(t) && w != [] && w[|w| - 1] in t && !t[w[|w| - 1]].Link?
    ensures var rest, p := w[..|w| - 1], w[|w| - 1];
      Members(ex, t, w) == Members(ex, t, rest) + if Keeps(ex, t, p) then [Member(Join(p), t[p])] else []
  {
    assert w[..|w|] == w;
    MembersNext(ex, t, w, |w| - 1);
  }

  lemma {:induction false} MembersAreFaithful(ex: Path, t: Tree, w: seq<Path>)
    requires MetaDir(ex) && WellFormed(t) && forall p :: p in w ==> p in t && !t[p].Link?
    ensures Faithful(t, Members(ex, t, w), KeptOf(ex, t, w))
  {
    if w == [] {
    } else {
      var rest, p := w[..|w| - 1], w[|w| - 1];
      assert p in w;
      var before, kept := Members(ex, t, rest), KeptOf(ex, t, rest);
      MembersAreFaithful(ex, t, rest);
      LastMember(ex, t, w);
      if Keeps(ex, t, p) {
        SoundName(t, p);
        FaithfulSnoc(t, before, kept, p);
      } else {
        assert before + [] == before && kept + [] == kept;
      }
    }
  }

  /**
   * An archive names every kept path once, in this order, with what is there, and nothing else: two
   * snapshots of the same tree are the same.
   */
  lemma ArchiveIsDetermined(ex: Path, t: Tree)
    requires MetaDir(ex) && WellFormed(t)
    ensures var archive := Archive(ex, t);
      && InOrder(PathsOf(archive))
      && (forall p :: p in PathsOf(archive) <==> p in t && !t[p].Link? && !Under(p, ex))
      && (forall i :: 0 <= i < |archive| ==>
            var p := PathsOf(archive)[i]; p in t && archive[i] == Member(Join(p), t[p]))
  {
    var w := Walk(t, []);
    WalkInOrder(t, []);
    TraversalIsComplete(t);
    KeptInOrder(ex, t, w);
    MembersAreFaithful(ex, t, w);
  }
}
