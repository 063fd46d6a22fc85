/** Snapshot archives: what is written, how it is extracted, and what a restore rebuilds. */
module SnapshotArchive {
  import opened Prelude
  import opened PathText
  import opened FileTree
  import opened TreeListing

  datatype Member = Member(name: string, node: Node)

  /** `.forge/exec`, whose contents are left out of every snapshot. */
  const FORGE_EXEC: Path := [".forge", "exec"]

  /** A directory inside a top-level one, as `.forge/exec` is inside `.forge`. */
  ghost predicate MetaDir(ex: Path) { |ex| == 2 && ValidName(ex[0]) && ValidName(ex[1]) }

  /** `rel.startswith(".forge/exec/")`, for `ex` the directory `.forge/exec`. */
  predicate Excluded(ex: Path, rel: string) { StartsWith(rel, Join(ex) + "/") }

  /** The test on the text is a test on the path: strictly below `ex`. */
  lemma ExcludedIsBelow(ex: Path, p: Path)
    requires ex != [] && forall i :: 0 <= i < |ex| ==> '/' !in ex[i]
    requires p != [] && forall i :: 0 <= i < |p| ==> '/' !in p[i]
    ensures Excluded(ex, Join(p)) <==> Under(p, ex)
  {
    if Excluded(ex, Join(p)) { ExcludedOnlyBelow(ex, p); }
    if Under(p, ex) {
      assert p == ex + p[|ex|..];
      JoinConcat(ex, p[|ex|..]);
    }
  }

  lemma ExcludedOnlyBelow(ex: Path, p: Path)
    requires ex != [] && forall i :: 0 <= i < |ex| ==> '/' !in ex[i]
    requires p != [] && forall i :: 0 <= i < |p| ==> '/' !in p[i]
    requires Excluded(ex, Join(p))
    ensures Under(p, ex)
  {
    var rest := Rest(Join(p), Join(ex));
    SplitOfJoin(p);
    SplitOfJoin(ex);
    SplitConcat(Join(ex), rest);
    Extends(p, ex, Split(rest));
  }

  lemma Rest(text: string, prefix: string) returns (rest: string)
    requires StartsWith(text, prefix + "/")
    ensures text == prefix + "/" + rest
  {
    rest := text[|prefix| + 1..];
  }

  lemma Extends(p: Path, ex: Path, more: seq<string>)
    requires p == ex + more && more != []
    ensures Under(p, ex)
  {
  }

  lemma UnderParent(p: Path, ex: Path)
    requires p != []
    ensures Under(Parent(p), ex) ==> Under(p, ex)
  {
    if Under(Parent(p), ex) { assert Parent(p)[..|ex|] == p[..|ex|]; }
  }

  // ---- Writing ----------------------------------------------------------------------------

  /** The members written for the listed paths, in order. */
  function Members(ex: Path, t: Tree, listing: seq<Path>): seq<Member> {
    if listing == [] then []
    else
      var p := listing[|listing| - 1];
      Members(ex, t, listing[..|listing| - 1]) +
      if p in t && !Excluded(ex, Join(p)) then [Member(Join(p), t[p])] else []
  }

  ghost function Archive(ex: Path, t: Tree): seq<Member> { Members(ex, t, Walk(t, [])) }

  method WriteArchive(ex: Path, source: Tree) returns (archive: seq<Member>)
    requires WellFormed(source)
    ensures archive == Archive(ex, source)
  {
    var paths := IterFiles(source);
    TraversalIsComplete(source);
    archive := WriteMembers(ex, source, paths);
  }

  method WriteMembers(ex: Path, source: Tree, paths: seq<Path>) returns (archive: seq<Member>)
    requires forall i :: 0 <= i < |paths| ==> paths[i] in source
    ensures archive == Members(ex, source, paths)
  {
    archive := [];
    for i := 0 to |paths|
      invariant archive == Members(ex, source, paths[..i])
    {
      var rel := Join(paths[i]);
      assert paths[..i + 1][..i] == paths[..i];
      if Excluded(ex, rel) { continue; }
      archive := archive + [Member(rel, source[paths[i]])];
    }
    assert paths[..|paths|] == paths;
  }

  // ---- Extracting -------------------------------------------------------------------------

  /** Some entry on the way to `p` is not a directory, or `p` itself is of the other kind. */
  predicate Blocked(dest: Tree, p: Path, n: Node) {
    || (exists k :: 0 < k < |p| && p[..k] in dest && !dest[p[..k]].Dir?)
    || (p in dest && dest[p].Dir? != n.Dir?)
  }

  /** The directories an extractor has to make up because the archive did not bring them. */
  function Missing(dest: Tree, p: Path): set<Path> { set k | 0 < k < |p| && p[..k] !in dest :: p[..k] }

  function Put(dest: Tree, p: Path, n: Node): Tree {
    dest + (map q | q in Missing(dest, p) :: Dir) + map[p := n]
  }

  function Extract(dest: Tree, archive: seq<Member>): Option<Tree> {
    if archive == [] then Some(dest)
    else
      var m := archive[|archive| - 1];
      match Extract(dest, archive[..|archive| - 1])
      case None => None
      case Some(d) => if Blocked(d, Split(m.name), m.node) then None else Some(Put(d, Split(m.name), m.node))
  }

  predicate ValidPath(p: Path) { p != [] && forall i :: 0 <= i < |p| ==> ValidName(p[i]) }

  /** What is above `p` is a directory once `p` has been put there. */
  lemma AboveIsMade(dest: Tree, p: Path, n: Node, k: nat)
    requires ValidPath(p) && !Blocked(dest, p, n) && k < |p|
    ensures IsDirOf(Put(dest, p, n), p[..k])
  {
    if k > 0 && p[..k] !in dest { assert p[..k] in Missing(dest, p); }
  }

  /** What else is there stays, and what is below it too. */
  lemma OthersStay(dest: Tree, p: Path, n: Node, q: Path)
    requires WellFormed(dest) && ValidPath(p) && !Blocked(dest, p, n) && q in dest && q != p
    ensures Put(dest, p, n)[q] == dest[q] && IsDirOf(Put(dest, p, n), Parent(q))
  {
    assert q !in Missing(dest, p);
    assert IsDirOf(dest, Parent(q));
    if Parent(q) != [] && Parent(q) != p { assert Parent(q) !in Missing(dest, p); }
  }

  lemma PutWellFormed(dest: Tree, p: Path, n: Node)
    requires WellFormed(dest) && ValidPath(p) && !Blocked(dest, p, n)
    ensures WellFormed(Put(dest, p, n))
  {
    var r := Put(dest, p, n);
    forall q | q in r
      ensures q != [] && (forall i :: 0 <= i < |q| ==> ValidName(q[i])) && IsDirOf(r, Parent(q))
    {
      if q == p {
        AboveIsMade(dest, p, n, |p| - 1);
      } else if q in dest {
        OthersStay(dest, p, n, q);
      } else {
        var k :| 0 < k < |p| && q == p[..k];
        assert Parent(q) == p[..k - 1];
        AboveIsMade(dest, p, n, k - 1);
      }
    }
  }

  /**
   * Extraction from any archive with sound names, where it succeeds, leaves a tree: whatever is there
   * is in a directory.  What a last member names is as the archive says.
   */
  lemma {:induction false} ExtractWellFormed(dest: Tree, archive: seq<Member>)
    requires WellFormed(dest) && forall i :: 0 <= i < |archive| ==> ValidPath(Split(archive[i].name))
    requires Extract(dest, archive).Some?
    ensures WellFormed(Extract(dest, archive).value)
    ensures archive != [] ==>
      var m := archive[|archive| - 1];
      var p := Split(m.name);
      p in Extract(dest, archive).value && Extract(dest, archive).value[p] == m.node
  {
    if archive == [] {
    } else {
      var before, m := archive[..|archive| - 1], archive[|archive| - 1];
      ExtractWellFormed(dest, before);
      PutWellFormed(Extract(dest, before).value, Split(m.name), m.node);
    }
  }

  /** A workspace directory, overwritten in place by a restore; `ex` is its `.forge/exec`. */
  class WorkspaceDir {
    const ex: Path
    var tree: Tree
    var present: bool

    constructor (ex: Path)
      requires MetaDir(ex)
      ensures this.ex == ex && tree == map[Parent(ex) := Dir, ex := Dir] && present
    {
      this.ex := ex;
      tree := map[Parent(ex) := Dir, ex := Dir];
      present := true;
    }

    /**
     * `ensure_dir_empty`: what there is is removed, the directory itself too, which is then made
     * again if `remake`.  False stands for an `OSError`: there was no directory, or there is none now.
     */
    method EnsureEmpty(remake: bool) returns (ok: bool)
      modifies this
      ensures ok <==> old(present) && (old(tree) == map[] || remake)
      ensures present == ok && tree == (if old(present) then map[] else old(tree))
    {
      if !present { return false; }
      if tree != map[] {
        tree, present := map[], false;
        if !remake { return false; }
        present := true;
      }
      ok := true;
    }

    /** `_read_archive`: false stands for the `OSError` that becomes a `SnapshotError`. */
    method ReadArchive(archive: seq<Member>) returns (ok: bool)
      modifies this`tree
      ensures ok <==> Extract(old(tree), archive).Some?
      ensures ok ==> tree == Extract(old(tree), archive).value
    {
      for i := 0 to |archive|
        invariant Extract(old(tree), archive[..i]) == Some(tree)
      {
        var p := Split(archive[i].name);
        assert archive[..i + 1][..i] == archive[..i];
        if Blocked(tree, p, archive[i].node) {
          BlockedForGood(old(tree), archive, i + 1);
          return false;
        }
        tree := Put(tree, p, archive[i].node);
      }
      assert archive[..|archive|] == archive;
      ok := true;
    }

    /** `(destination / ".forge" / "exec").mkdir(parents=True, exist_ok=True)`; false if a file is in the way. */
    method EnsureForgeMeta() returns (ok: bool)
      requires MetaDir(ex)
      modifies this`tree
      ensures ok <==> WithMeta(ex, old(tree)).Some?
      ensures tree == if ok then WithMeta(ex, old(tree)).value else old(tree)
    {
      if (Parent(ex) in tree && !tree[Parent(ex)].Dir?) || (ex in tree && !tree[ex].Dir?) { return false; }
      tree := tree[Parent(ex) := Dir][ex := Dir];
      return true;
    }

    /** The part of `SnapshotService.restore` that fills the new workspace's directory. */
    method Restore(archive: seq<Member>, remake: bool) returns (ok: bool)
      requires MetaDir(ex)
      modifies this
      ensures ok <==> old(present) && (old(tree) == map[] || remake) && Restored(ex, archive).Some?
      ensures ok ==> present && tree == Restored(ex, archive).value
      ensures !present <==> !old(present) || (old(tree) != map[] && !remake)
    {
      ok := EnsureEmpty(remake);
      if !ok { return; }
      ok := ReadArchive(archive);
      if ok { ok := EnsureForgeMeta(); }
    }
  }

  lemma {:induction false} BlockedForGood(dest: Tree, archive: seq<Member>, i: nat)
    requires i <= |archive| && Extract(dest, archive[..i]).None?
    ensures Extract(dest, archive).None?
    decreases |archive| - i
  {
    if i < |archive| {
      assert archive[..i + 1][..i] == archive[..i];
      BlockedForGood(dest, archive, i + 1);
    } else {
      assert archive[..i] == archive;
    }
  }

  function WithMeta(ex: Path, t: Tree): Option<Tree>
    requires ex != []
  {
    if (Parent(ex) in t && !t[Parent(ex)].Dir?) || (ex in t && !t[ex].Dir?) then None
    else Some(t[Parent(ex) := Dir][ex := Dir])
  }

  function Restored(ex: Path, archive: seq<Member>): Option<Tree>
    requires ex != []
  {
    match Extract(map[], archive)
    case None => None
    case Some(t) => WithMeta(ex, t)
  }

  // ---- The round trip ---------------------------------------------------------------------

  /** What a snapshot keeps: all but symbolic links and what is strictly below `ex`. */
  predicate Keeps(ex: Path, t: Tree, p: Path) { p in t && !t[p].Link? && !Under(p, ex) }

  function Pruned(ex: Path, t: Tree): Tree { map p | p in t && Keeps(ex, t, p) :: t[p] }

  /** The part of the pruned tree among the paths listed so far. */
  function PrunedTo(ex: Path, t: Tree, listing: seq<Path>): Tree {
    map p | p in t && p in listing && Keeps(ex, t, p) :: t[p]
  }

  /** What the traversal guarantees about a listing. */
  ghost predicate Listing(t: Tree, w: seq<Path>) {
    && (forall p :: p in w <==> p in t && !t[p].Link?)
    && (forall i :: 0 <= i < |w| ==> ParentBefore(w, i))
  }

  lemma ParentKept(ex: Path, t: Tree, w: seq<Path>, i: nat) returns (j: nat)
    requires WellFormed(t) && Listing(t, w) && i < |w| && Keeps(ex, t, w[i]) && |w[i]| > 1
    ensures j < i && w[j] == Parent(w[i]) && Keeps(ex, t, w[j]) && t[w[j]].Dir?
  {
    var p := w[i];
    var q := Parent(p);
    assert ParentBefore(w, i);
    j :| 0 <= j < i && w[j] == q;
    assert IsDirOf(t, q);
    UnderParent(p, ex);
  }

  /** What is above a kept path is kept, and listed before it. */
  lemma {:induction false} AboveKept(ex: Path, t: Tree, w: seq<Path>, i: nat, k: nat) returns (j: nat)
    requires WellFormed(t) && Listing(t, w) && i < |w| && Keeps(ex, t, w[i]) && 0 < k < |w[i]|
    ensures j < i && w[j] == w[i][..k] && Keeps(ex, t, w[j]) && t[w[j]].Dir?
    decreases i
  {
    j := ParentKept(ex, t, w, i);
    assert w[j] == w[i][..|w[i]| - 1];
    if k < |w[j]| {
      assert w[i][..k] == w[j][..k];
      j := AboveKept(ex, t, w, j, k);
    }
  }

  lemma ParentsPresent(ex: Path, t: Tree, w: seq<Path>, i: nat)
    requires WellFormed(t) && Listing(t, w) && NoDup(w) && i < |w| && Keeps(ex, t, w[i])
    ensures var dest := PrunedTo(ex, t, w[..i]);
      w[i] !in dest && Missing(dest, w[i]) == {} && !Blocked(dest, w[i], t[w[i]])
  {
    var p, dest := w[i], PrunedTo(ex, t, w[..i]);
    forall k | 0 < k < |p|
      ensures p[..k] in dest && dest[p[..k]].Dir?
    {
      var j := AboveKept(ex, t, w, i, k);
      assert w[..i][j] == p[..k];
    }
    forall j | 0 <= j < i
      ensures w[..i][j] != p
    {
    }
  }

  lemma PrunedToNext(ex: Path, t: Tree, w: seq<Path>, i: nat)
    requires i < |w|
    ensures PrunedTo(ex, t, w[..i + 1]) ==
            if Keeps(ex, t, w[i]) then PrunedTo(ex, t, w[..i])[w[i] := t[w[i]]] else PrunedTo(ex, t, w[..i])
  {
    assert w[..i + 1] == w[..i] + [w[i]];
  }

  lemma MembersNext(ex: Path, t: Tree, w: seq<Path>, i: nat)
    requires MetaDir(ex) && WellFormed(t) && i < |w| && w[i] in t && !t[w[i]].Link?
    ensures Members(ex, t, w[..i + 1]) ==
            Members(ex, t, w[..i]) + if Keeps(ex, t, w[i]) then [Member(Join(w[i]), t[w[i]])] else []
  {
    assert w[..i + 1][..i] == w[..i];
    ExcludedIsBelow(ex, w[i]);
  }

  lemma ExtractNext(dest: Tree, archive: seq<Member>, m: Member)
    ensures Extract(dest, archive + [m]) ==
      match Extract(dest, archive)
      case None => None
      case Some(d) => if Blocked(d, Split(m.name), m.node) then None else Some(Put(d, Split(m.name), m.node))
  {
    assert (archive + [m])[..|archive|] == archive;
  }

  lemma ExtractPut(archive: seq<Member>, dest: Tree, m: Member, p: Path)
    requires Extract(map[], archive) == Some(dest) && Split(m.name) == p
    requires !Blocked(dest, p, m.node) && Missing(dest, p) == {}
    ensures Extract(map[], archive + [m]) == Some(dest[p := m.node])
  {
    ExtractNext(map[], archive, m);
    assert Put(dest, p, m.node) == dest[p := m.node];
  }

  lemma ExtractKept(ex: Path, t: Tree, w: seq<Path>, i: nat, archive: seq<Member>)
    requires WellFormed(t) && Listing(t, w) && NoDup(w) && i < |w| && Keeps(ex, t, w[i])
    requires Extract(map[], archive) == Some(PrunedTo(ex, t, w[..i]))
    ensures Extract(map[], archive + [Member(Join(w[i]), t[w[i]])]) == Some(PrunedTo(ex, t, w[..i])[w[i] := t[w[i]]])
  {
    ParentsPresent(ex, t, w, i);
    assert forall k :: 0 <= k < |w[i]| ==> ValidName(w[i][k]);
    SplitOfJoin(w[i]);
    ExtractPut(archive, PrunedTo(ex, t, w[..i]), Member(Join(w[i]), t[w[i]]), w[i]);
  }

  lemma ExtractStep(ex: Path, t: Tree, w: seq<Path>, i: nat)
    requires MetaDir(ex) && WellFormed(t) && Listing(t, w) && NoDup(w) && i < |w|
    requires Extract(map[], Members(ex, t, w[..i])) == Some(PrunedTo(ex, t, w[..i]))
    ensures Extract(map[], Members(ex, t, w[..i + 1])) == Some(PrunedTo(ex, t, w[..i + 1]))
  {
    var before := Members(ex, t, w[..i]);
    assert w[i] in w;
    MembersNext(ex, t, w, i);
    PrunedToNext(ex, t, w, i);
    if Keeps(ex, t, w[i]) { ExtractKept(ex, t, w, i, before); } else { assert before + [] == before; }
  }

  /** Extraction rebuilds the pruned tree member by member; every parent is already there. */
  lemma {:induction false} ExtractRebuilds(ex: Path, t: Tree, w: seq<Path>, i: nat)
    requires MetaDir(ex) && WellFormed(t) && Listing(t, w) && NoDup(w) && i <= |w|
    ensures Extract(map[], Members(ex, t, w[..i])) == Some(PrunedTo(ex, t, w[..i]))
    decreases i
  {
    if i == 0 {
      assert PrunedTo(ex, t, []) == map[];
    } else {
      ExtractRebuilds(ex, t, w, i - 1);
      ExtractStep(ex, t, w, i - 1);
    }
  }

  lemma ListingExtracts(ex: Path, t: Tree, w: seq<Path>)
    requires MetaDir(ex) && WellFormed(t) && Listing(t, w) && NoDup(w)
    ensures Extract(map[], Members(ex, t, w)) == Some(Pruned(ex, t))
  {
    ExtractRebuilds(ex, t, w, |w|);
    assert w[..|w|] == w;
    assert PrunedTo(ex, t, w) == Pruned(ex, t);
  }

  /** Extracting the archive of any tree into an empty directory yields the pruned tree. */
  lemma ArchiveExtracts(ex: Path, t: Tree)
    requires MetaDir(ex) && WellFormed(t)
    ensures Extract(map[], Archive(ex, t)) == Some(Pruned(ex, t))
  {
    TraversalIsComplete(t);
    ListingExtracts(ex, t, Walk(t, []));
  }

  lemma ParentsExtracted(ex: Path, t: Tree, w: seq<Path>, i: nat)
    requires MetaDir(ex) && WellFormed(t) && Listing(t, w) && NoDup(w) && i < |w| && !Excluded(ex, Join(w[i]))
    ensures var dest := Extract(map[], Members(ex, t, w[..i])); dest.Some? && Missing(dest.value, w[i]) == {}
  {
    assert w[i] in w;
    ExcludedIsBelow(ex, w[i]);
    ExtractRebuilds(ex, t, w, i);
    ParentsPresent(ex, t, w, i);
  }

  /** Extraction never has to make up a directory: each member's parents have been extracted before it. */
  lemma ExtractionMeetsEveryParent(ex: Path, t: Tree, i: nat)
    requires MetaDir(ex) && WellFormed(t) && i < |Walk(t, [])| && !Excluded(ex, Join(Walk(t, [])[i]))
    ensures var w := Walk(t, []); var dest := Extract(map[], Members(ex, t, w[..i]));
      dest.Some? && Missing(dest.value, w[i]) == {}
  {
    TraversalIsComplete(t);
    ParentsExtracted(ex, t, Walk(t, []), i);
  }

  ghost predicate NoFileAt(t: Tree, p: Path) { p !in t || !t[p].File? }

  lemma MetaIsKept(ex: Path)
    requires MetaDir(ex)
    ensures !Under(Parent(ex), ex) && !Under(ex, ex) && Parent(ex) != ex
  {
    assert |Parent(ex)| == 1;
  }

  /**
   * For every tree, snapshot and restore yield exactly the tree without symbolic links and without
   * anything strictly below `.forge/exec`, plus a real `.forge/exec`.  The restore fails exactly
   * when the tree holds a plain file named `.forge` or `.forge/exec`.
   */
  lemma RestoreRebuilds(ex: Path, t: Tree)
    requires MetaDir(ex) && WellFormed(t)
    ensures Restored(ex, Archive(ex, t)).Some? <==> NoFileAt(t, Parent(ex)) && NoFileAt(t, ex)
    ensures Restored(ex, Archive(ex, t)).Some? ==>
              Restored(ex, Archive(ex, t)).value == Pruned(ex, t)[Parent(ex) := Dir][ex := Dir]
  {
    ArchiveExtracts(ex, t);
    MetaIsKept(ex);
  }

  lemma RestoredWellFormed(ex: Path, t: Tree)
    requires MetaDir(ex) && WellFormed(t)
    ensures WellFormed(Pruned(ex, t)[Parent(ex) := Dir][ex := Dir])
  {
    var r := Pruned(ex, t)[Parent(ex) := Dir][ex := Dir];
    assert Parent(Parent(ex)) == [];
    forall p | p in r
      ensures p != [] && (forall i :: 0 <= i < |p| ==> ValidName(p[i])) && IsDirOf(r, Parent(p))
    {
      if p != Parent(ex) && p != ex {
        assert p in t && IsDirOf(t, Parent(p));
        UnderParent(p, ex);
      }
    }
  }

  /** Snapshotting a restored workspace and restoring that changes nothing. */
  lemma RestoreIsIdempotent(ex: Path, t: Tree)
    requires MetaDir(ex) && WellFormed(t) && Restored(ex, Archive(ex, t)).Some?
    ensures Restored(ex, Archive(ex, Restored(ex, Archive(ex, t)).value)) == Restored(ex, Archive(ex, t))
  {
    RestoreRebuilds(ex, t);
    var r := Pruned(ex, t)[Parent(ex) := Dir][ex := Dir];
    RestoredWellFormed(ex, t);
    RestoreRebuilds(ex, r);
    PruningTwice(ex, t);
  }

  lemma PruningTwice(ex: Path, t: Tree)
    requires MetaDir(ex)
    ensures var r := Pruned(ex, t)[Parent(ex) := Dir][ex := Dir];
      Pruned(ex, r) == r && r[Parent(ex) := Dir][ex := Dir] == r
  {
    MetaIsKept(ex);
  }

  /** Names that merely begin like `.forge/exec` are kept. */
  lemma LookalikesSurvive(t: Tree, p: Path)
    requires WellFormed(t) && p in t && !t[p].Link?
    requires p[0] != ".forge" || |p| <= 2 || p[1] != "exec"
    ensures p in Pruned(FORGE_EXEC, t) && Pruned(FORGE_EXEC, t)[p] == t[p]
  {
    UnderTwo(p, ".forge", "exec");
  }

  lemma UnderTwo(p: Path, a: Name, b: Name)
    ensures Under(p, [a, b]) <==> |p| > 2 && p[0] == a && p[1] == b
  {
    if |p| > 2 { assert p[..2] == [p[0], p[1]]; }
  }
}
