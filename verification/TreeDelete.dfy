/**
 * `ProbeSuite.DeleteScopedTreeWithoutRecursion` of TrustLaunchProbe.cs on a file system
 * that nobody else changes meanwhile, but whose calls may fail at any moment.
 */
module TreeDelete {
  import opened Common
  import opened Paths

  type Path = seq<string>

  /** The two attributes the source looks at. */
  datatype Kind = Kind(directory: bool, reparse: bool) {
    /** A directory of its own, not a link to one. */
    predicate Real() { directory && !reparse }
  }

  type Tree = map<Path, Kind>

  /** Every entry lies in a real directory; what links point to is not below them. */
  ghost predicate WellFormed(t: Tree) {
    && (forall p | p in t :: Components(p))
    && (forall p | p in t && |p| > 1 :: Parent(p) in t && t[Parent(p)].Real())
  }

  function Parent(p: Path): Path
    requires |p| > 1
  {
    p[..|p| - 1]
  }

  predicate ChildOf(p: Path, dir: Path) { |p| == |dir| + 1 && dir <= p }

  /** The children of `dir`, in some order, each once. */
  ghost predicate Listing(all: seq<Path>, t: Tree, dir: Path) {
    && (forall p :: p in all <==> p in t && ChildOf(p, dir))
    && (forall i, j | 0 <= i < j < |all| :: all[i] != all[j])
  }

  ghost predicate NoChildren(t: Tree, dir: Path) { forall p | p in t :: !ChildOf(p, dir) }

  datatype Error =
    | EntryOutOfScope | ChildOutOfScope | UnexpectedDirectoryDepth
    | NotFound | WrongKind | NotEmpty | Fault

  class FileSystem {
    var t: Tree
    ghost var faulted: bool      // some call failed for a reason of its own
    ghost var listed: set<Path>  // the directories whose contents were read

    constructor (t: Tree)
      ensures this.t == t && !faulted && listed == {}
    {
      this.t := t;
      faulted := false;
      listed := {};
    }

    /** `Directory.GetFileSystemEntries`: the children in any order, each once. */
    method Entries(dir: Path) returns (r: Result<seq<Path>, Error>)
      requires WellFormed(t)
      modifies this
      ensures t == old(t)
      ensures r.Err? ==> if dir in t && t[dir].Real() then r.error == Fault && faulted else !faulted || old(faulted)
      ensures r.Ok? ==> dir in t && t[dir].Real() && faulted == old(faulted)
      ensures r.Ok? ==> Listing(r.value, t, dir)
      ensures listed == old(listed) + {dir}
    {
      listed := listed + {dir};
      if dir !in t || !t[dir].Real() {
        return Err(NotFound);
      }
      var works: bool := *;
      if !works {
        faulted := true;
        return Err(Fault);
      }
      var left := set p | p in t && ChildOf(p, dir);
      ghost var all := left;
      var found: seq<Path> := [];
      while left != {}
        invariant left <= all
        invariant forall p :: p in all <==> p in left || p in found
        invariant forall p | p in found :: p !in left
        invariant forall i, j | 0 <= i < j < |found| :: found[i] != found[j]
        decreases |left|
      {
        var p :| p in left;
        left := left - {p};
        found := found + [p];
      }
      return Ok(found);
    }

    /** `File.GetAttributes`. */
    method Attributes(p: Path) returns (r: Result<Kind, Error>)
      modifies this
      ensures t == old(t) && listed == old(listed)
      ensures r.Ok? ==> p in t && r.value == t[p] && faulted == old(faulted)
      ensures r.Err? && p in t ==> r.error == Fault && faulted
    {
      if p !in t {
        return Err(NotFound);
      }
      var works: bool := *;
      if !works {
        faulted := true;
        return Err(Fault);
      }
      return Ok(t[p]);
    }

    /** `File.Delete`. */
    method DeleteFile(p: Path) returns (r: Result<(), Error>)
      modifies this
      ensures listed == old(listed)
      ensures r.Ok? ==> t == old(t) - {p} && faulted == old(faulted)
      ensures r.Err? ==> t == old(t)
      ensures r.Err? && p in t && !t[p].directory ==> r.error == Fault && faulted
    {
      if p in t && t[p].directory {
        return Err(WrongKind);
      }
      var works: bool := *;
      if !works {
        faulted := true;
        return Err(Fault);
      }
      t := t - {p};
      return Ok(());
    }

    /** `Directory.Delete(path, false)`: an empty directory, or a link whose target stays. */
    method DeleteDirectory(p: Path) returns (r: Result<(), Error>)
      modifies this
      ensures listed == old(listed)
      ensures r.Ok? ==> t == old(t) - {p} && faulted == old(faulted)
      ensures r.Err? ==> t == old(t)
      ensures r.Err? && p in t && t[p].directory && NoChildren(t, p) ==> r.error == Fault && faulted
    {
      if p !in t {
        return Err(NotFound);
      }
      if !t[p].directory {
        return Err(WrongKind);
      }
      if exists q | q in t :: ChildOf(q, p) {
        return Err(NotEmpty);
      }
      var works: bool := *;
      if !works {
        faulted := true;
        return Err(Fault);
      }
      t := t - {p};
      return Ok(());
    }
  }

  // ----- pruning -----

  /** The tree without the given entries and all that is below them. */
  ghost function Pruned(t: Tree, dead: seq<Path>): Tree {
    map p | p in t && forall d | d in dead :: !(d <= p) :: t[p]
  }

  /** Entries only went away, and only from below `root`. */
  ghost predicate ShrunkBelow(t: Tree, now: Tree, root: Path) {
    && (forall p | p in now :: p in t && now[p] == t[p])
    && (forall p | p in t && !(root <= p) :: p in now)
  }

  /** A real directory below a child of `root`. */
  ghost predicate Deep(t: Tree, root: Path) {
    exists p | p in t :: |p| == |root| + 2 && root <= p && t[p].Real()
  }

  lemma {:induction false} AncestorsAreReal(t: Tree, p: Path, n: nat)
    requires WellFormed(t) && p in t && 0 < n < |p|
    ensures p[..n] in t && t[p[..n]].Real()
    decreases |p|
  {
    if n == |p| - 1 {
      assert p[..n] == Parent(p);
    } else {
      AncestorsAreReal(t, Parent(p), n);
      assert Parent(p)[..n] == p[..n];
    }
  }

  /** Without children there is nothing below. */
  lemma LeafHasNothingBelow(t: Tree, leaf: Path)
    requires WellFormed(t) && leaf in t && (NoChildren(t, leaf) || !t[leaf].Real())
    ensures forall p | p in t && leaf <= p :: p == leaf
  {
    forall p | p in t && leaf <= p ensures p == leaf {
      if |p| > |leaf| {
        assert leaf == p[..|leaf|] && Components(leaf);
        AncestorsAreReal(t, p, |leaf|);
        var c := p[..|leaf| + 1];
        if |p| > |leaf| + 1 { AncestorsAreReal(t, p, |leaf| + 1); }
        assert c in t && ChildOf(c, leaf);
        assert false;
      }
    }
  }

  lemma RemovingLeafPrunes(t: Tree, leaf: Path)
    requires WellFormed(t) && leaf in t && (NoChildren(t, leaf) || !t[leaf].Real())
    ensures t - {leaf} == Pruned(t, [leaf])
    ensures WellFormed(t - {leaf})
  {
    LeafHasNothingBelow(t, leaf);
    var now := t - {leaf};
    forall p | p in now && |p| > 1 ensures Parent(p) in now && now[Parent(p)].Real() {
      assert Parent(p) <= p;
      assert p in t;
    }
    forall p | p in t ensures p in now <==> forall d | d in [leaf] :: !(d <= p) {
      assert leaf in [leaf];
    }
  }

  lemma PruningComposes(t: Tree, dead: seq<Path>, last: Path)
    ensures Pruned(Pruned(t, dead), [last]) == Pruned(t, dead + [last])
  {
    var a, b := Pruned(Pruned(t, dead), [last]), Pruned(t, dead + [last]);
    forall p | p in t ensures p in a <==> p in b {
      assert last in [last] && last in dead + [last];
      assert forall d :: d in dead + [last] <==> d in dead || d == last;
    }
  }

  lemma PruningNothing(t: Tree)
    ensures Pruned(t, []) == t
  {}

  /** Root's prefix test never fires on root's own children. */
  lemma ChildIsInScope(dir: Path, child: Path)
    requires Components(dir) && Components(child) && ChildOf(child, dir)
    ensures StartsWithIgnoringCase(Render(child), TrimEnd(Render(dir)) + "\\")
  {
    TrimRendered(dir);
    var prefix := Render(dir) + "\\";
    TailSnoc(dir[1..], child[|dir|]);
    assert child == dir + [child[|dir|]];
    assert child[1..] == dir[1..] + [child[|dir|]];
    assert Render(child) == prefix + child[|dir|];
    assert Render(child)[..|prefix|] == prefix;
  }

  // ----- the two loops -----

  /** Whatever a call below `root` did to the file system, when it ended without success. */
  ghost predicate Stopped(t: Tree, now: Tree, root: Path, e: Error, deep: bool, faulted: bool) {
    && ShrunkBelow(t, now, root)
    && (e == UnexpectedDirectoryDepth || e == Fault)
    && (e == UnexpectedDirectoryDepth ==> deep)
    && (e == Fault ==> faulted)
  }

  lemma PrunedIsShrunk(t: Tree, dead: seq<Path>, root: Path)
    requires forall d | d in dead :: root <= d
    ensures ShrunkBelow(t, Pruned(t, dead), root)
  {
    forall p | p in t && !(root <= p) ensures p in Pruned(t, dead) {
      forall d | d in dead ensures !(d <= p) {
        assert root <= d;
      }
    }
  }

  /** One entry of a second-level directory: only files and links may be there. */
  method DeleteSecondLevel(fs: FileSystem, entry: Path, child: Path) returns (r: Result<(), Error>)
    requires WellFormed(fs.t) && child in fs.t && ChildOf(child, entry) && Components(entry)
    modifies fs
    ensures WellFormed(fs.t) && fs.listed == old(fs.listed)
    ensures r.Ok? ==> !old(fs.t)[child].Real() && fs.t == Pruned(old(fs.t), [child]) && fs.faulted == old(fs.faulted)
    ensures r.Err? ==> fs.t == old(fs.t) && (if r.error == UnexpectedDirectoryDepth then fs.t[child].Real()
                                             else r.error == Fault && fs.faulted)
  {
    ChildIsInScope(entry, child);
    if !StartsWithIgnoringCase(Render(child), TrimEnd(Render(entry)) + "\\") {
      return Err(ChildOutOfScope);
    }
    var kind :- fs.Attributes(child);
    if !kind.Real() {
      RemovingLeafPrunes(fs.t, child);
      LeafHasNothingBelow(fs.t, child);
    }
    if kind.directory {
      if !kind.reparse {
        return Err(UnexpectedDirectoryDepth);
      }
      r := fs.DeleteDirectory(child);
    } else {
      r := fs.DeleteFile(child);
    }
  }

  /** Everything in a second-level directory, which is left empty. */
  method EmptySecondLevel(fs: FileSystem, root: Path, entry: Path) returns (r: Result<(), Error>)
    requires WellFormed(fs.t) && entry in fs.t && fs.t[entry].Real() && ChildOf(entry, root)
    modifies fs
    ensures WellFormed(fs.t) && fs.listed == old(fs.listed) + {entry}
    ensures r.Ok? ==> fs.faulted == old(fs.faulted) && ChildrenGone(old(fs.t), fs.t, entry)
                      && ShrunkBelow(old(fs.t), fs.t, entry)
    ensures r.Err? ==> Stopped(old(fs.t), fs.t, entry, r.error, Deep(old(fs.t), root), fs.faulted)
  {
    ghost var before := fs.t;
    PruningNothing(before);
    PrunedIsShrunk(before, [], entry);
    var secondLevel :- fs.Entries(entry);
    for childIndex := 0 to |secondLevel|
      invariant WellFormed(fs.t) && fs.t == Pruned(before, secondLevel[..childIndex])
      invariant fs.faulted == old(fs.faulted) && fs.listed == old(fs.listed) + {entry}
      invariant forall i | 0 <= i < childIndex :: !before[secondLevel[i]].Real()
    {
      r := NextSecondLevel(fs, root, entry, before, secondLevel, childIndex);
      if r.Err? {
        return;
      }
    }
    assert secondLevel[..|secondLevel|] == secondLevel;
    PrunedIsShrunk(before, secondLevel, entry);
    EmptiedDirectory(before, secondLevel, entry);
    r := Ok(());
  }

  method NextSecondLevel(fs: FileSystem, root: Path, entry: Path, ghost before: Tree, secondLevel: seq<Path>,
                         childIndex: nat)
    returns (r: Result<(), Error>)
    requires childIndex < |secondLevel| && WellFormed(fs.t) && fs.t == Pruned(before, secondLevel[..childIndex])
    requires Components(entry) && ChildOf(entry, root) && Listing(secondLevel, before, entry)
    modifies fs
    ensures WellFormed(fs.t) && fs.listed == old(fs.listed)
    ensures r.Ok? ==> fs.faulted == old(fs.faulted) && fs.t == Pruned(before, secondLevel[..childIndex + 1])
                      && !before[secondLevel[childIndex]].Real()
    ensures r.Err? ==> Stopped(before, fs.t, entry, r.error, Deep(before, root), fs.faulted)
  {
    SecondLevelNext(before, secondLevel, childIndex, entry);
    r := DeleteSecondLevel(fs, entry, secondLevel[childIndex]);
    if r.Err? {
      SecondLevelStopped(before, secondLevel, childIndex, root, entry);
    }
  }

  lemma SecondLevelNext(t: Tree, all: seq<Path>, k: nat, dir: Path)
    requires k < |all| && Listing(all, t, dir)
    ensures all[k] in t && ChildOf(all[k], dir)
    ensures all[k] in Pruned(t, all[..k]) && Pruned(t, all[..k])[all[k]] == t[all[k]]
    ensures Pruned(Pruned(t, all[..k]), [all[k]]) == Pruned(t, all[..k + 1])
  {
    assert all[k] in all;
    StillThere(t, all, k, dir);
    PruningComposes(t, all[..k], all[k]);
    assert all[..k + 1] == all[..k] + [all[k]];
  }

  lemma SecondLevelStopped(t: Tree, all: seq<Path>, k: nat, root: Path, entry: Path)
    requires k < |all| && ChildOf(entry, root) && Listing(all, t, entry)
    ensures ShrunkBelow(t, Pruned(t, all[..k]), entry)
    ensures t[all[k]].Real() ==> Deep(t, root)
  {
    assert all[k] in all && all[k] in t;
    assert |all[k]| == |root| + 2 && root <= all[k];
    forall d | d in all[..k] ensures entry <= d { assert d in all; }
    PrunedIsShrunk(t, all[..k], entry);
  }

  /** `dir` is empty now, and was left without any real directory in it. */
  ghost predicate ChildrenGone(t: Tree, now: Tree, dir: Path) {
    && dir in now && now[dir].Real() && NoChildren(now, dir)
    && Pruned(now, [dir]) == Pruned(t, [dir])
    && NoRealChildren(t, dir)
  }

  ghost predicate NoRealChildren(t: Tree, dir: Path) { forall p | p in t && ChildOf(p, dir) :: !t[p].Real() }

  /** One entry of the root. */
  method DeleteFirstLevel(fs: FileSystem, root: Path, entry: Path) returns (r: Result<(), Error>)
    requires WellFormed(fs.t) && entry in fs.t && ChildOf(entry, root) && Components(root)
    modifies fs
    ensures WellFormed(fs.t)
    ensures r.Ok? ==> fs.t == Pruned(old(fs.t), [entry]) && fs.faulted == old(fs.faulted)
    ensures r.Ok? ==> NoRealChildren(old(fs.t), entry)
    ensures r.Err? ==> Stopped(old(fs.t), fs.t, entry, r.error, Deep(old(fs.t), root), fs.faulted)
    ensures fs.listed == old(fs.listed) || (old(fs.t)[entry].Real() && fs.listed == old(fs.listed) + {entry})
  {
    ChildIsInScope(root, entry);
    PruningNothing(fs.t);
    PrunedIsShrunk(fs.t, [], entry);
    if !StartsWithIgnoringCase(Render(entry), TrimEnd(Render(root)) + "\\") {
      return Err(EntryOutOfScope);
    }
    var kind :- fs.Attributes(entry);
    if !kind.Real() {
      RemovingLeafPrunes(fs.t, entry);
      LeafHasNothingBelow(fs.t, entry);
      r := DeleteLink(fs, entry, kind);
    } else {
      r := EmptySecondLevel(fs, root, entry);
      if r.Ok? {
        RemovingLeafPrunes(fs.t, entry);
        r := fs.DeleteDirectory(entry);
      }
    }
  }

  /** A file, or a link: only the entry itself goes. */
  method DeleteLink(fs: FileSystem, entry: Path, kind: Kind) returns (r: Result<(), Error>)
    requires entry in fs.t && fs.t[entry] == kind && !kind.Real() && NoChildren(fs.t, entry)
    modifies fs
    ensures fs.listed == old(fs.listed)
    ensures r.Ok? ==> fs.t == old(fs.t) - {entry} && fs.faulted == old(fs.faulted)
    ensures r.Err? ==> fs.t == old(fs.t) && r.error == Fault && fs.faulted
  {
    if !kind.directory {
      r := fs.DeleteFile(entry);
    } else {
      r := fs.DeleteDirectory(entry);
    }
  }

  /** An entry not yet dealt with is still there. */
  lemma StillThere(t: Tree, all: seq<Path>, k: nat, dir: Path)
    requires k < |all|
    requires Listing(all, t, dir)
    ensures all[k] in Pruned(t, all[..k]) && Pruned(t, all[..k])[all[k]] == t[all[k]]
  {
    assert all[k] in all;
    forall d | d in all[..k] ensures !(d <= all[k]) {
      assert d in all;
      assert |d| == |all[k]| == |dir| + 1;
    }
  }

  /** With all its children gone a directory is empty, and pruning it prunes them too. */
  lemma EmptiedDirectory(t: Tree, children: seq<Path>, dir: Path)
    requires WellFormed(t) && dir in t && t[dir].Real()
    requires Listing(children, t, dir)
    ensures var now := Pruned(t, children);
      dir in now && now[dir] == t[dir] && NoChildren(now, dir) && Pruned(now, [dir]) == Pruned(t, [dir])
  {
    var now := Pruned(t, children);
    assert dir in now by {
      forall d | d in children ensures !(d <= dir) { assert |d| == |dir| + 1; }
    }
    forall p | p in now ensures !ChildOf(p, dir) {
      assert p in children ==> p <= p;
    }
    PruningComposes(t, children, dir);
    var a, b := Pruned(now, [dir]), Pruned(t, [dir]);
    forall p | p in t ensures p in a <==> p in b {
      assert dir in [dir] && dir in children + [dir];
      if !(dir <= p) {
        forall d | d in children + [dir] ensures !(d <= p) {
          assert d in children ==> dir <= d;
        }
      }
    }
  }

  /** The loop over the root's entries. */
  method EmptyFirstLevel(fs: FileSystem, root: Path, ghost before: Tree, firstLevel: seq<Path>)
    returns (r: Result<(), Error>)
    requires WellFormed(before) && fs.t == before && Components(root) && !fs.faulted
    requires Listing(firstLevel, before, root)
    modifies fs
    ensures WellFormed(fs.t) && ShrunkBelow(before, fs.t, root)
    ensures r.Ok? ==> !fs.faulted && fs.t == Pruned(before, firstLevel)
    ensures r.Ok? ==> forall i | 0 <= i < |firstLevel| :: NoRealChildren(before, firstLevel[i])
    ensures r.Err? ==> Stopped(before, fs.t, root, r.error, Deep(before, root), fs.faulted)
    ensures forall p | p in fs.listed :: p in old(fs.listed) || (p in before && before[p].Real() && ChildOf(p, root))
  {
    PruningNothing(before);
    for index := 0 to |firstLevel|
      invariant WellFormed(fs.t) && fs.t == Pruned(before, firstLevel[..index])
      invariant !fs.faulted
      invariant forall p | p in fs.listed :: p in old(fs.listed) || (p in before && before[p].Real() && ChildOf(p, root))
      invariant forall i | 0 <= i < index :: NoRealChildren(before, firstLevel[i])
    {
      r := NextFirstLevel(fs, root, before, firstLevel, index);
      if r.Err? {
        return;
      }
    }
    assert firstLevel[..|firstLevel|] == firstLevel;
    PrunedIsShrunk(before, firstLevel, root);
    r := Ok(());
  }

  method NextFirstLevel(fs: FileSystem, root: Path, ghost before: Tree, firstLevel: seq<Path>, index: nat)
    returns (r: Result<(), Error>)
    requires index < |firstLevel| && WellFormed(fs.t) && fs.t == Pruned(before, firstLevel[..index])
    requires Components(root) && !fs.faulted
    requires Listing(firstLevel, before, root)
    modifies fs
    ensures WellFormed(fs.t)
    ensures r.Ok? ==> !fs.faulted && fs.t == Pruned(before, firstLevel[..index + 1])
    ensures r.Ok? ==> NoRealChildren(before, firstLevel[index])
    ensures r.Err? ==> Stopped(before, fs.t, root, r.error, Deep(before, root), fs.faulted)
    ensures fs.listed == old(fs.listed)
         || (before[firstLevel[index]].Real() && fs.listed == old(fs.listed) + {firstLevel[index]})
  {
    var entry := firstLevel[index];
    assert entry in firstLevel;
    StillThere(before, firstLevel, index, root);
    ghost var now := fs.t;
    r := DeleteFirstLevel(fs, root, entry);
    if r.Err? {
      FirstLevelStopped(before, now, fs.t, firstLevel, index, root, r.error, fs.faulted);
    } else {
      FirstLevelDone(before, now, firstLevel, index, root);
    }
  }

  lemma FirstLevelDone(t: Tree, now: Tree, all: seq<Path>, k: nat, root: Path)
    requires k < |all| && Listing(all, t, root) && now == Pruned(t, all[..k]) && NoRealChildren(now, all[k])
    ensures Pruned(now, [all[k]]) == Pruned(t, all[..k + 1]) && NoRealChildren(t, all[k])
  {
    forall p | p in t && ChildOf(p, all[k]) ensures !t[p].Real() {
      UntouchedBelow(t, all, k, root, p);
    }
    PruningComposes(t, all[..k], all[k]);
    assert all[..k + 1] == all[..k] + [all[k]];
  }

  lemma FirstLevelStopped(t: Tree, now: Tree, next: Tree, all: seq<Path>, k: nat, root: Path, e: Error, faulted: bool)
    requires k < |all| && Listing(all, t, root) && now == Pruned(t, all[..k])
    requires Stopped(now, next, all[k], e, Deep(now, root), faulted)
    ensures Stopped(t, next, root, e, Deep(t, root), faulted)
  {
    assert all[k] in all;
    forall d | d in all[..k] ensures root <= d { assert d in all; }
    PrunedIsShrunk(t, all[..k], root);
    StillShrunk(t, now, next, root, all[k]);
    DeepBefore(t, now, root);
  }

  /** `DeleteScopedTreeWithoutRecursion`. */
  method DeleteScopedTree(fs: FileSystem, root: Path) returns (r: Result<(), Error>)
    requires WellFormed(fs.t) && root in fs.t && fs.t[root].Real()
    requires !fs.faulted && fs.listed == {}
    modifies fs
    // Success is exactly the removal of the root and everything below it,
    ensures r.Ok? ==> fs.t == Pruned(old(fs.t), [root])
    // and comes exactly when nothing failed and nothing was nested too deep.
    ensures r.Ok? <==> !fs.faulted && !Deep(old(fs.t), root)
    ensures r.Err? ==> r.error == UnexpectedDirectoryDepth || r.error == Fault
    // In every outcome nothing outside the root changes, and nothing is moved or made.
    ensures ShrunkBelow(old(fs.t), fs.t, root) && WellFormed(fs.t)
    // No link is ever looked into.
    ensures forall p | p in fs.listed :: p in old(fs.t) && old(fs.t)[p].Real() && (p == root || ChildOf(p, root))
  {
    ghost var before := fs.t;
    PruningNothing(before);
    PrunedIsShrunk(before, [], root);
    PrunedIsShrunk(before, [root], root);
    var firstLevel :- fs.Entries(root);
    r := EmptyFirstLevel(fs, root, before, firstLevel);
    if r.Ok? {
      EmptiedDirectory(before, firstLevel, root);
      RemovingLeafPrunes(fs.t, root);
      NotDeep(before, firstLevel, root);
      r := fs.DeleteDirectory(root);
    }
  }

  lemma StillShrunk(t: Tree, now: Tree, next: Tree, root: Path, entry: Path)
    requires ShrunkBelow(t, now, root) && ShrunkBelow(now, next, entry) && root <= entry
    ensures ShrunkBelow(t, next, root)
  {
    forall p | p in t && !(root <= p) ensures p in next {
      assert !(entry <= p);
    }
  }

  lemma DeepBefore(t: Tree, now: Tree, root: Path)
    requires forall p | p in now :: p in t && now[p] == t[p]
    ensures Deep(now, root) ==> Deep(t, root)
  {}

  /** What is below an entry not yet dealt with is still there. */
  lemma UntouchedBelow(t: Tree, all: seq<Path>, k: nat, dir: Path, p: Path)
    requires k < |all| && p in t && ChildOf(p, all[k])
    requires Listing(all, t, dir)
    ensures p in Pruned(t, all[..k]) && Pruned(t, all[..k])[p] == t[p]
  {
    assert all[k] in all;
    forall d | d in all[..k] ensures !(d <= p) {
      assert d in all;
      assert |d| == |all[k]| && all[k] == p[..|d|];
    }
  }

  lemma NotDeep(t: Tree, children: seq<Path>, root: Path)
    requires WellFormed(t) && root in t
    requires Listing(children, t, root)
    requires forall i | 0 <= i < |children| :: NoRealChildren(t, children[i])
    ensures !Deep(t, root)
  {
    forall p | p in t && |p| == |root| + 2 && root <= p ensures !t[p].Real() {
      var c := Parent(p);
      assert c in t && ChildOf(c, root) && ChildOf(p, c);
      assert c in children;
      var i :| 0 <= i < |children| && children[i] == c;
    }
  }
}
