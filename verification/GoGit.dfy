/** The in-memory backend: writing a commit tree and its submodules from flat file lists. */
module GoGit {
  import opened Wrappers
  import opened Text
  import opened LexicalPath
  import opened Links
  import opened SafePaths
  import opened Trees
  import opened FileSystems
  import opened ContentTrees
  import opened Commits

  /** One result of iterating over a tree's files. */
  datatype TreeFile = TreeFile(name: string, leaf: Leaf)

  /** The path a listed name spells. */
  function PathOf(f: TreeFile): Path { Split(f.name) }

  /** `files` lists the commit tree `c`, each leaf once, in some order. */
  ghost predicate Lists(files: seq<TreeFile>, c: Commit) {
    if files == [] then c == map[]
    else
      var p := PathOf(files[0]);
      p in c && c[p] == files[0].leaf && Lists(files[1..], c - {p})
  }

  /** The sizes a tally of the exported files must add up to. */
  ghost function BlobSizes(c: Commit): map<Path, nat> {
    map p | p in c && c[p].Blob? && ".git" !in p :: |c[p].bytes|
  }

  /** What exporting the leaf `l` to `p` below `d` does: it finds its place, links followed, or not. */
  ghost predicate LeafExported(t: Tree, t': Tree, ok: bool, d: Path, p: Path, l: Leaf)
    requires p != [] && [] in t
  {
    if ".git" in p then ok && t' == t
    else
      && (ok <==> CanPlace(t, d + p) && (l.SymLink? ==> LinkStays(d, Parent(p), l.target)))
      && (ok ==> t' == PlacedAt(t, d + p, ExportNode(l)))
  }

  /** The path a listed name joins to. */
  function RelOf(name: string): Path { if name == "" then [] else Loc(name) }

  /** A listed file that is written: one outside every `.git`. */
  predicate Kept(f: TreeFile) { !HasGitSegment(f.name) }

  /** What one listed file does to the tree, whatever its name: only the place it lands at changes, with
      directories on the way to it; that is where its path then leads. */
  ghost predicate Landed(t: Tree, t': Tree, ok: bool, kept: bool, at: Path) {
    && Grows(t, t')
    && (t' != t ==> kept && Confined(t, t', Landing(t, at)) && OwnPlace(t', at) == Some(Landing(t, at)))
    && (ok && kept ==> t' != t && NewLeaf(t, t', at))
  }

  /** The path leads to an entry that is new and no directory. */
  ghost predicate NewLeaf(t: Tree, t': Tree, at: Path) {
    var own := OwnPlace(t', at);
    own.Some? && own.value !in t && own.value in t' && !t'[own.value].Dir?
  }

  /** The callback of `exportTree` on one file. */
  method ExportFile(fs: FileSystem, f: TreeFile, contentDir: string, ghost d: Path)
    returns (ok: bool, files: nat, size: nat)
    requires fs.Valid() && Names(d) && contentDir == Abs(d)
    modifies fs
    ensures fs.Valid() && old(fs.now) <= fs.now
    ensures Landed(old(fs.nodes), fs.nodes, ok, Kept(f), d + RelOf(f.name))
    ensures Stamped(old(fs.mtime), fs.mtime, old(fs.now), Landing(old(fs.nodes), d + RelOf(f.name)))
    ensures fs.nodes == old(fs.nodes) ==> fs.mtime == old(fs.mtime)
    ensures Names(PathOf(f)) ==> LeafExported(old(fs.nodes), fs.nodes, ok, d, PathOf(f), f.leaf)
    ensures ok ==> files == if f.leaf.Blob? && ".git" !in PathOf(f) then 1 else 0
    ensures ok ==> size == if f.leaf.Blob? && ".git" !in PathOf(f) then |f.leaf.bytes| else 0
  {
    if HasGitSegment(f.name) { return true, 0, 0; }
    var joined := SafeJoin(contentDir, f.name);
    JoinedBelow(d, f.name);
    if joined.Err? { return false, 0, 0; }
    ok := PlaceLeaf(fs, joined.value, f.leaf, contentDir, d, RelOf(f.name));
    files, size := if f.leaf.Blob? then 1 else 0, if f.leaf.Blob? then |f.leaf.bytes| else 0;
  }

  /** A joined name stays below the directory; a spelled path joins where it says. */
  lemma JoinedBelow(d: Path, name: string)
    requires Names(d)
    ensures SafeJoin(Abs(d), name).Ok? ==>
              SafeJoin(Abs(d), name).value == Abs(d + RelOf(name)) && Names(RelOf(name))
    ensures Names(Split(name)) ==>
              name != "" && Loc(name) == Split(name)
              && (".git" !in Split(name) ==> SafeJoin(Abs(d), name) == Ok(Abs(d + Split(name))))
  {
    AbsLoc(d);
    if name == "" {
      assert d + [] == d;
      assert !IsName(Split(name)[0]);
    } else {
      SafeJoinMeaning(Abs(d), name);
      if Names(Split(name)) {
        SlashedSplit(name);
        Spelled(Split(name));
      }
    }
  }

  /** Directories first, then the link or the exclusive file. */
  method PlaceLeaf(fs: FileSystem, target: string, l: Leaf, contentDir: string, ghost d: Path, ghost r: Path)
    returns (ok: bool)
    requires fs.Valid() && Names(d) && Names(r) && contentDir == Abs(d) && target == Abs(d + r)
    modifies fs
    ensures fs.Valid() && old(fs.now) <= fs.now
    ensures Landed(old(fs.nodes), fs.nodes, ok, true, d + r)
    ensures Stamped(old(fs.mtime), fs.mtime, old(fs.now), Landing(old(fs.nodes), d + r))
    ensures fs.nodes == old(fs.nodes) ==> fs.mtime == old(fs.mtime)
    ensures r != [] && ".git" !in r ==> LeafExported(old(fs.nodes), fs.nodes, ok, d, r, l)
  {
    AbsLoc(d + r);
    ParentOfAbs(d + r);
    ghost var t, at := fs.nodes, d + r;
    ok := fs.MkdirAll(Loc(DirOf(target)), PUBLIC_DIR);
    if !ok { return; }
    ghost var t1, m1, n1 := fs.nodes, fs.mtime, fs.now;
    if at == [] {
      AtRoot(t);
    } else {
      assert Parent(Landing(t, at)) == MadeAt(t, Parent(at)).value;
      StampedParent(old(fs.mtime), m1, old(fs.now), Landing(t, at));
    }
    match l {
      case SymLink(linkTarget) =>
        if r != [] { LinkVerdict(d, r, linkTarget); }
        ok := ValidateSymlinkTarget(contentDir, target, linkTarget).Pass?;
      case Blob(_, _) =>
    }
    if ok { ok := fs.CreateLeaf(Loc(target), ExportNode(l)); }
    if ok { StampedTwice(old(fs.mtime), m1, fs.mtime, old(fs.now), n1, Landing(t, at)); }
    if at != [] { LeafMade(t, t1, fs.nodes, at, ExportNode(l), ok); }
  }

  /** Asking for the root makes nothing. */
  lemma AtRoot(t: Tree)
    requires WellFormed(t)
    ensures MadeAt(t, []) == Some([]) && WithDirs(t, [], PUBLIC_DIR) == t && OwnPlace(t, []) == Some([])
  {}

  /** A leaf put in its place below the directories made for it, or refused after they were made. */
  lemma LeafMade(t: Tree, made: Tree, t': Tree, at: Path, n: Node, ok: bool)
    requires WellFormed(t) && Names(at) && at != [] && MadeAt(t, Parent(at)).Some? && !n.Dir?
    requires made == WithDirs(t, MadeAt(t, Parent(at)).value, PUBLIC_DIR)
    requires LeadsTo(made, Parent(at)) == MadeAt(t, Parent(at)) && IsDir(made, MadeAt(t, Parent(at)).value)
    requires ok ==> OwnPlace(made, at).value !in made
    requires t' == if ok then made[OwnPlace(made, at).value := n] else made
    ensures OwnPlace(made, at).value !in made <==> CanPlace(t, at)
    ensures ok ==> t' == PlacedAt(t, at, n) && NewLeaf(t, t', at) && t' != t
    ensures Grows(t, t') && Confined(t, t', Landing(t, at)) && OwnPlace(t', at) == Some(Landing(t, at))
  {
    var own := Landing(t, at);
    assert OwnPlace(made, at) == Some(own) && Parent(own) == MadeAt(t, Parent(at)).value;
    DirsForLeaf(t, own, n);
    if ok { FollowGrows(made, t', [], Parent(at), MAX_HOPS); }
  }

  /** The destination holds the export of what has been listed so far. */
  ghost predicate ExportState(t: Tree, d: Path, done: Commit) {
    d in t && Subtree(t, d) == Exported(done)
  }

  /** Every listed file that is kept leads to a place inside `d`, if anywhere. */
  ghost predicate LandsInside(t: Tree, d: Path, files: seq<TreeFile>) {
    forall k :: 0 <= k < |files| && Kept(files[k]) ==>
      var own := OwnPlace(t, d + RelOf(files[k].name)); own.Some? ==> Under(d, own.value)
  }

  /** `exportTree`. Nothing that stands is changed by any list. Into a directory, nothing outside it is
      changed when every listed file leads to a place inside, and only then if the export succeeds.
      Listing a well formed commit tree into an empty directory, no create ever collides: the
      export fails only on a link that leaves the directory, the result is the commit's export,
      nothing outside is changed, and the counters are the number and bytes of its regular files. */
  method ExportTree(fs: FileSystem, files: seq<TreeFile>, contentDir: string, ghost d: Path, ghost c: Commit)
    returns (ok: bool, count: nat, size: nat)
    requires fs.Valid() && Names(d) && contentDir == Abs(d)
    modifies fs
    ensures fs.Valid() && old(fs.now) <= fs.now
    ensures Grows(old(fs.nodes), fs.nodes)
    ensures IsDir(old(fs.nodes), d) && LandsInside(fs.nodes, d, files) ==> Confined(old(fs.nodes), fs.nodes, d)
    ensures ok && Confined(old(fs.nodes), fs.nodes, d) ==> LandsInside(fs.nodes, d, files)
    ensures Lists(files, c) && WellFormedCommit(c) && ExportState(old(fs.nodes), d, map[]) ==>
              Confined(old(fs.nodes), fs.nodes, d) && Restamped(old(fs.mtime), fs.mtime, old(fs.now), d)
              && (ok <==> LinksStay(c, d))
              && (ok ==> ExportState(fs.nodes, d, c) && Tallied(c, count, size))
  {
    ghost var t0 := fs.nodes;
    ghost var good := Lists(files, c) && WellFormedCommit(c) && ExportState(t0, d, map[]);
    ghost var none: Commit := map[];
    assert c - none.Keys == c;
    ghost var done;
    ok, count, size, done := ExportFiles(fs, files, contentDir, d, c, good);
    if ok && Confined(t0, fs.nodes, d) { AllInside(t0, fs.nodes, d, files); }
    if good && ok { ProgressDone(fs.nodes, d, c, done); }
  }

  /** The loop over the listed files. */
  method ExportFiles(fs: FileSystem, files: seq<TreeFile>, contentDir: string, ghost d: Path, ghost c: Commit,
                     ghost good: bool)
    returns (ok: bool, count: nat, size: nat, ghost done: Commit)
    requires fs.Valid() && Names(d) && contentDir == Abs(d)
    requires good ==> Progress(fs.nodes, d, c, map[], files)
    modifies fs
    ensures fs.Valid() && old(fs.now) <= fs.now
    ensures Grows(old(fs.nodes), fs.nodes)
    ensures IsDir(old(fs.nodes), d) && LandsInside(fs.nodes, d, files) ==> Confined(old(fs.nodes), fs.nodes, d)
    ensures ok ==> SoFar(old(fs.nodes), fs.nodes, d, files, |files|)
    ensures good ==>
              ChangedWithin(Snapshot(old(fs.nodes), old(fs.mtime)), old(fs.now), Snapshot(fs.nodes, fs.mtime), d)
    ensures good ==> if ok then Progress(fs.nodes, d, c, done, []) && Tallied(done, count, size) else !LinksStay(c, d)
  {
    ghost var t0, start, n0 := fs.nodes, Snapshot(fs.nodes, fs.mtime), fs.now;
    ok, count, size, done := true, 0, 0, map[];
    assert files[0..] == files;
    for i := 0 to |files|
      invariant ok && fs.Valid() && n0 <= fs.now
      invariant SoFar(t0, fs.nodes, d, files, i)
      invariant good ==> Progress(fs.nodes, d, c, done, files[i..]) && Tallied(done, count, size)
      invariant good ==> ChangedWithin(start, n0, Snapshot(fs.nodes, fs.mtime), d)
    {
      var f := files[i];
      ghost var t := fs.nodes;
      assert files[i..][0] == f && files[i..][1..] == files[i + 1..];
      var files', size';
      ok, files', size' := ExportRound(fs, f, contentDir, d, c, done, files[i..], start, n0, good);
      SoFarStep(t0, t, fs.nodes, d, files, i, ok);
      if !ok { return; }
      count, size := count + files', size + size';
      if good {
        ListNext(c, done, files[i..], PathOf(f), f.leaf);
        TallyStep(done, PathOf(f), f.leaf);
        done := done[PathOf(f) := f.leaf];
      }
    }
    assert files[..|files|] == files && files[|files|..] == [];
  }

  /** One round of the loop. */
  method ExportRound(fs: FileSystem, f: TreeFile, contentDir: string, ghost d: Path, ghost c: Commit,
                     ghost done: Commit, ghost todo: seq<TreeFile>, ghost start: Snapshot, ghost since: int,
                         ghost good: bool)
    returns (ok: bool, files: nat, size: nat)
    requires fs.Valid() && Names(d) && contentDir == Abs(d) && since <= fs.now && todo != [] && todo[0] == f
    requires good ==> Progress(fs.nodes, d, c, done, todo)
    requires good ==> ChangedWithin(start, since, Snapshot(fs.nodes, fs.mtime), d)
    modifies fs
    ensures fs.Valid() && old(fs.now) <= fs.now
    ensures Landed(old(fs.nodes), fs.nodes, ok, Kept(f), d + RelOf(f.name))
    ensures good ==> ChangedWithin(start, since, Snapshot(fs.nodes, fs.mtime), d)
    ensures good && !ok ==> !LinksStay(c, d)
    ensures good && ok ==> Progress(fs.nodes, d, c, done[PathOf(f) := f.leaf], todo[1..])
    ensures ok ==> files == if f.leaf.Blob? && ".git" !in PathOf(f) then 1 else 0
    ensures ok ==> size == if f.leaf.Blob? && ".git" !in PathOf(f) then |f.leaf.bytes| else 0
  {
    ghost var before, n := Snapshot(fs.nodes, fs.mtime), fs.now;
    ok, files, size := ExportFile(fs, f, contentDir, d);
    if good {
      RoundInside(start, since, before, n, Snapshot(fs.nodes, fs.mtime), ok, d, c, done, todo);
      ProgressStep(before.nodes, fs.nodes, ok, d, c, done, todo, PathOf(f), f.leaf);
    }
  }

  // -------------------------------------------------------------- where leaves land

  /** The first `i` files have landed; nothing outside `d` has changed if they all lead inside. */
  ghost predicate SoFar(t0: Tree, t: Tree, d: Path, files: seq<TreeFile>, i: nat)
    requires i <= |files|
  {
    && Grows(t0, t)
    && (forall k :: 0 <= k < i && Kept(files[k]) ==> NewLeaf(t0, t, d + RelOf(files[k].name)))
    && (IsDir(t0, d) && LandsInside(t, d, files[..i]) ==> Confined(t0, t, d))
  }

  lemma SoFarStep(t0: Tree, t: Tree, t': Tree, d: Path, files: seq<TreeFile>, i: nat, ok: bool)
    requires i < |files| && WellFormed(t) && SoFar(t0, t, d, files, i)
    requires Landed(t, t', ok, Kept(files[i]), d + RelOf(files[i].name))
    ensures Grows(t0, t')
    ensures ok ==> SoFar(t0, t', d, files, i + 1)
    ensures IsDir(t0, d) && LandsInside(t', d, files) ==> Confined(t0, t', d)
  {
    LeavesStay(t0, t, t', d, files, i);
    if IsDir(t0, d) && LandsInside(t', d, files[..i + 1]) { InsideStep(t0, t, t', d, files, i, ok); }
    if LandsInside(t', d, files) { InsidePart(t', d, files, i + 1); }
  }

  lemma LeavesStay(t0: Tree, t: Tree, t': Tree, d: Path, files: seq<TreeFile>, i: nat)
    requires i <= |files| && Grows(t0, t) && Grows(t, t')
    requires forall k :: 0 <= k < i && Kept(files[k]) ==> NewLeaf(t0, t, d + RelOf(files[k].name))
    ensures Grows(t0, t')
    ensures forall k :: 0 <= k < i && Kept(files[k]) ==>
              && NewLeaf(t0, t', d + RelOf(files[k].name))
              && OwnPlace(t', d + RelOf(files[k].name)) == OwnPlace(t, d + RelOf(files[k].name))
  {
    forall k | 0 <= k < i && Kept(files[k])
      ensures NewLeaf(t0, t', d + RelOf(files[k].name))
      ensures OwnPlace(t', d + RelOf(files[k].name)) == OwnPlace(t, d + RelOf(files[k].name))
    {
      OwnPlaceStays(t, t', d + RelOf(files[k].name));
    }
  }

  lemma InsidePart(t: Tree, d: Path, files: seq<TreeFile>, i: nat)
    requires i <= |files| && LandsInside(t, d, files)
    ensures LandsInside(t, d, files[..i])
  {}

  lemma InsideStep(t0: Tree, t: Tree, t': Tree, d: Path, files: seq<TreeFile>, i: nat, ok: bool)
    requires i < |files| && WellFormed(t) && SoFar(t0, t, d, files, i) && IsDir(t0, d)
    requires Landed(t, t', ok, Kept(files[i]), d + RelOf(files[i].name))
    requires LandsInside(t', d, files[..i + 1])
    ensures Confined(t0, t', d)
  {
    LeavesStay(t0, t, t', d, files, i);
    forall k | 0 <= k < i && Kept(files[k])
      ensures var own := OwnPlace(t, d + RelOf(files[k].name)); own.Some? ==> Under(d, own.value)
    {
      assert files[..i + 1][k] == files[k];
    }
    assert LandsInside(t, d, files[..i]);
    if t' != t {
      assert files[..i + 1][i] == files[i];
      AddedBelow(t, t', Landing(t, d + RelOf(files[i].name)), d);
      ConfinedTransitive(t0, t, t', d);
    }
  }

  /** What has landed and changed nothing outside has landed inside. */
  lemma AllInside(t0: Tree, t: Tree, d: Path, files: seq<TreeFile>)
    requires SoFar(t0, t, d, files, |files|) && Confined(t0, t, d)
    ensures LandsInside(t, d, files)
  {
    forall k | 0 <= k < |files| && Kept(files[k])
      ensures var own := OwnPlace(t, d + RelOf(files[k].name)); own.Some? ==> Under(d, own.value)
    {
      assert NewLeaf(t0, t, d + RelOf(files[k].name));
    }
  }

  lemma OwnPlaceStays(t: Tree, t': Tree, p: Path)
    requires Grows(t, t') && OwnPlace(t, p).Some?
    ensures OwnPlace(t', p) == OwnPlace(t, p)
  {
    if p != [] { FollowGrows(t, t', [], Parent(p), MAX_HOPS); }
  }

  /** Nothing outside `d` has changed. */
  ghost predicate ChangedWithin(start: Snapshot, since: int, after: Snapshot, d: Path) {
    match after
    case Snapshot(t, m) => Confined(start.nodes, t, d) && Restamped(start.mtime, m, since, d)
  }

  /** A leaf of a well formed commit has its place free where its path says. */
  lemma NextPlace(t: Tree, d: Path, c: Commit, done: Commit, todo: seq<TreeFile>)
    requires WellFormed(t) && Names(d) && todo != [] && Progress(t, d, c, done, todo)
    ensures var p := PathOf(todo[0]);
            && p != [] && Names(p) && RelOf(todo[0].name) == p && Parent(d + p) == d + Parent(p)
            && (Kept(todo[0]) ==> CanMkdir(t, d + Parent(p)) && d + p !in t)
  {
    var f, p := todo[0], PathOf(todo[0]);
    ListNext(c, done, todo, p, f.leaf);
    JoinedBelow(d, f.name);
    FreePlace(t, d, c, done, p, f.leaf);
  }

  lemma FreePlace(t: Tree, d: Path, c: Commit, done: Commit, p: Path, l: Leaf)
    requires WellFormed(t) && WellFormedCommit(c) && p in c && p !in done && forall q :: q in done ==> q in c
    requires ExportState(t, d, done)
    ensures p != [] && (".git" !in p ==> CanMkdir(t, d + Parent(p)) && d + p !in t)
  {
    ExportFits(c, done, p, l);
    if ".git" !in p { LeafStep(t, d, Exported(done), p, ExportNode(l)); }
  }

  /** So it lands inside. */
  lemma RoundInside(start: Snapshot, since: int, before: Snapshot, now: int, after: Snapshot, ok: bool, d: Path,
                    c: Commit, done: Commit, todo: seq<TreeFile>)
    requires WellFormed(before.nodes) && Names(d) && todo != [] && Progress(before.nodes, d, c, done, todo)
    requires ChangedWithin(start, since, before, d) && since <= now
    requires Landed(before.nodes, after.nodes, ok, Kept(todo[0]), d + RelOf(todo[0].name))
    requires Stamped(before.mtime, after.mtime, now, Landing(before.nodes, d + RelOf(todo[0].name)))
    requires after.nodes == before.nodes ==> after.mtime == before.mtime
    ensures Names(PathOf(todo[0])) && ChangedWithin(start, since, after, d)
  {
    NextPlace(before.nodes, d, c, done, todo);
    if after.nodes != before.nodes {
      var at := d + PathOf(todo[0]);
      PlacePlain(before.nodes, at, Other);
      ConfinedWider(before.nodes, after.nodes, d, at);
      ConfinedTransitive(start.nodes, before.nodes, after.nodes, d);
      RestampedStep(start.mtime, before.mtime, after.mtime, since, now, d, at);
    }
  }

  /** A list that is no tree, all of whose links are accepted: two links that lead out of the directory
      together, and a file below the second. The callbacks write the file into the directory above,
      unless the name is taken there. */
  lemma StrayWritten(t0: Tree, t1: Tree, t2: Tree, t3: Tree, ok1: bool, ok2: bool, ok3: bool, root: Path,
                     d: string, l: string, e: string, x: string, file: Leaf)
    requires IsName(d) && IsName(l) && IsName(e) && IsName(x) && ".git" !in [d, l, e, x] && d != e && file.Blob?
    requires WellFormed(t0) && Names(root) && root != [] && ExportState(t0, root, map[])
    requires LeafExported(t0, t1, ok1, root, [d, l], SymLink(".."))
    requires ok1 ==> LeafExported(t1, t2, ok2, root, [e], SymLink(d + "/" + l + "/.."))
    requires ok1 && ok2 ==> LeafExported(t2, t3, ok3, root, [e, x], file)
    ensures var above := Parent(root) + [x];
            && ok1 && ok2 && (ok3 <==> above !in t0)
            && (ok3 ==> above in t3 && t3[above] == ExportNode(file) && !Confined(t0, t3, root))
  {
    EmptyDir(t0, root);
    PairAccepted(root, d, l);
    FirstLink(t0, t1, ok1, root, d, l);
    SecondLink(t0, t1, t2, ok2, root, d, l, e);
    EscapingPair(t2, root, d, l, e);
    assert Under(Parent(root), root) && IsDir(t2, Parent(root));
    ThirdFile(t2, t3, ok3, root, e, x, file);
    var above := Parent(root) + [x];
    assert |above| == |root| && (above in t2 <==> above in t0);
    if ok3 { NewOutside(t0, t3, root, above); }
  }

  lemma NewOutside(t: Tree, t': Tree, root: Path, q: Path)
    requires root in t && q !in t && q in t' && !t'[q].Dir? && |q| == |root|
    ensures !Confined(t, t', root)
  {
    assert q[..|root|] == q;
    assert Under(root, q) <==> root == q[..|root|];
  }

  lemma ThirdFile(t2: Tree, t3: Tree, ok: bool, root: Path, e: string, x: string, file: Leaf)
    requires WellFormed(t2) && root != [] && e != ".git" && x != ".git" && file.Blob?
    requires LeadsTo(t2, root + [e]) == Some(Parent(root)) && IsDir(t2, Parent(root))
    requires LeafExported(t2, t3, ok, root, [e, x], file)
    ensures var above := Parent(root) + [x];
            (ok <==> above !in t2) && (ok ==> t3 == t2[above := ExportNode(file)])
  {
    var at := root + [e, x];
    assert Parent(at) == root + [e] && at[|at| - 1] == x;
    assert MadeAt(t2, root + [e]) == Some(Parent(root));
    assert Landing(t2, at) == Parent(root) + [x];
  }

  lemma EmptyDir(t: Tree, root: Path)
    requires WellFormed(t) && ExportState(t, root, map[])
    ensures IsDir(t, root) && forall r :: r != [] ==> root + r !in t
  {
    assert root + [] == root;
    assert ExportLeaves(map[]) == map[];
    assert Exported(map[]).Keys == {[]};
    forall r | r != [] ensures root + r !in t { assert r !in Subtree(t, root); }
    assert [] in Subtree(t, root);
  }

  lemma FirstLink(t0: Tree, t1: Tree, ok: bool, root: Path, d: string, l: string)
    requires IsName(d) && IsName(l) && d != ".git" && l != ".git" && WellFormed(t0) && IsDir(t0, root) && Names(root)
    requires LinkStays(root, [d], "..") && forall r :: r != [] ==> root + r !in t0
    requires LeafExported(t0, t1, ok, root, [d, l], SymLink(".."))
    ensures ok && WellFormed(t1) && t1 == t0[root + [d] := Dir(PUBLIC_DIR)][root + [d, l] := Link("..")]
  {
    assert Parent([d, l]) == [d] && Parent(root + [d, l]) == root + [d] && Parent(root + [d]) == root;
    LeafAtPlace(t0, t1, ok, root, [d, l], SymLink(".."));
    EntryWellFormed(t0, root + [d], Dir(PUBLIC_DIR));
    EntryWellFormed(t0[root + [d] := Dir(PUBLIC_DIR)], root + [d, l], Link(".."));
  }

  lemma SecondLink(t0: Tree, t1: Tree, t2: Tree, ok: bool, root: Path, d: string, l: string, e: string)
    requires IsName(e) && e != ".git" && e != d && Names(root) && IsDir(t0, root) && root + [e] !in t0
    requires WellFormed(t1) && t1 == t0[root + [d] := Dir(PUBLIC_DIR)][root + [d, l] := Link("..")]
    requires LinkStays(root, [], d + "/" + l + "/..")
    requires LeafExported(t1, t2, ok, root, [e], SymLink(d + "/" + l + "/.."))
    ensures ok && WellFormed(t2) && t2 == t1[root + [e] := Link(d + "/" + l + "/..")]
  {
    assert Parent([e]) == [] && Parent(root + [e]) == root && root + [] == root;
    assert (root + [e])[|root|] != (root + [d])[|root|] && (root + [e])[|root|] != (root + [d, l])[|root|];
    assert root != root + [d] && root != root + [d, l];
    LeafAtPlace(t1, t2, ok, root, [e], SymLink(d + "/" + l + "/.."));
    EntryWellFormed(t1, root + [e], Link(d + "/" + l + "/.."));
  }

  // ------------------------------------------------------------- export bookkeeping

  /** `done` has been exported to `d`, and `todo` lists the rest of `c`. */
  ghost predicate Progress(t: Tree, d: Path, c: Commit, done: Commit, todo: seq<TreeFile>) {
    && WellFormedCommit(c)
    && (forall q :: q in done ==> q in c && done[q] == c[q])
    && Lists(todo, c - done.Keys)
    && ExportState(t, d, done)
    && LinksStay(done, d)
  }

  ghost predicate Tallied(c: Commit, count: nat, size: nat) {
    count == |BlobSizes(c)| && size == Sum(BlobSizes(c))
  }

  lemma ProgressStep(t: Tree, t': Tree, ok: bool, d: Path, c: Commit, done: Commit, todo: seq<TreeFile>,
                     p: Path, l: Leaf)
    requires WellFormed(t) && Names(d) && todo != [] && p == PathOf(todo[0]) && l == todo[0].leaf
    requires Progress(t, d, c, done, todo)
    requires Names(p) ==> LeafExported(t, t', ok, d, p, l)
    ensures p !in done
    ensures ok ==> Progress(t', d, c, done[p := l], todo[1..])
    ensures !ok ==> !LinksStay(c, d)
  {
    ListNext(c, done, todo, p, l);
    ExportStep(t, t', ok, d, c, done, p, l);
  }

  lemma ListNext(c: Commit, done: Commit, todo: seq<TreeFile>, p: Path, l: Leaf)
    requires todo != [] && Lists(todo, c - done.Keys) && p == PathOf(todo[0]) && l == todo[0].leaf
    ensures p in c && p !in done && c[p] == l
    ensures Lists(todo[1..], c - done[p := l].Keys)
  {
    assert c - done.Keys - {p} == c - done[p := l].Keys;
  }

  lemma ProgressDone(t: Tree, d: Path, c: Commit, done: Commit)
    requires Progress(t, d, c, done, [])
    ensures done == c
  {
    assert forall q :: q in c && q !in done ==> q in c - done.Keys;
  }

  lemma TallyStep(done: Commit, p: Path, l: Leaf)
    requires p !in done
    ensures var before, after := BlobSizes(done), BlobSizes(done[p := l]);
            if l.Blob? && ".git" !in p
            then |after| == |before| + 1 && Sum(after) == Sum(before) + |l.bytes|
            else after == before
  {
    var before, after := BlobSizes(done), BlobSizes(done[p := l]);
    if l.Blob? && ".git" !in p {
      assert after == before[p := |l.bytes|];
      SumInsert(before, p, |l.bytes|);
    } else {
      assert after == before;
    }
  }

  /** One listed leaf keeps the export in step with the list. */
  lemma ExportStep(t: Tree, t': Tree, ok: bool, d: Path, c: Commit, done: Commit, p: Path, l: Leaf)
    requires WellFormedCommit(c) && p in c && c[p] == l && p !in done
    requires forall q :: q in done ==> q in c
    requires WellFormed(t) && Names(d) && ExportState(t, d, done) && LinksStay(done, d)
    requires LeafExported(t, t', ok, d, p, l)
    ensures ok ==> ExportState(t', d, done[p := l]) && LinksStay(done[p := l], d)
    ensures !ok ==> !LinksStay(c, d)
  {
    FreePlace(t, d, c, done, p, l);
    if ".git" !in p { LeafAtPlace(t, t', ok, d, p, l); }
    LinksStep(c, done, d, p, l);
    if ok { ExportedMore(t, t', d, c, done, p, l); }
  }

  /** Where its place is free, only a refused link fails. */
  lemma LeafAtPlace(t: Tree, t': Tree, ok: bool, d: Path, p: Path, l: Leaf)
    requires WellFormed(t) && Names(d + p) && p != [] && ".git" !in p
    requires CanMkdir(t, d + Parent(p)) && d + p !in t && LeafExported(t, t', ok, d, p, l)
    ensures ok <==> (l.SymLink? ==> LinkStays(d, Parent(p), l.target))
    ensures ok ==> t' == WithDirs(t, d + Parent(p), PUBLIC_DIR)[d + p := ExportNode(l)]
  {
    assert Parent(d + p) == d + Parent(p);
    PlacePlain(t, d + p, ExportNode(l));
  }

  lemma ExportedMore(t: Tree, t': Tree, d: Path, c: Commit, done: Commit, p: Path, l: Leaf)
    requires WellFormedCommit(c) && p in c && p !in done && forall q :: q in done ==> q in c
    requires WellFormed(t) && ExportState(t, d, done)
    requires t' == if ".git" in p then t else WithDirs(t, d + Parent(p), PUBLIC_DIR)[d + p := ExportNode(l)]
    ensures ExportState(t', d, done[p := l])
  {
    ExportFits(c, done, p, l);
    if ".git" !in p { LeafStep(t, d, Exported(done), p, ExportNode(l)); }
  }

  lemma LinksStep(c: Commit, done: Commit, d: Path, p: Path, l: Leaf)
    requires p in c && c[p] == l && p != [] && LinksStay(done, d)
    ensures ".git" in p || !l.SymLink? || LinkStays(d, Parent(p), l.target) <==> LinksStay(done[p := l], d)
    ensures ".git" !in p && l.SymLink? && !LinkStays(d, Parent(p), l.target) ==> !LinksStay(c, d)
  {
    assert done[p := l][p] == l;
  }

  lemma LeafStep(t: Tree, d: Path, s: Tree, p: Path, n: Node)
    requires [] in t && d in t && p != [] && Subtree(t, d) == s && [] in s
    requires p !in s && CanMkdir(s, Parent(p))
    ensures d + p !in t && CanMkdir(t, d + Parent(p))
    ensures Subtree(WithDirs(t, d + Parent(p), PUBLIC_DIR)[d + p := n], d)
            == WithDirs(s, Parent(p), PUBLIC_DIR)[p := n]
  {
    SubtreeCanMkdir(t, d, Parent(p));
    SubtreeLeaf(t, d, p, n);
  }

  /** A further leaf of a well formed commit has its place free in the export so far. */
  lemma ExportFits(c: Commit, done: Commit, p: Path, l: Leaf)
    requires WellFormedCommit(c) && p in c && p !in done
    requires forall q :: q in done ==> q in c
    ensures p != [] && [] in Exported(done)
    ensures ".git" in p ==> Exported(done[p := l]) == Exported(done)
    ensures ".git" !in p ==>
              p !in Exported(done) && CanMkdir(Exported(done), Parent(p))
              && Exported(done[p := l]) == WithDirs(Exported(done), Parent(p), PUBLIC_DIR)[p := ExportNode(l)]
  {
    var leaves := ExportLeaves(done);
    if ".git" in p {
      assert ExportLeaves(done[p := l]) == leaves;
    } else {
      assert ExportLeaves(done[p := l]) == leaves[p := ExportNode(l)];
      assert forall q :: q in leaves[p := ExportNode(l)] ==> q in c;
      LeafFits(leaves, {}, p, ExportNode(l));
    }
  }

  lemma {:induction false} SubtreeCanMkdir(t: Tree, d: Path, q: Path)
    requires [] in t && d in t
    ensures CanMkdir(t, d + q) <==> CanMkdir(Subtree(t, d), q)
    decreases |q|
  {
    if q == [] {
      assert d + [] == d;
    } else {
      assert Parent(d + q) == d + Parent(q);
      SubtreeCanMkdir(t, d, Parent(q));
    }
  }

  lemma {:induction false} SubtreeWithDirs(t: Tree, d: Path, q: Path)
    requires [] in t && d in t
    ensures [] in Subtree(t, d)
    ensures Subtree(WithDirs(t, d + q, PUBLIC_DIR), d) == WithDirs(Subtree(t, d), q, PUBLIC_DIR)
    decreases |q|
  {
    assert d + [] == d;
    assert [] in Subtree(t, d);
    if d + q !in t {
      assert Parent(d + q) == d + Parent(q);
      SubtreeWithDirs(t, d, Parent(q));
      SubtreePut(WithDirs(t, d + Parent(q), PUBLIC_DIR), d, q, Dir(PUBLIC_DIR));
    }
  }

  lemma SubtreePut(t: Tree, d: Path, q: Path, n: Node)
    ensures Subtree(t[d + q := n], d) == Subtree(t, d)[q := n]
  {
    forall r ensures d + r == d + q <==> r == q { assert (d + r)[|d|..] == r && (d + q)[|d|..] == q; }
  }

  lemma SubtreeLeaf(t: Tree, d: Path, p: Path, n: Node)
    requires [] in t && d in t && p != []
    ensures [] in Subtree(t, d)
    ensures Subtree(WithDirs(t, d + Parent(p), PUBLIC_DIR)[d + p := n], d)
            == WithDirs(Subtree(t, d), Parent(p), PUBLIC_DIR)[p := n]
  {
    SubtreeWithDirs(t, d, Parent(p));
    SubtreePut(WithDirs(t, d + Parent(p), PUBLIC_DIR), d, p, n);
  }
}
