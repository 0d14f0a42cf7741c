/** One cache entry: the content a backend makes for a grant, and its provenance. */
module Entries {
  import opened Wrappers
  import opened Text
  import opened LexicalPath
  import opened Links
  import opened SafePaths
  import opened Trees
  import opened FileSystems
  import opened ContentTrees
  import opened Publishing
  import opened Commits
  import opened Submodules
  import opened Backends
  import opened Metadata
  import opened Policies
  import opened Admission

  // ---------------------------------------------------------------------- answers

  /** What the remote answers to the in-memory backend: the commit the revision resolves to, the places of
      all submodule entries in it, and those below the requested sub-path with what they hold. */
  datatype Remote = Remote(commit: Option<Commit>, gitlinks: set<Path>, hash: string, links: seq<Gitlink>)

  /** What Git leaves in the repository directory, whether it went well, with its stamps. */
  datatype Checkout = Checkout(done: bool, hash: string, tree: Tree, stamps: map<Path, int>)

  /** What a backend gets to work with. */
  datatype Answer = Objects(remote: Remote) | Working(checkout: Checkout)

  function HashOf(a: Answer): string {
    match a
    case Objects(remote) => remote.hash
    case Working(checkout) => checkout.hash
  }

  /** The sub-path as names. */
  function TreePath(path: string): Path { if path == "" then [] else Split(Clean(path)) }

  /** The answer is of Git's making: trees are trees, leaves and submodules stand apart, submodules are
      listed where the commit has them, and nothing is stamped in the future. */
  ghost predicate Serves(a: Answer, path: string, mods: Modules, now: int) {
    match a
    case Objects(Remote(commit, gitlinks, _, links)) =>
      && (commit.Some? ==> WellFormedCommit(commit.value))
      && GitLists(links, mods)
      && (forall l :: l in links ==> Split(l.name) != [] && TreePath(path) + Split(l.name) in gitlinks)
      && (Chosen(commit, gitlinks, path).Some? ==> Apart(Chosen(commit, gitlinks, path).value, mods))
    case Working(Checkout(done, _, tree, stamps)) =>
      && (done ==> tree != map[]) && (tree != map[] ==> WellFormed(tree))
      && stamps.Keys == tree.Keys && forall r :: r in stamps ==> stamps[r] <= now
  }

  /** Submodules are listed only for a tree that is there. */
  lemma ListedThere(remote: Remote, path: string, mods: Modules, now: int)
    requires Serves(Objects(remote), path, mods, now) && remote.links != [] && remote.commit.Some?
    requires path == "" || AcceptsSubPath(path)
    ensures Chosen(remote.commit, remote.gitlinks, path).Some?
  {
    var l := remote.links[0];
    var g := TreePath(path) + Split(l.name);
    assert l in remote.links && g in remote.gitlinks && Under(TreePath(path), g) && g != TreePath(path);
  }

  // ---------------------------------------------------------------------- content

  function LimitsOf(p: Policy): Limits { Limits(p.clone.maxFileCount, p.clone.maxRepositorySize) }

  function InputsOf(g: Grant, hash: string): Inputs {
    Inputs(g.attrs.repo, g.attrs.revision, hash, g.policy.name, g.attrs.submodules, g.profile)
  }

  /** The provenance texts. */
  function FieldsOf(g: Grant, a: Answer, at: string): map<string, string> { Fields(InputsOf(g, HashOf(a)), at) }

  /** The tree a grant selects from what the remote serves. */
  function Wanted(g: Grant, remote: Remote): Option<Commit> { Chosen(remote.commit, remote.gitlinks, g.attrs.path) }

  /** The content the in-memory backend makes of it. */
  ghost function Made(g: Grant, remote: Remote, mods: Modules): Tree {
    match Wanted(g, remote)
    case None => map[]
    case Some(c) => ContentFor(c, g.attrs.submodules, mods)
  }

  /** Whether it can be made in the entry `w`: the tree is there, its links stay inside, and it is within
      the policy's limits. */
  ghost predicate CanMake(t: Tree, w: Path, g: Grant, remote: Remote, mods: Modules) {
    match g
    case Grant(attrs, policy, _) =>
      GoGitSucceeds(t, w, Wanted(g, remote), attrs.submodules, mods, LimitsOf(policy))
  }

  /** When content is made in memory, in terms of the grant: the limits are those of its policy. */
  lemma CanMakeMeaning(t: Tree, w: Path, g: Grant, remote: Remote, mods: Modules)
    ensures CanMake(t, w, g, remote, mods) <==>
            && CanMkdir(t, w) && remote.commit.Some?
            && Selected(remote.commit.value, remote.gitlinks, g.attrs.path).Some?
            && var c, clone := Selected(remote.commit.value, remote.gitlinks, g.attrs.path).value, g.policy.clone;
               var sizes := FileSizes(ContentFor(c, g.attrs.submodules, mods));
               && LinksStay(c, w + ["content"]) && (g.attrs.submodules ==> ModulesOk(mods, w + ["content"]))
               && (clone.maxFileCount <= 0 || |sizes| <= clone.maxFileCount)
               && (clone.maxRepositorySize <= 0 || Sum(sizes) <= clone.maxRepositorySize)
  {
    GoGitSucceedsMeaning(t, w, Wanted(g, remote), g.attrs.submodules, mods, LimitsOf(g.policy));
  }

  /** The tree the content is laid in: with the git binary backend, the repository directory is as Git
      leaves it. */
  ghost function GroundOf(t: Tree, w: Path, a: Answer): Tree
    requires [] in t
  {
    match a
    case Objects(_) => t
    case Working(co) => if CanMkdir(t, w) then WithTree(WithDirs(t, w, PRIVATE_DIR), RepoOf(w), co.tree) else t
  }

  ghost function GroundTimes(start: Snapshot, w: Path, a: Answer): map<Path, int> {
    match a
    case Objects(_) => start.mtime
    case Working(co) => if CanMkdir(start.nodes, w) then WithTree(start.mtime, RepoOf(w), co.stamps) else start.mtime
  }

  /** Whether the git binary backend makes content from what Git leaves. */
  ghost predicate CanCopy(t: Tree, w: Path, g: Grant, co: Checkout)
    requires [] in t
  {
    var ground, src := GroundOf(t, w, Working(co)), SourceOf(w, g.attrs.path);
    && CanMkdir(t, w) && co.done && src.Some? && !Swallowed(ground, w, src.value)
    && GitSucceeds(Cleared(ground, w), src.value, LimitsOf(g.policy))
  }

  /** When content is copied from a checkout, in terms of the grant. */
  lemma CanCopyMeaning(t: Tree, w: Path, g: Grant, co: Checkout)
    requires [] in t
    ensures CanCopy(t, w, g, co) <==>
            && CanMkdir(t, w) && co.done && SourceOf(w, g.attrs.path).Some?
            && var t1, src := Cleared(GroundOf(t, w, Working(co)), w), SourceOf(w, g.attrs.path).value;
               && GitReady(t1, src) && !Swallows(OwnPlace(t1, src).value, w + ["content"])
               && var sizes, clone := EntrySizes(GitCopied(t1, src)), g.policy.clone;
                  && (clone.maxFileCount <= 0 || |sizes| <= clone.maxFileCount)
                  && (clone.maxRepositorySize <= 0 || Sum(sizes) <= clone.maxRepositorySize)
  {
    if SourceOf(w, g.attrs.path).Some? {
      var t1, src := Cleared(GroundOf(t, w, Working(co)), w), SourceOf(w, g.attrs.path).value;
      if GitReady(t1, src) { LimitsMeaning(LimitsOf(g.policy), GitCopied(t1, src)); }
    }
  }

  /** The content a backend makes, if any. */
  ghost function Supplied(t: Tree, w: Path, g: Grant, a: Answer, mods: Modules): Option<Tree>
    requires [] in t
  {
    match a
    case Objects(remote) => if CanMake(t, w, g, remote, mods) then Some(Made(g, remote, mods)) else None
    case Working(co) =>
      if CanCopy(t, w, g, co)
      then Some(GitCopied(Cleared(GroundOf(t, w, a), w), SourceOf(w, g.attrs.path).value))
      else None
  }

  /** The tree with that content. */
  ghost function LaidFor(t: Tree, w: Path, g: Grant, a: Answer, mods: Modules): Tree
    requires [] in t && Supplied(t, w, g, a, mods).Some?
  {
    GroundRoot(t, w, a);
    LaidOut(GroundOf(t, w, a), w, Supplied(t, w, g, a, mods).value)
  }

  lemma GroundRoot(t: Tree, w: Path, a: Answer)
    requires [] in t
    ensures [] in GroundOf(t, w, a)
  {
    if a.Working? && CanMkdir(t, w) {
      var u := WithTree(WithDirs(t, w, PRIVATE_DIR), RepoOf(w), a.checkout.tree);
      assert !Under(RepoOf(w), []);
      assert Lookup(u, []) == Lookup(WithDirs(t, w, PRIVATE_DIR), []);
    }
  }

  // ------------------------------------------------------------- what a backend does

  /** Times move only in the entry, and above it to `since` or later. */
  ghost predicate TimesBeside(m: map<Path, int>, m': map<Path, int>, since: int, w: Path) {
    forall q :: q in m' && !Under(w, q) ==> (q in m && m'[q] == m[q]) || (since <= m'[q] && Under(q, w))
  }

  /** Beside the content, the entry is as its backend found it. */
  ghost predicate AsGround(start: Snapshot, after: Snapshot, w: Path, a: Answer)
    requires [] in start.nodes
  {
    forall q :: Under(w, q) && q != w && !Under(ContentOf(w), q) ==>
      && Lookup(after.nodes, q) == Lookup(GroundOf(start.nodes, w, a), q)
      && Lookup(after.mtime, q) == Lookup(GroundTimes(start, w, a), q)
  }

  /** Nothing outside the entry has changed, no link stands above its content, and beside the content it
      is as its backend found it. */
  ghost predicate WorkKept(start: Snapshot, after: Snapshot, w: Path, a: Answer, since: int)
    requires [] in start.nodes
  {
    && Confined(start.nodes, after.nodes, w) && TimesBeside(start.mtime, after.mtime, since, w)
    && NoLinkAt(after.nodes, w) && AsGround(start, after, w, a)
  }

  /** What a backend comes to. */
  ghost predicate ContentMade(start: Snapshot, after: Snapshot, w: Path, g: Grant, a: Answer, mods: Modules, since: int,
                              made: bool)
    requires [] in start.nodes
  {
    && WorkKept(start, after, w, a, since)
    && (made <==> Supplied(start.nodes, w, g, a, mods).Some?)
    && (made ==> after.nodes == LaidFor(start.nodes, w, g, a, mods) && FreshContent(after.mtime, w, since))
  }

  /** The backend, before the provenance. */
  method MakeContent(fs: FileSystem, workDir: string, g: Grant, a: Answer, ghost w: Path, ghost mods: Modules)
    returns (made: bool)
    requires fs.Valid() && Names(w) && workDir == Abs(w) && NoLinkAt(fs.nodes, w)
    requires Serves(a, g.attrs.path, mods, fs.now)
    modifies fs
    ensures fs.Valid() && old(fs.now) <= fs.now
    ensures ContentMade(Snapshot(old(fs.nodes), old(fs.mtime)), Snapshot(fs.nodes, fs.mtime), w, g, a, mods,
                        old(fs.now), made)
  {
    match a {
      case Objects(remote) => made := MakeObjects(fs, workDir, g, remote, w, mods);
      case Working(checkout) => made := MakeWorking(fs, workDir, g, checkout, w, mods);
    }
  }

  method MakeObjects(fs: FileSystem, workDir: string, g: Grant, remote: Remote, ghost w: Path, ghost mods: Modules)
    returns (made: bool)
    requires fs.Valid() && Names(w) && workDir == Abs(w) && NoLinkAt(fs.nodes, w)
    requires Serves(Objects(remote), g.attrs.path, mods, fs.now)
    modifies fs
    ensures fs.Valid() && old(fs.now) <= fs.now
    ensures ContentMade(Snapshot(old(fs.nodes), old(fs.mtime)), Snapshot(fs.nodes, fs.mtime), w, g, Objects(remote),
                        mods, old(fs.now), made)
  {
    ghost var start, n0 := Snapshot(fs.nodes, fs.mtime), fs.now;
    var mr := MaterializeGoGit(fs, workDir, g.attrs.path, remote.commit, remote.gitlinks, g.attrs.submodules,
                               remote.links, LimitsOf(g.policy), w, mods);
    made := mr.Ok?;
    ObjectsKept(start, Snapshot(fs.nodes, fs.mtime), w, Objects(remote), n0);
  }

  lemma ObjectsKept(start: Snapshot, after: Snapshot, w: Path, a: Answer, since: int)
    requires a.Objects? && [] in start.nodes
    requires start.mtime.Keys == start.nodes.Keys && after.mtime.Keys == after.nodes.Keys
    requires Confined(start.nodes, after.nodes, w) && Beside(start.nodes, after.nodes, w) && NoLinkAt(after.nodes, w)
    requires Restamped(start.mtime, after.mtime, since, ContentOf(w))
    ensures WorkKept(start, after, w, a, since)
  {
    assert TimesBeside(start.mtime, after.mtime, since, w) by {
      forall q | !Under(w, q) && (Under(ContentOf(w), q) || Under(q, ContentOf(w))) ensures Under(q, w) {
        if Under(ContentOf(w), q) { UnderTransitive(w, ContentOf(w), q); }
      }
    }
    forall q | Under(w, q) && q != w && !Under(ContentOf(w), q)
      ensures Lookup(after.nodes, q) == Lookup(start.nodes, q) && Lookup(after.mtime, q) == Lookup(start.mtime, q)
    {
      assert Under(q, ContentOf(w)) ==> q == ContentOf(w);
      assert Lookup(after.nodes, q) == Lookup(start.nodes, q);
    }
  }

  /** `Materialize` of the git binary backend: the work directory, what Git does, and the copy. */
  method MakeWorking(fs: FileSystem, workDir: string, g: Grant, co: Checkout, ghost w: Path, ghost mods: Modules)
    returns (made: bool)
    requires fs.Valid() && Names(w) && workDir == Abs(w) && NoLinkAt(fs.nodes, w)
    requires Serves(Working(co), g.attrs.path, mods, fs.now)
    modifies fs
    ensures fs.Valid() && old(fs.now) <= fs.now
    ensures ContentMade(Snapshot(old(fs.nodes), old(fs.mtime)), Snapshot(fs.nodes, fs.mtime), w, g, Working(co), mods,
                        old(fs.now), made)
  {
    ghost var a, start, n0 := Working(co), Snapshot(fs.nodes, fs.mtime), fs.now;
    var ready := GitWork(fs, workDir, co, w);
    ghost var mid, n1 := Snapshot(fs.nodes, fs.mtime), fs.now;
    if !ready || !co.done { return false; }
    var mr := MaterializeGitBinary(fs, workDir, g.attrs.path, LimitsOf(g.policy), w);
    made := mr.Ok?;
    WorkingMade(start, n0, mid, n1, Snapshot(fs.nodes, fs.mtime), w, g, co, mods, mr);
  }

  lemma WorkingMade(start: Snapshot, since: int, mid: Snapshot, later: int, after: Snapshot, w: Path, g: Grant,
                    co: Checkout, mods: Modules, r: Result<Materialized>)
    requires WellFormed(start.nodes) && WellFormed(mid.nodes) && IsDir(mid.nodes, w) && since <= later
    requires mid.mtime.Keys == mid.nodes.Keys && after.mtime.Keys == after.nodes.Keys
    requires CanMkdir(start.nodes, w) && co.done && mid.nodes == GroundOf(start.nodes, w, Working(co))
    requires WorkKept(start, mid, w, Working(co), since)
    requires var src := SourceOf(w, g.attrs.path);
             if src.None? then r.Err? && after == mid
             else GitMade(mid, later, after, w, src.value, LimitsOf(g.policy), r)
    ensures ContentMade(start, after, w, g, Working(co), mods, since, r.Ok?)
  {
    if SourceOf(w, g.attrs.path).Some? {
      KeptOn(start, since, mid, later, after, w, Working(co));
      if r.Ok? { LaterFresh(after.mtime, w, since, later); }
    }
  }

  lemma LaterFresh(m: map<Path, int>, w: Path, since: int, later: int)
    requires FreshContent(m, w, later) && since <= later
    ensures FreshContent(m, w, since)
  {}

  /** The work directory, and the repository directory as Git leaves it. */
  method GitWork(fs: FileSystem, workDir: string, co: Checkout, ghost w: Path) returns (ready: bool)
    requires fs.Valid() && Names(w) && workDir == Abs(w) && NoLinkAt(fs.nodes, w)
    requires co.tree != map[] ==> WellFormed(co.tree)
    requires co.stamps.Keys == co.tree.Keys && forall r :: r in co.stamps ==> co.stamps[r] <= fs.now
    modifies fs
    ensures fs.Valid() && old(fs.now) <= fs.now
    ensures ready <==> CanMkdir(old(fs.nodes), w)
    ensures ready ==> IsDir(fs.nodes, w)
    ensures fs.nodes == GroundOf(old(fs.nodes), w, Working(co))
    ensures WorkKept(Snapshot(old(fs.nodes), old(fs.mtime)), Snapshot(fs.nodes, fs.mtime), w, Working(co), old(fs.now))
  {
    ghost var start, n0 := Snapshot(fs.nodes, fs.mtime), fs.now;
    AbsLoc(w);
    MadeOrNot(fs.nodes, w);
    ready := fs.MkdirAll(Loc(workDir), PRIVATE_DIR);
    if !ready {
      NoGround(start, w, co, n0);
      return false;
    }
    ghost var made, n1 := Snapshot(fs.nodes, fs.mtime), fs.now;
    LeaveRepo(fs, Loc(workDir), co);
    LaterReplaced(made.mtime, fs.mtime, n0, n1, w, co.stamps);
    GroundKept(start, made, Snapshot(fs.nodes, fs.mtime), w, co, n0);
  }

  lemma NoGround(start: Snapshot, w: Path, co: Checkout, since: int)
    requires [] in start.nodes && NoLinkAt(start.nodes, w) && !CanMkdir(start.nodes, w)
    ensures GroundOf(start.nodes, w, Working(co)) == start.nodes && WorkKept(start, start, w, Working(co), since)
  {}

  lemma LaterReplaced(m: map<Path, int>, m': map<Path, int>, since: int, later: int, w: Path, stamps: map<Path, int>)
    requires Replaced(m, m', later, w, stamps) && since <= later
    ensures Replaced(m, m', since, w, stamps)
  {}

  /** What Git leaves in the repository directory. */
  method LeaveRepo(fs: FileSystem, w: Path, co: Checkout)
    requires fs.Valid() && Names(w) && IsDir(fs.nodes, w)
    requires co.tree != map[] ==> WellFormed(co.tree)
    requires co.stamps.Keys == co.tree.Keys && forall r :: r in co.stamps ==> co.stamps[r] <= fs.now
    modifies fs
    ensures fs.Valid() && old(fs.now) <= fs.now
    ensures fs.nodes == WithTree(old(fs.nodes), RepoOf(w), co.tree)
    ensures Replaced(old(fs.mtime), fs.mtime, old(fs.now), w, co.stamps)
  {
    var repo := RepoOf(w);
    assert Parent(repo) == w && IsName("repo");
    forall q | Under(repo, q) ensures !Under(q, w) { InRepo(w, q); }
    ghost var t, m, n := fs.nodes, fs.mtime, fs.now;
    if co.tree == map[] {
      NoneAbove(t, repo);
      fs.RemoveAll(repo);
      NothingLeft(t, repo);
      RemovedReplaced(m, fs.mtime, n, w, fs.nodes);
    } else {
      fs.Replace(repo, co.tree, co.stamps);
      forall q ensures Lookup(WithTree(m, repo, co.stamps), q) ==
                       if Under(repo, q) then Lookup(co.stamps, q[|repo|..]) else Lookup(m, q)
      {
        ReplacedAt(m, repo, co.stamps, q);
      }
    }
  }

  lemma NothingLeft(t: Tree, p: Path)
    ensures Without(t, p) == WithTree(t, p, map[])
  {
    forall q ensures Lookup(Without(t, p), q) == Lookup(WithTree(t, p, map[]), q) {
      ReplacedAt(t, p, map[], q);
    }
    SameTree(Without(t, p), WithTree(t, p, map[]));
  }

  lemma RemovedReplaced(m: map<Path, int>, m': map<Path, int>, since: int, w: Path, t': Tree)
    requires Stamped(m, m', since, RepoOf(w)) && m'.Keys == t'.Keys && forall q :: q in t' ==> !Under(RepoOf(w), q)
    ensures Replaced(m, m', since, w, map[])
  {
    forall q | Under(q, RepoOf(w)) && q != RepoOf(w) ensures Under(q, w) {
      UnderParent(q, RepoOf(w));
      assert Parent(RepoOf(w)) == w;
    }
  }

  /** Making the work directory and replacing the repository directory changes nothing else. */
  lemma GroundKept(start: Snapshot, made: Snapshot, after: Snapshot, w: Path, co: Checkout, since: int)
    requires [] in start.nodes && NoLinkAt(start.nodes, w) && CanMkdir(start.nodes, w)
    requires start.mtime.Keys == start.nodes.Keys && made.mtime.Keys == made.nodes.Keys
             && after.mtime.Keys == after.nodes.Keys
    requires made.nodes == WithDirs(start.nodes, w, PRIVATE_DIR) && Stamped(start.mtime, made.mtime, since, w)
    requires after.nodes == WithTree(made.nodes, RepoOf(w), co.tree)
    requires Replaced(made.mtime, after.mtime, since, w, co.stamps)
    ensures after.nodes == GroundOf(start.nodes, w, Working(co)) && WorkKept(start, after, w, Working(co), since)
    ensures IsDir(made.nodes, w) ==> IsDir(after.nodes, w)
  {
    forall q ensures !Under(RepoOf(w), q) ==> Lookup(after.nodes, q) == Lookup(made.nodes, q) {
      ReplacedAt(made.nodes, RepoOf(w), co.tree, q);
    }
    assert !Under(RepoOf(w), w) && Lookup(after.nodes, w) == Lookup(made.nodes, w);
    GroundConfined(start.nodes, made.nodes, after.nodes, w);
    TimesOutside(start.mtime, made.mtime, after.mtime, since, w, co);
    forall q | Under(w, q) && q != w && !Under(ContentOf(w), q)
      ensures Lookup(after.mtime, q) == Lookup(GroundTimes(start, w, Working(co)), q)
    {
      GroundTime(start, w, co, q);
      if !Under(RepoOf(w), q) { TimeBeside(start, made, after, w, co, since, q); }
    }
  }

  lemma ReplacedAt<V>(t: map<Path, V>, p: Path, sub: map<Path, V>, q: Path)
    ensures Lookup(WithTree(t, p, sub), q) == if Under(p, q) then Lookup(sub, q[|p|..]) else Lookup(t, q)
  {}

  /** The stamps below the repository directory are the ones given, and others move only above it. */
  ghost predicate Replaced(m: map<Path, int>, m': map<Path, int>, since: int, w: Path, stamps: map<Path, int>) {
    && (forall q :: Under(RepoOf(w), q) ==> Lookup(m', q) == Lookup(stamps, q[|RepoOf(w)|..]))
    && (forall q :: q in m' && !Under(RepoOf(w), q) ==> (q in m && m'[q] == m[q]) || (since <= m'[q] && Under(q, w)))
  }

  lemma InRepo(w: Path, q: Path)
    requires Under(RepoOf(w), q)
    ensures Under(w, q) && q != w && !Under(q, w)
  {
    UnderTransitive(w, RepoOf(w), q);
  }

  lemma TimesOutside(m0: map<Path, int>, m1: map<Path, int>, m2: map<Path, int>, since: int, w: Path, co: Checkout)
    requires Stamped(m0, m1, since, w) && Replaced(m1, m2, since, w, co.stamps)
    ensures TimesBeside(m0, m2, since, w)
  {
    forall q | q in m2 && !Under(w, q) ensures (q in m0 && m2[q] == m0[q]) || (since <= m2[q] && Under(q, w)) {
      if Under(RepoOf(w), q) { InRepo(w, q); }
    }
  }

  lemma GroundConfined(t: Tree, made: Tree, t': Tree, w: Path)
    requires [] in t && made == WithDirs(t, w, PRIVATE_DIR) && NoLinkAt(t, w)
    requires forall q :: !Under(RepoOf(w), q) ==> Lookup(t', q) == Lookup(made, q)
    ensures Confined(t, t', w) && NoLinkAt(t', w)
  {
    forall q | !Under(w, q) || Under(q, w) ensures Lookup(t', q) == Lookup(made, q) {
      if Under(RepoOf(w), q) { InRepo(w, q); }
    }
    forall q | q in t && !Under(w, q) ensures q in t' && t'[q] == t[q] { assert Lookup(t', q) == Lookup(made, q); }
    forall q | q in t' && q !in t ensures Under(w, q) || (Under(q, w) && t'[q].Dir?) {
      if !Under(w, q) { assert Lookup(t', q) == Lookup(made, q); }
    }
    forall q | q in t' && Under(q, w) ensures !t'[q].Link? { assert Lookup(t', q) == Lookup(made, q); }
  }

  lemma GroundTime(start: Snapshot, w: Path, co: Checkout, q: Path)
    requires [] in start.nodes && CanMkdir(start.nodes, w)
    ensures Lookup(GroundTimes(start, w, Working(co)), q) ==
            if Under(RepoOf(w), q) then Lookup(co.stamps, q[|RepoOf(w)|..]) else Lookup(start.mtime, q)
  {
    ReplacedAt(start.mtime, RepoOf(w), co.stamps, q);
  }

  lemma TimeBeside(start: Snapshot, made: Snapshot, after: Snapshot, w: Path, co: Checkout, since: int, q: Path)
    requires [] in start.nodes
    requires start.mtime.Keys == start.nodes.Keys && made.mtime.Keys == made.nodes.Keys
             && after.mtime.Keys == after.nodes.Keys
    requires made.nodes == WithDirs(start.nodes, w, PRIVATE_DIR) && Stamped(start.mtime, made.mtime, since, w)
    requires !Under(RepoOf(w), q) && Lookup(after.nodes, q) == Lookup(made.nodes, q)
    requires Replaced(made.mtime, after.mtime, since, w, co.stamps) && Under(w, q) && q != w
    ensures Lookup(after.mtime, q) == Lookup(start.mtime, q)
  {
    assert !Under(q, w);
    assert q in made.nodes <==> q in start.nodes;
    assert q in after.nodes <==> q in made.nodes;
  }

  /** Later changes in the content directory alone. */
  lemma KeptOn(start: Snapshot, since: int, mid: Snapshot, later: int, after: Snapshot, w: Path, a: Answer)
    requires [] in start.nodes && since <= later && WorkKept(start, mid, w, a, since)
    requires WellFormed(mid.nodes) && w in mid.nodes
    requires mid.mtime.Keys == mid.nodes.Keys && after.mtime.Keys == after.nodes.Keys
    requires Confined(mid.nodes, after.nodes, ContentOf(w)) && Restamped(mid.mtime, after.mtime, later, ContentOf(w))
    ensures WorkKept(start, after, w, a, since)
  {
    ConfinedWider(mid.nodes, after.nodes, w, ContentOf(w));
    ConfinedTransitive(start.nodes, mid.nodes, after.nodes, w);
    NoLinkStays(mid.nodes, after.nodes, w);
    forall q | !Under(ContentOf(w), q) && Under(q, ContentOf(w)) ensures Under(q, w) {
      UnderParent(q, ContentOf(w));
      assert Parent(ContentOf(w)) == w;
    }
    forall q | Under(w, q) && q != w && !Under(ContentOf(w), q)
      ensures Lookup(after.nodes, q) == Lookup(mid.nodes, q) && Lookup(after.mtime, q) == Lookup(mid.mtime, q)
    {
      assert !Under(q, ContentOf(w));
    }
    assert TimesBeside(start.mtime, after.mtime, since, w) by {
      forall q | q in after.mtime && !Under(w, q)
        ensures (q in start.mtime && after.mtime[q] == start.mtime[q]) || (since <= after.mtime[q] && Under(q, w))
      {
        assert !Under(ContentOf(w), q) by { if Under(ContentOf(w), q) { UnderTransitive(w, ContentOf(w), q); } }
      }
    }
  }

  // ------------------------------------------------------------------- provenance

  /** The content stands where it was laid out. */
  lemma LaidContent(t: Tree, w: Path, content: Tree)
    requires [] in t
    ensures Subtree(LaidOut(t, w, content), ContentOf(w)) == content
  {
    var laid, d := LaidOut(t, w, content), ContentOf(w);
    forall r ensures Lookup(Subtree(laid, d), r) == Lookup(content, r) {
      ReplacedAt(WithDirs(t, w, PRIVATE_DIR), d, content, d + r);
      assert Under(d, d + r) && (d + r)[|d|..] == r;
    }
    SameTree(Subtree(laid, d), content);
  }

  /** The root of the content is a directory. */
  lemma SuppliedRoot(t: Tree, w: Path, g: Grant, a: Answer, mods: Modules, now: int)
    requires [] in t && Supplied(t, w, g, a, mods).Some? && Serves(a, g.attrs.path, mods, now)
    ensures Lookup(Supplied(t, w, g, a, mods).value, []) == Some(Dir(PUBLIC_DIR))
  {
    if a.Objects? {
      var c := Wanted(g, a.remote).value;
      ContentExact(Made(g, a.remote, mods), c, g.attrs.submodules, mods);
      RootIsDir(Made(g, a.remote, mods), c, g.attrs.submodules, mods);
    }
  }

  lemma RootIsDir(s: Tree, c: Commit, submodules: bool, mods: Modules)
    requires IsContent(s, c, submodules, mods) && Apart(c, mods)
    ensures Lookup(s, []) == Some(Dir(PUBLIC_DIR))
  {
    if submodules {
      assert Clear(FetchedOf(mods), []);
      assert Lookup(s, []) == Lookup(LayOut(ExportLeaves(c), FetchedOf(mods).Keys), []);
    }
  }

  lemma ContentIsDir(t: Tree, w: Path, g: Grant, a: Answer, mods: Modules, now: int)
    requires [] in t && Supplied(t, w, g, a, mods).Some? && Serves(a, g.attrs.path, mods, now)
    ensures IsDir(LaidFor(t, w, g, a, mods), ContentOf(w))
  {
    GroundRoot(t, w, a);
    var content := Supplied(t, w, g, a, mods).value;
    SuppliedRoot(t, w, g, a, mods, now);
    LaidContent(GroundOf(t, w, a), w, content);
    assert ContentOf(w) + [] == ContentOf(w) && [] in Subtree(LaidFor(t, w, g, a, mods), ContentOf(w));
  }

  /** Nothing outside `root` has changed, except that directories above it have appeared and that files
      have been written at `places`. */
  ghost predicate StrayedIn(t: Tree, t': Tree, root: Path, places: set<Path>) {
    forall q :: !Under(root, q) ==>
      || Lookup(t', q) == Lookup(t, q)
      || (q !in t && q in t' && t'[q].Dir? && Under(q, root))
      || (q in places && q in t' && t'[q].File?)
  }

  /** What writing the provenance comes to, over the tree `mid`. */
  ghost predicate ProvenanceResult(mid: Snapshot, now: int, after: Snapshot, d: Path, fields: map<string, string>,
                                   ok: bool) {
    if Settled(mid.nodes, d) then
      && Confined(mid.nodes, after.nodes, d) && Restamped(mid.mtime, after.mtime, now, d)
      && (ok <==> CanMark(mid.nodes, d)) && (ok ==> Marks(mid.nodes, d, fields, Subtree(after.nodes, d)))
    else
      && (ok <==> AllLead(mid.nodes, d))
      && forall q :: Lookup(after.nodes, q) == Lookup(mid.nodes, q)
                     || (q in MetaPlaces(mid.nodes, d, FIELD_SET) && q in after.nodes && after.nodes[q].File?)
  }

  method WriteProvenance(fs: FileSystem, contentDir: string, inputs: Inputs, mountedAt: string, ghost d: Path)
    returns (ok: bool)
    requires fs.Valid() && Names(d) && contentDir == Abs(d) && IsDir(fs.nodes, d)
    modifies fs
    ensures fs.Valid() && old(fs.now) <= fs.now && (ok ==> IsDir(fs.nodes, d))
    ensures ProvenanceResult(Snapshot(old(fs.nodes), old(fs.mtime)), old(fs.now), Snapshot(fs.nodes, fs.mtime), d,
                             Fields(inputs, mountedAt), ok)
  {
    ghost var t, fields := fs.nodes, Fields(inputs, mountedAt);
    FieldKeys(inputs, mountedAt);
    ok := Write(fs, contentDir, inputs, mountedAt, d);
    if Settled(t, d) { WrittenMarks(t, fs.nodes, d, fields, ok); }
    else { WrittenAstray(t, fs.nodes, d, fields, ok); }
    if ok { StillDir(t, fs.nodes, d, fields); }
  }

  lemma WrittenAstray(t: Tree, t': Tree, d: Path, fields: map<string, string>, ok: bool)
    requires fields.Keys == FIELD_SET && WhereLinksLead(t, t', d, fields, ok)
    ensures ok <==> AllLead(t, d)
    ensures forall q :: Lookup(t', q) == Lookup(t, q) || (q in MetaPlaces(t, d, FIELD_SET) && q in t' && t'[q].File?)
  {
    forall q ensures Lookup(t', q) == Lookup(t, q) || (q in MetaPlaces(t, d, FIELD_SET) && q in t' && t'[q].File?) {
      assert Lookup(t', q) == Lookup(t, q) || PlaceWritten(t, t', d, fields, q);
    }
  }

  lemma StillDir(t: Tree, t': Tree, d: Path, fields: map<string, string>)
    requires IsDir(t, d) && fields.Keys == FIELD_SET
    requires InPlace(t, t', d, fields, true) || Through(t, t', d, fields)
    ensures IsDir(t', d)
  {
    assert d + [] == d;
    if InPlace(t, t', d, fields, true) {
      assert [] in Subtree(t, d) && Lookup(Subtree(t', d), []) == MetaEntry(Subtree(t, d), fields, []);
      assert [] in Subtree(t', d);
    } else {
      assert Lookup(t', d) == Lookup(t, d) || PlaceWritten(t, t', d, fields, d);
    }
  }

  // --------------------------------------------------------------------- an entry

  /** The entry `w` holds `marked` as its content, all of it new since `since`. */
  ghost predicate EntryMade(t: Tree, m: map<Path, int>, w: Path, marked: Tree, since: int) {
    Subtree(t, ContentOf(w)) == marked && IsDir(t, ContentOf(w)) && FreshContent(m, w, since)
  }

  /** What writing the provenance over the tree `laid` comes to, from `start`. Where it stays inside the
      content, it succeeds exactly when it can be written; the entry then holds the marked content,
      all of it new, and nothing outside it changes. Where links lead it out, nothing else outside
      the entry changes. */
  ghost predicate MarkResult(start: Snapshot, after: Snapshot, laid: Tree, w: Path, a: Answer,
                             fields: map<string, string>, since: int, marked: Tree, ok: bool)
    requires [] in start.nodes
  {
    var d := ContentOf(w);
    if Settled(laid, d) then
      && WorkKept(start, after, w, a, since)
      && (ok <==> CanMark(laid, d))
      && (ok ==> Marks(laid, d, fields, marked) && EntryMade(after.nodes, after.mtime, w, marked, since))
    else
      && (ok <==> AllLead(laid, d))
      && StrayedIn(start.nodes, after.nodes, w, MetaPlaces(laid, d, FIELD_SET)) && NoLinkAt(after.nodes, w)
  }

  /** What materialising the entry `w` and writing its provenance comes to: it fails without content. */
  ghost predicate EntryResult(start: Snapshot, after: Snapshot, w: Path, g: Grant, a: Answer, mods: Modules, at: string,
                              since: int, marked: Tree, r: Result<string>)
    requires [] in start.nodes
  {
    && (r.Ok? ==> r.value == Abs(ContentOf(w)) && IsDir(after.nodes, ContentOf(w)))
    && if Supplied(start.nodes, w, g, a, mods).None? then r.Err? && WorkKept(start, after, w, a, since)
       else
         MarkResult(start, after, LaidFor(start.nodes, w, g, a, mods), w, a, FieldsOf(g, a, at), since, marked, r.Ok?)
  }

  /** Materialise one entry and write its provenance. */
  method MaterializeEntry(fs: FileSystem, workDir: string, g: Grant, a: Answer, mountedAt: string,
                          ghost w: Path, ghost mods: Modules)
    returns (r: Result<string>, ghost marked: Tree)
    requires fs.Valid() && Names(w) && workDir == Abs(w) && NoLinkAt(fs.nodes, w)
    requires Serves(a, g.attrs.path, mods, fs.now)
    modifies fs
    ensures fs.Valid() && old(fs.now) <= fs.now
    ensures EntryResult(Snapshot(old(fs.nodes), old(fs.mtime)), Snapshot(fs.nodes, fs.mtime), w, g, a, mods, mountedAt,
                        old(fs.now), marked, r)
  {
    ghost var start, n0 := Snapshot(fs.nodes, fs.mtime), fs.now;
    var made := MakeContent(fs, workDir, g, a, w, mods);
    if !made { return Err, map[]; }
    ContentIsDir(start.nodes, w, g, a, mods, n0);
    r, marked := MarkEntry(fs, workDir, g, a, mountedAt, w, start, n0);
  }

  /** The provenance of an entry whose content is made. */
  method MarkEntry(fs: FileSystem, workDir: string, g: Grant, a: Answer, mountedAt: string, ghost w: Path,
                   ghost start: Snapshot, ghost since: int)
    returns (r: Result<string>, ghost marked: Tree)
    requires fs.Valid() && Names(w) && workDir == Abs(w) && IsDir(fs.nodes, ContentOf(w))
    requires [] in start.nodes && since <= fs.now && FreshContent(fs.mtime, w, since)
    requires WorkKept(start, Snapshot(fs.nodes, fs.mtime), w, a, since)
    modifies fs
    ensures fs.Valid() && old(fs.now) <= fs.now
    ensures r.Ok? ==> r.value == Abs(ContentOf(w)) && IsDir(fs.nodes, ContentOf(w))
    ensures MarkResult(start, Snapshot(fs.nodes, fs.mtime), old(fs.nodes), w, a, FieldsOf(g, a, mountedAt), since,
                       marked, r.Ok?)
  {
    ghost var mid, n1 := Snapshot(fs.nodes, fs.mtime), fs.now;
    var contentDir := Join(workDir, "content");
    JoinName(w, "content");
    var ok := WriteProvenance(fs, contentDir, InputsOf(g, HashOf(a)), mountedAt, ContentOf(w));
    marked := Subtree(fs.nodes, ContentOf(w));
    r := if ok then Ok(contentDir) else Err;
    EntryDone(start, since, mid, n1, Snapshot(fs.nodes, fs.mtime), w, a, FieldsOf(g, a, mountedAt), ok);
  }

  lemma EntryDone(start: Snapshot, since: int, mid: Snapshot, later: int, after: Snapshot, w: Path, a: Answer,
                  fields: map<string, string>, ok: bool)
    requires [] in start.nodes && since <= later && WorkKept(start, mid, w, a, since)
             && FreshContent(mid.mtime, w, since)
    requires WellFormed(mid.nodes) && IsDir(mid.nodes, ContentOf(w)) && (ok ==> IsDir(after.nodes, ContentOf(w)))
    requires mid.mtime.Keys == mid.nodes.Keys && after.mtime.Keys == after.nodes.Keys && WellFormed(after.nodes)
    requires ProvenanceResult(mid, later, after, ContentOf(w), fields, ok)
    ensures MarkResult(start, after, mid.nodes, w, a, fields, since, Subtree(after.nodes, ContentOf(w)), ok)
  {
    assert Under(w, ContentOf(w));
    if Settled(mid.nodes, ContentOf(w)) {
      KeptOn(start, since, mid, later, after, w, a);
      StaysFresh(mid.mtime, after.mtime, since, later, w);
    } else {
      AstrayDone(start.nodes, mid.nodes, after.nodes, w, MetaPlaces(mid.nodes, ContentOf(w), FIELD_SET));
    }
  }

  /** What is written outside the entry is only what links lead out. */
  lemma AstrayDone(t: Tree, mid: Tree, t': Tree, w: Path, places: set<Path>)
    requires Confined(t, mid, w) && NoLinkAt(mid, w)
    requires forall q :: Lookup(t', q) == Lookup(mid, q) || (q in places && q in t' && t'[q].File?)
    ensures StrayedIn(t, t', w, places) && NoLinkAt(t', w)
  {
    forall q | q in t' && Under(q, w) ensures !t'[q].Link? { assert Lookup(t', q) == Lookup(mid, q) || t'[q].File?; }
    forall q | !Under(w, q)
      ensures Lookup(t', q) == Lookup(t, q) || (q !in t && q in t' && t'[q].Dir? && Under(q, w))
              || (q in places && q in t' && t'[q].File?)
    {
      assert Lookup(t', q) == Lookup(mid, q) || (q in places && q in t' && t'[q].File?);
    }
  }
}
