/** The in-memory backend's submodules: each listed one is exported into its own directory. */
module Submodules {
  import opened Wrappers
  import opened Text
  import opened LexicalPath
  import opened Links
  import opened SafePaths
  import opened Trees
  import opened FileSystems
  import opened Publishing
  import opened Commits
  import opened GoGit

  /** A submodule entry of a tree: without a URL in `.gitmodules`, with one that cannot be
      cloned or resolved, or with the files of its commit. */
  datatype Module = Unlisted | Unreachable | Fetched(files: seq<TreeFile>)

  datatype Gitlink = Gitlink(name: string, content: Module)

  /** The submodules that have a URL, by path, and their commits where they could be fetched. */
  type Modules = map<Path, Option<Commit>>

  ghost predicate GitLists(links: seq<Gitlink>, mods: Modules) {
    if links == [] then mods == map[]
    else
      var p, rest := Split(links[0].name), links[1..];
      match links[0].content
      case Unlisted => GitLists(rest, mods)
      case Unreachable => p in mods && mods[p] == None && GitLists(rest, mods - {p})
      case Fetched(files) =>
        p in mods && mods[p].Some? && Lists(files, mods[p].value) && GitLists(rest, mods - {p})
  }

  /** Submodules stand apart from the leaves and from each other. */
  ghost predicate Apart(c: Commit, mods: Modules) {
    && WellFormedCommit(c)
    && (forall p :: p in mods ==> p != [] && Names(p) && (mods[p].Some? ==> WellFormedCommit(mods[p].value)))
    && (forall p, q {:trigger p in mods, q in c} :: p in mods && q in c ==> !Under(p, q) && !Under(q, p))
    && (forall p, q {:trigger Under(p, q), p in mods} :: p in mods && q in mods && Under(p, q) ==> p == q)
  }

  /** Exporting the submodules succeeds: none is inside a `.git`, each was fetched, and no link
      leaves the directory of its submodule. */
  ghost predicate ModulesOk(mods: Modules, d: Path) {
    forall p :: p in mods ==> ".git" !in p && mods[p].Some? && LinksStay(mods[p].value, d + p)
  }

  // --------------------------------------------------------------- specification

  /** A table moved below `p`. */
  ghost function Shift<V>(p: Path, m: map<Path, V>): (s: map<Path, V>)
    ensures forall q :: q in s <==> Under(p, q) && q[|p|..] in m
    ensures forall q :: q in s ==> Under(p, q) && s[q] == m[q[|p|..]]
  {
    var keys := set r | r in m :: p + r;
    assert forall r: Path :: (p + r)[|p|..] == r;
    assert forall q :: Under(p, q) ==> q == p + q[|p|..];
    map q | q in keys :: m[q[|p|..]]
  }

  /** `t` is what the backend writes for a commit with its fetched submodules: each submodule's
      export in its place, and elsewhere the commit's own with the directories they need. */
  ghost predicate IsWhole(t: Tree, c: Commit, mods: map<Path, Commit>) {
    && (forall p :: p in mods ==> Subtree(t, p) == Exported(mods[p]))
    && (forall r :: Clear(mods, r) ==> Lookup(t, r) == Lookup(LayOut(ExportLeaves(c), mods.Keys), r))
  }

  /** `r` is in no submodule. */
  ghost predicate Clear(mods: map<Path, Commit>, r: Path) {
    forall p :: p in mods ==> !Under(p, r)
  }

  /** That tree, entry by entry. */
  ghost function WholeEntry(c: Commit, mods: map<Path, Commit>, r: Path): Option<Node> {
    if Clear(mods, r) then Lookup(LayOut(ExportLeaves(c), mods.Keys), r)
    else
      var p :| p in mods && Under(p, r);
      Lookup(Exported(mods[p]), r[|p|..])
  }

  ghost function Whole(c: Commit, mods: map<Path, Commit>): Tree {
    var inside := set p, q | p in mods && q in Exported(mods[p]) :: p + q;
    map r | r in LayOut(ExportLeaves(c), mods.Keys).Keys + inside && WholeEntry(c, mods, r).Some? ::
      WholeEntry(c, mods, r).value
  }

  /** When no submodule lies in another, it is what the backend writes. */
  lemma WholeIs(c: Commit, mods: map<Path, Commit>)
    requires forall p, q {:trigger Under(p, q), p in mods} :: p in mods && q in mods && Under(p, q) ==> p == q
    ensures IsWhole(Whole(c, mods), c, mods)
  {
    var t := Whole(c, mods);
    forall p | p in mods ensures Subtree(t, p) == Exported(mods[p]) {
      forall r ensures Lookup(Subtree(t, p), r) == Lookup(Exported(mods[p]), r) { WholeInside(c, mods, p, r); }
      SameTree(Subtree(t, p), Exported(mods[p]));
    }
  }

  lemma WholeInside(c: Commit, mods: map<Path, Commit>, p: Path, r: Path)
    requires forall p, q {:trigger Under(p, q), p in mods} :: p in mods && q in mods && Under(p, q) ==> p == q
    requires p in mods
    ensures Lookup(Whole(c, mods), p + r) == Lookup(Exported(mods[p]), r)
  {
    assert Under(p, p + r) && (p + r)[|p|..] == r;
    var o :| o in mods && Under(o, p + r) && WholeEntry(c, mods, p + r) == Lookup(Exported(mods[o]), (p + r)[|o|..]);
    PrefixesCompare(o, p, p + r);
    assert o == p;
  }

  /** The commit and its submodules determine what is written. */
  lemma WholeUnique(t: Tree, t': Tree, c: Commit, mods: map<Path, Commit>)
    requires IsWhole(t, c, mods) && IsWhole(t', c, mods)
    ensures t == t'
  {
    forall r ensures Lookup(t, r) == Lookup(t', r) {
      if !Clear(mods, r) {
        var p :| p in mods && Under(p, r);
        SameInside(t, t', p, r);
      }
    }
    SameTree(t, t');
  }

  lemma SameInside(t: Tree, t': Tree, p: Path, r: Path)
    requires Subtree(t, p) == Subtree(t', p) && Under(p, r)
    ensures Lookup(t, r) == Lookup(t', r)
  {
    assert r == p + r[|p|..];
    assert r[|p|..] in Subtree(t, p) <==> r[|p|..] in Subtree(t', p);
  }

  // ----------------------------------------------------------------- one module

  /** What changes only at `d + p`, seen from `d`. */
  lemma GraftLookup(t: Tree, t': Tree, d: Path, p: Path, r: Path)
    requires Confined(t, t', d + p) && forall q :: q in t' && q !in t ==> Under(d + p, q)
    ensures Lookup(Subtree(t', d), r) ==
            if Under(p, r) then Lookup(Subtree(t', d + p), r[|p|..]) else Lookup(Subtree(t, d), r)
  {
    ShiftedUnder(d, p, r);
    if Under(p, r) { assert d + r == d + p + r[|p|..]; }
  }

  lemma ShiftedUnder(d: Path, p: Path, r: Path)
    ensures Under(d + p, d + r) <==> Under(p, r)
  {
    PrefixSplit(d, p, r);
  }

  // -------------------------------------------------------------------- counting

  /** The files an export holds are the kept blobs, with their sizes. */
  lemma ExportSizes(c: Commit)
    ensures FileSizes(Exported(c)) == BlobSizes(c)
  {
    WaysClosed(ExportLeaves(c), {});
    var leaves := ExportLeaves(c);
    forall r ensures r in FileSizes(Exported(c)) <==> r in leaves && leaves[r].File? {}
  }

  lemma {:induction false} SumShift(p: Path, w: map<Path, nat>)
    ensures Sum(Shift(p, w)) == Sum(w) && |Shift(p, w)| == |w|
    decreases |w|
  {
    if w == map[] {
      assert Shift(p, w) == map[];
    } else {
      var k :| k in w;
      SumRemove(w, k);
      SumShift(p, w - {k});
      ShiftRemove(p, w, k);
      SumRemove(Shift(p, w), p + k);
    }
  }

  lemma ShiftRemove(p: Path, w: map<Path, nat>, k: Path)
    requires k in w
    ensures p + k in Shift(p, w) && Shift(p, w)[p + k] == w[k]
    ensures Shift(p, w) - {p + k} == Shift(p, w - {k})
  {
    assert (p + k)[|p|..] == k;
    forall q | Under(p, q) ensures q == p + k <==> q[|p|..] == k { assert q == p + q[|p|..]; }
  }

  /** Filling a place that held no file adds exactly the files put there. */
  lemma CountGraft(t: Tree, t': Tree, p: Path, inner: Tree)
    requires Grafted(t, t', p, inner)
    ensures |FileSizes(t')| == |FileSizes(t)| + |FileSizes(inner)|
    ensures Sum(FileSizes(t')) == Sum(FileSizes(t)) + Sum(FileSizes(inner))
  {
    GraftSizes(t, t', p, inner);
    SumShift(p, FileSizes(inner));
    SumDisjoint(FileSizes(t), Shift(p, FileSizes(inner)));
  }

  /** `t'` is `t` with `inner` at the free place `p`, and directories on the way to it. */
  ghost predicate Grafted(t: Tree, t': Tree, p: Path, inner: Tree) {
    && (forall r :: Under(p, r) ==> r !in t && Lookup(t', r) == Lookup(inner, r[|p|..]))
    && (forall r :: !Under(p, r) ==>
          Lookup(t', r) == if r !in t && Under(r, p) then Some(Dir(PUBLIC_DIR)) else Lookup(t, r))
  }

  lemma GraftSizes(t: Tree, t': Tree, p: Path, inner: Tree)
    requires Grafted(t, t', p, inner)
    ensures FileSizes(t).Keys !! Shift(p, FileSizes(inner)).Keys
    ensures FileSizes(t') == FileSizes(t) + Shift(p, FileSizes(inner))
  {
    var before, more := FileSizes(t), Shift(p, FileSizes(inner));
    forall r ensures Lookup(FileSizes(t'), r) == Lookup(before + more, r) {
      GraftSize(t, t', p, inner, r);
    }
    SameTree(FileSizes(t'), before + more);
  }

  lemma GraftSize(t: Tree, t': Tree, p: Path, inner: Tree, r: Path)
    requires Grafted(t, t', p, inner)
    ensures Under(p, r) ==> r !in t && Lookup(FileSizes(t'), r) == Lookup(FileSizes(inner), r[|p|..])
    ensures !Under(p, r) ==> Lookup(FileSizes(t'), r) == Lookup(FileSizes(t), r)
  {
    if Under(p, r) {
      assert Lookup(t', r) == Lookup(inner, r[|p|..]);
    } else {
      assert Lookup(t', r) == if r !in t && Under(r, p) then Some(Dir(PUBLIC_DIR)) else Lookup(t, r);
    }
  }

  // -------------------------------------------------------------- the export loop

  ghost function FetchedOf(mods: Modules): map<Path, Commit> {
    map p | p in mods && mods[p].Some? :: mods[p].value
  }

  /** What exporting one link does when its directory is free. */
  ghost predicate ModuleExported(t: Tree, t': Tree, ok: bool, count: nat, size: nat, d: Path, link: Gitlink, m: Commit)
    requires [] in t
  {
    var p := Split(link.name);
    if link.content.Unlisted? then ok && t' == t && count == 0 && size == 0
    else if ".git" in p || link.content.Unreachable? then !ok
    else
      Lists(link.content.files, m) && WellFormedCommit(m) && CanMkdir(t, d + p) && d + p !in t ==>
        (ok <==> LinksStay(m, d + p))
        && (ok ==> Subtree(t', d + p) == Exported(m) && Tallied(m, count, size)
                   && Confined(WithDirs(t, d + p, PUBLIC_DIR), t', d + p))
  }

  /** Whether a link is passed over or refused, or its directory can be made where its path says. */
  ghost predicate ModulePlaced(t: Tree, d: Path, link: Gitlink, m: Commit) {
    var p := Split(link.name);
    link.content.Unlisted? || ".git" in p || FreeFor(t, d + p, link.content, m)
  }

  ghost predicate FreeFor(t: Tree, at: Path, content: Module, m: Commit) {
    CanMkdir(t, at) && at !in t && (content.Fetched? ==> Lists(content.files, m) && WellFormedCommit(m))
  }

  /** One round of `exportSubmodules`. */
  method ExportModule(fs: FileSystem, link: Gitlink, contentDir: string, ghost d: Path, ghost m: Commit)
    returns (ok: bool, count: nat, size: nat)
    requires fs.Valid() && Names(d) && contentDir == Abs(d)
    modifies fs
    ensures fs.Valid() && old(fs.now) <= fs.now && Grows(old(fs.nodes), fs.nodes)
    ensures link.content.Unlisted? || Names(Split(link.name)) ==>
              && ModuleExported(old(fs.nodes), fs.nodes, ok, count, size, d, link, m)
              && (ModulePlaced(old(fs.nodes), d, link, m) ==>
                    ChangedWithin(Snapshot(old(fs.nodes), old(fs.mtime)), old(fs.now), Snapshot(fs.nodes, fs.mtime), d))
  {
    ok, count, size := true, 0, 0;
    if link.content.Unlisted? { return; }
    var joined := SafeJoin(contentDir, link.name);
    JoinedBelow(d, link.name);
    if Names(Split(link.name)) && ".git" in Split(link.name) { GitRefused(d, link.name); }
    if joined.Err? { return false, 0, 0; }
    ghost var at := d + RelOf(link.name);
    ok, count, size := FillModule(fs, link.content, joined.value, at, m);
    if FreeFor(old(fs.nodes), at, link.content, m) {
      ConfinedWider(old(fs.nodes), fs.nodes, d, at);
      RestampedWider(old(fs.mtime), fs.mtime, old(fs.now), d, at);
    }
  }

  /** A linked submodule's directory, and its files in it. */
  method FillModule(fs: FileSystem, content: Module, subDir: string, ghost at: Path, ghost m: Commit)
    returns (ok: bool, count: nat, size: nat)
    requires fs.Valid() && Names(at) && subDir == Abs(at) && !content.Unlisted?
    modifies fs
    ensures fs.Valid() && old(fs.now) <= fs.now && Grows(old(fs.nodes), fs.nodes)
    ensures FreeFor(old(fs.nodes), at, content, m) ==>
              ChangedWithin(Snapshot(old(fs.nodes), old(fs.mtime)), old(fs.now), Snapshot(fs.nodes, fs.mtime), at)
    ensures content.Unreachable? ==> !ok
    ensures content.Fetched? && FreeFor(old(fs.nodes), at, content, m) ==>
              (ok <==> LinksStay(m, at))
              && (ok ==> Subtree(fs.nodes, at) == Exported(m) && Tallied(m, count, size)
                         && Confined(WithDirs(old(fs.nodes), at, PUBLIC_DIR), fs.nodes, at))
  {
    count, size := 0, 0;
    ok := MakeModule(fs, subDir, at);
    if !ok || content.Unreachable? { ok := false; return; }
    ghost var mid, n1 := Snapshot(fs.nodes, fs.mtime), fs.now;
    ok, count, size := ExportTree(fs, content.files, subDir, at, m);
    if FreeFor(old(fs.nodes), at, content, m) {
      ChangedWithinOn(Snapshot(old(fs.nodes), old(fs.mtime)), old(fs.now), mid, n1, Snapshot(fs.nodes, fs.mtime), at);
    }
  }

  /** The directory of a submodule. */
  method MakeModule(fs: FileSystem, subDir: string, ghost at: Path) returns (ok: bool)
    requires fs.Valid() && Names(at) && subDir == Abs(at)
    modifies fs
    ensures fs.Valid() && old(fs.now) <= fs.now && Grows(old(fs.nodes), fs.nodes)
    ensures CanMkdir(old(fs.nodes), at) && at !in old(fs.nodes) ==>
              && ok && fs.nodes == WithDirs(old(fs.nodes), at, PUBLIC_DIR) && ExportState(fs.nodes, at, map[])
              && ChangedWithin(Snapshot(old(fs.nodes), old(fs.mtime)), old(fs.now), Snapshot(fs.nodes, fs.mtime), at)
  {
    AbsLoc(at);
    if CanMkdir(fs.nodes, at) { MadePlain(fs.nodes, at); }
    FreshDirectory(fs.nodes, at);
    ok := fs.MkdirAll(Loc(subDir), PUBLIC_DIR);
  }

  lemma ChangedWithinOn(a: Snapshot, since: int, b: Snapshot, later: int, c: Snapshot, d: Path)
    requires ChangedWithin(a, since, b, d) && ChangedWithin(b, later, c, d) && since <= later
    ensures ChangedWithin(a, since, c, d)
  {
    ConfinedTransitive(a.nodes, b.nodes, c.nodes, d);
    RestampedOn(a.mtime, b.mtime, c.mtime, since, later, d);
  }

  lemma GitRefused(d: Path, name: string)
    requires Names(d) && Names(Split(name)) && ".git" in Split(name)
    ensures SafeJoin(Abs(d), name).Err?
  {
    JoinedBelow(d, name);
    AbsLoc(d);
    SafeJoinMeaning(Abs(d), name);
  }

  lemma FreshDirectory(t: Tree, at: Path)
    requires WellFormed(t)
    ensures at !in t ==> ExportState(WithDirs(t, at, PUBLIC_DIR), at, map[])
  {
    if at !in t {
      var made := WithDirs(t, at, PUBLIC_DIR);
      forall r ensures Lookup(Subtree(made, at), r) == Lookup(Exported(map[]), r) {
        if at + r in made {
          assert Under(at, at + r);
          if at + r !in t { assert Under(at + r, at); assert |r| == 0; }
        }
        assert at + [] == at;
      }
      SameTree(Subtree(made, at), Exported(map[]));
    }
  }

  /** `done` are submodules of `mods`, fetched. */
  ghost predicate PartOf(done: map<Path, Commit>, mods: Modules) {
    forall p :: p in done ==> p in mods && mods[p] == Some(done[p])
  }

  /** A moment of the submodule loop: what has been exported, and the links still listed. */
  datatype Stage = Stage(done: map<Path, Commit>, todo: seq<Gitlink>)

  /** `done` has been exported beside `c`, and `todo` lists the other submodules. */
  ghost predicate ModulesProgress(t: Tree, d: Path, c: Commit, mods: Modules, stage: Stage) {
    match stage
    case Stage(done, todo) =>
      && Apart(c, mods) && PartOf(done, mods)
      && GitLists(todo, mods - done.Keys)
      && d in t && IsWhole(Subtree(t, d), c, done)
      && DoneOk(done, d)
  }

  ghost predicate DoneOk(done: map<Path, Commit>, d: Path) {
    forall p :: p in done ==> ".git" !in p && LinksStay(done[p], d + p)
  }

  /** The counters so far, beside those of the commit itself, are the files on disk. */
  ghost predicate ModulesTallied(t: Tree, c: Commit, count: nat, size: nat) {
    |FileSizes(t)| == |BlobSizes(c)| + count && Sum(FileSizes(t)) == Sum(BlobSizes(c)) + size
  }

  /** `exportSubmodules`. Nothing that stands is changed by any links. Beside an exported commit, and
      where links and leaves stand apart, nothing outside the directory is changed, and it fails only
      on a submodule inside a `.git`, one that cannot be fetched, or a link that leaves its submodule;
      otherwise the directory holds the commit with every listed submodule in place, and the
      counters are what the submodules add to the regular files on disk. */
  method ExportSubmodules(fs: FileSystem, links: seq<Gitlink>, contentDir: string,
                          ghost d: Path, ghost c: Commit, ghost mods: Modules)
    returns (ok: bool, count: nat, size: nat)
    requires fs.Valid() && Names(d) && contentDir == Abs(d)
    modifies fs
    ensures fs.Valid() && old(fs.now) <= fs.now && Grows(old(fs.nodes), fs.nodes)
    ensures GitLists(links, mods) && Apart(c, mods) && ExportState(old(fs.nodes), d, c) ==>
              Confined(old(fs.nodes), fs.nodes, d) && Restamped(old(fs.mtime), fs.mtime, old(fs.now), d)
              && (ok <==> ModulesOk(mods, d))
              && (ok ==> d in fs.nodes && IsWhole(Subtree(fs.nodes, d), c, FetchedOf(mods))
                         && ModulesTallied(Subtree(fs.nodes, d), c, count, size))
  {
    ghost var good := GitLists(links, mods) && Apart(c, mods) && ExportState(fs.nodes, d, c);
    if good { ModulesStart(fs.nodes, d, c, mods, links); }
    ghost var done;
    ok, count, size, done := ExportLinks(fs, links, contentDir, d, c, mods, good);
    if good && ok { ModulesDone(fs.nodes, d, c, mods, done); }
  }

  ghost function CommitAt(mods: Modules, p: Path): Commit {
    if p in mods && mods[p].Some? then mods[p].value else map[]
  }

  method ExportLinks(fs: FileSystem, links: seq<Gitlink>, contentDir: string,
                     ghost d: Path, ghost c: Commit, ghost mods: Modules, ghost good: bool)
    returns (ok: bool, count: nat, size: nat, ghost done: map<Path, Commit>)
    requires fs.Valid() && Names(d) && contentDir == Abs(d)
    requires good ==> ModulesProgress(fs.nodes, d, c, mods, Stage(map[], links))
    requires good ==> ModulesTallied(Subtree(fs.nodes, d), c, 0, 0)
    modifies fs
    ensures fs.Valid() && old(fs.now) <= fs.now && Grows(old(fs.nodes), fs.nodes)
    ensures good ==>
              ChangedWithin(Snapshot(old(fs.nodes), old(fs.mtime)), old(fs.now), Snapshot(fs.nodes, fs.mtime), d)
    ensures good && ok ==> ModulesProgress(fs.nodes, d, c, mods, Stage(done, []))
    ensures good && ok ==> ModulesTallied(Subtree(fs.nodes, d), c, count, size)
    ensures good && !ok ==> !ModulesOk(mods, d)
  {
    ok, count, size, done := true, 0, 0, map[];
    ghost var start, n0 := Snapshot(fs.nodes, fs.mtime), fs.now;
    assert links[0..] == links;
    for i := 0 to |links|
      invariant ok && fs.Valid() && n0 <= fs.now && Grows(start.nodes, fs.nodes)
      invariant good ==> ChangedWithin(start, n0, Snapshot(fs.nodes, fs.mtime), d)
      invariant good ==> ModulesProgress(fs.nodes, d, c, mods, Stage(done, links[i..]))
      invariant good ==> ModulesTallied(Subtree(fs.nodes, d), c, count, size)
    {
      var link := links[i];
      ghost var t, m, n := fs.nodes, fs.mtime, fs.now;
      ghost var p := Split(link.name);
      ghost var commit := CommitAt(mods, p);
      var count', size';
      ok, count', size' := ExportModule(fs, link, contentDir, d, commit);
      assert links[i..][0] == link && links[i..][1..] == links[i + 1..];
      if good {
        NextModule(t, d, c, mods, done, links[i..]);
        ConfinedTransitive(start.nodes, t, fs.nodes, d);
        RestampedOn(start.mtime, m, fs.mtime, n0, n, d);
        ModuleRound(t, fs.nodes, ok, count', size', d, c, mods, done, links[i..], count, size);
        if !link.content.Unlisted? { done := done[p := commit]; }
      }
      if !ok { return; }
      count, size := count + count', size + size';
    }
    assert links[|links|..] == [];
  }

  // ------------------------------------------------------------ loop bookkeeping

  lemma NoModules(c: Commit)
    ensures IsWhole(Exported(c), c, map[])
    ensures ModulesTallied(Exported(c), c, 0, 0)
  {
    ExportSizes(c);
    var none: map<Path, Commit> := map[];
    assert none.Keys == {};
  }

  lemma ModulesStart(t: Tree, d: Path, c: Commit, mods: Modules, links: seq<Gitlink>)
    requires GitLists(links, mods) && Apart(c, mods) && ExportState(t, d, c)
    ensures ModulesProgress(t, d, c, mods, Stage(map[], links)) && ModulesTallied(Subtree(t, d), c, 0, 0)
  {
    NoModules(c);
    var none: map<Path, Commit> := map[];
    assert mods - none.Keys == mods;
  }

  lemma LinkNext(mods: Modules, done: map<Path, Commit>, todo: seq<Gitlink>, p: Path, m: Commit)
    requires todo != [] && GitLists(todo, mods - done.Keys) && p == Split(todo[0].name)
    requires !todo[0].content.Unlisted?
    ensures p in mods && p !in done
    ensures todo[0].content.Unreachable? <==> mods[p] == None
    ensures todo[0].content.Fetched? ==> Lists(todo[0].content.files, mods[p].value)
    ensures GitLists(todo[1..], mods - done[p := m].Keys)
  {
    assert mods - done.Keys - {p} == mods - done[p := m].Keys;
  }

  /** The next submodule's directory can be made, and nothing is there. */
  lemma ModulePlace(s: Tree, c: Commit, mods: Modules, done: map<Path, Commit>, p: Path)
    requires Apart(c, mods) && PartOf(done, mods) && p in mods && p !in done
    requires [] in s && IsWhole(s, c, done)
    ensures CanMkdir(s, p) && (forall r :: Under(p, r) ==> r !in s)
  {
    var base := LayOut(ExportLeaves(c), done.Keys);
    forall q | q in s && Under(q, p) ensures s[q].Dir? {
      assert Clear(done, q) by {
        forall o | o in done ensures !Under(o, q) {
          if Under(o, q) { UnderTransitive(o, q, p); }
        }
      }
      assert Lookup(s, q) == Lookup(base, q);
    }
    ClearWay(s, p);
    forall r | Under(p, r) ensures r !in s {
      assert Clear(done, r) by {
        forall o | o in done ensures !Under(o, r) {
          if Under(o, r) { PrefixesCompare(o, p, r); }
        }
      }
      assert Lookup(s, r) == Lookup(base, r);
      NotOnWay(c, mods, done, p, r);
    }
  }

  lemma NotOnWay(c: Commit, mods: Modules, done: map<Path, Commit>, p: Path, r: Path)
    requires Apart(c, mods) && PartOf(done, mods) && p in mods && p !in done && Under(p, r)
    ensures r !in Ways(ExportLeaves(c), done.Keys)
  {
    forall q | q in ExportLeaves(c) && Under(r, q) ensures false { UnderTransitive(p, r, q); }
    forall q | q in done.Keys && Under(r, q) ensures false { UnderTransitive(p, r, q); }
  }

  /** Putting a submodule in its place keeps the whole in step. */
  lemma WholeStep(s: Tree, s': Tree, c: Commit, mods: Modules, done: map<Path, Commit>, p: Path, m: Commit)
    requires Apart(c, mods) && PartOf(done, mods) && p in mods && p !in done && mods[p] == Some(m)
    requires IsWhole(s, c, done) && Grafted(s, s', p, Exported(m))
    ensures IsWhole(s', c, done[p := m])
  {
    var after := done[p := m];
    forall o | o in after ensures Subtree(s', o) == Exported(after[o]) {
      if o == p { GraftInside(s, s', p, Exported(m)); } else { GraftBeside(s, s', mods, o, p, Exported(m)); }
    }
    forall r | Clear(after, r) ensures Lookup(s', r) == Lookup(LayOut(ExportLeaves(c), after.Keys), r) {
      ClearStep(s, s', c, done, p, m, r);
    }
  }

  lemma GraftInside(s: Tree, s': Tree, p: Path, inner: Tree)
    requires Grafted(s, s', p, inner)
    ensures Subtree(s', p) == inner
  {
    forall e ensures Lookup(Subtree(s', p), e) == Lookup(inner, e) {
      assert (p + e)[|p|..] == e && Under(p, p + e);
      assert Lookup(s', p + e) == Lookup(inner, e);
    }
    SameTree(Subtree(s', p), inner);
  }

  lemma GraftBeside(s: Tree, s': Tree, mods: Modules, o: Path, p: Path, inner: Tree)
    requires Grafted(s, s', p, inner) && o in mods && p in mods && o != p
    requires forall a, b {:trigger Under(a, b), a in mods} :: a in mods && b in mods && Under(a, b) ==> a == b
    ensures Subtree(s', o) == Subtree(s, o)
  {
    forall e ensures Lookup(Subtree(s', o), e) == Lookup(Subtree(s, o), e) {
      OtherModule(mods, o, p, e);
      assert Lookup(s', o + e) == Lookup(s, o + e);
    }
    SameTree(Subtree(s', o), Subtree(s, o));
  }

  lemma OtherModule(mods: Modules, o: Path, p: Path, e: Path)
    requires o in mods && p in mods && o != p
    requires forall a, b {:trigger Under(a, b), a in mods} :: a in mods && b in mods && Under(a, b) ==> a == b
    ensures !Under(p, o + e) && !Under(o + e, p)
  {
    assert Under(o, o + e);
    if Under(p, o + e) { PrefixesCompare(o, p, o + e); }
    if Under(o + e, p) { UnderTransitive(o, o + e, p); }
  }

  lemma ClearStep(s: Tree, s': Tree, c: Commit, done: map<Path, Commit>, p: Path, m: Commit, r: Path)
    requires IsWhole(s, c, done) && Grafted(s, s', p, Exported(m)) && Clear(done[p := m], r)
    ensures Lookup(s', r) == Lookup(LayOut(ExportLeaves(c), done[p := m].Keys), r)
  {
    var after := done[p := m];
    assert p in after && !Under(p, r);
    assert Clear(done, r) by { forall o | o in done ensures !Under(o, r) { assert o in after; } }
    assert Lookup(s, r) == Lookup(LayOut(ExportLeaves(c), done.Keys), r);
    assert after.Keys == done.Keys + {p};
    LookupWithDir(ExportLeaves(c), done.Keys, p, r);
  }

  lemma LookupWithDir(leaves: map<Path, Node>, dirs: set<Path>, p: Path, r: Path)
    ensures var was := Lookup(LayOut(leaves, dirs), r);
            Lookup(LayOut(leaves, dirs + {p}), r) ==
            if was == None && Under(r, p) then Some(Dir(PUBLIC_DIR)) else was
  {
    WaysClosed(leaves, dirs);
    OneMoreWay(leaves, dirs, p);
  }

  /** One link of the list, whatever it is. */
  lemma ModuleRound(t: Tree, t': Tree, ok: bool, count': nat, size': nat, d: Path, c: Commit, mods: Modules,
                    done: map<Path, Commit>, todo: seq<Gitlink>, count: nat, size: nat)
    requires WellFormed(t) && todo != [] && ModulesProgress(t, d, c, mods, Stage(done, todo))
    requires ModulesTallied(Subtree(t, d), c, count, size)
    requires todo[0].content.Unlisted? || Names(Split(todo[0].name)) ==>
               ModuleExported(t, t', ok, count', size', d, todo[0], CommitAt(mods, Split(todo[0].name)))
    ensures ok ==> ModulesTallied(Subtree(t', d), c, count + count', size + size')
    ensures ok && todo[0].content.Unlisted? ==> ModulesProgress(t', d, c, mods, Stage(done, todo[1..]))
    ensures ok && !todo[0].content.Unlisted? ==>
              ModulesProgress(t', d, c, mods,
                              Stage(done[Split(todo[0].name) := CommitAt(mods, Split(todo[0].name))], todo[1..]))
    ensures !ok ==> !ModulesOk(mods, d)
  {
    var link := todo[0];
    var p := Split(link.name);
    var m := CommitAt(mods, p);
    if link.content.Unlisted? {
      assert GitLists(todo[1..], mods - done.Keys);
    } else {
      LinkNext(mods, done, todo, p, m);
      if ".git" in p || link.content.Unreachable? {
        assert !ok;
      } else {
        ModuleFits(t, d, c, mods, done, p);
        RoundFetched(t, t', ok, count', size', d, c, mods, done, p, m, count, size);
        if ok { DoneOkStep(done, d, p, m); }
      }
    }
  }

  /** The next link is passed over or refused, or its place is free. */
  lemma NextModule(t: Tree, d: Path, c: Commit, mods: Modules, done: map<Path, Commit>, todo: seq<Gitlink>)
    requires WellFormed(t) && todo != [] && ModulesProgress(t, d, c, mods, Stage(done, todo))
    ensures var p := Split(todo[0].name);
            && (todo[0].content.Unlisted? || Names(p))
            && ModulePlaced(t, d, todo[0], CommitAt(mods, p))
  {
    var p := Split(todo[0].name);
    if !todo[0].content.Unlisted? {
      LinkNext(mods, done, todo, p, CommitAt(mods, p));
      ModuleFits(t, d, c, mods, done, p);
    }
  }

  lemma DoneOkStep(done: map<Path, Commit>, d: Path, p: Path, m: Commit)
    requires DoneOk(done, d) && ".git" !in p && LinksStay(m, d + p)
    ensures DoneOk(done[p := m], d)
  {
    var after := done[p := m];
    forall q | q in after ensures ".git" !in q && LinksStay(after[q], d + q) {
      assert q != p ==> q in done && after[q] == done[q];
    }
  }

  lemma RoundFetched(t: Tree, t': Tree, ok: bool, count': nat, size': nat, d: Path, c: Commit, mods: Modules,
                     done: map<Path, Commit>, p: Path, m: Commit, count: nat, size: nat)
    requires Apart(c, mods) && PartOf(done, mods) && p in mods && p !in done && mods[p] == Some(m)
    requires WellFormed(t) && d in t && IsWhole(Subtree(t, d), c, done)
    requires forall r :: Under(p, r) ==> r !in Subtree(t, d)
    requires ModulesTallied(Subtree(t, d), c, count, size)
    requires ok <==> LinksStay(m, d + p)
    requires ok ==> Subtree(t', d + p) == Exported(m) && Tallied(m, count', size')
                    && Confined(WithDirs(t, d + p, PUBLIC_DIR), t', d + p)
    ensures ok ==> PartOf(done[p := m], mods) && d in t' && IsWhole(Subtree(t', d), c, done[p := m])
                   && ModulesTallied(Subtree(t', d), c, count + count', size + size')
    ensures !ok ==> !ModulesOk(mods, d)
  {
    if ok { ModuleFilled(t, t', d, c, mods, done, p, m, count, size, count', size'); }
  }

  lemma ModuleFits(t: Tree, d: Path, c: Commit, mods: Modules, done: map<Path, Commit>, p: Path)
    requires Apart(c, mods) && PartOf(done, mods) && p in mods && p !in done
    requires WellFormed(t) && d in t && IsWhole(Subtree(t, d), c, done)
    ensures CanMkdir(t, d + p) && d + p !in t && forall r :: Under(p, r) ==> r !in Subtree(t, d)
  {
    assert d + [] == d;
    ModulePlace(Subtree(t, d), c, mods, done, p);
    SubtreeCanMkdir(t, d, p);
    assert Under(p, p) && p !in Subtree(t, d);
  }

  lemma ModuleFilled(t: Tree, t': Tree, d: Path, c: Commit, mods: Modules, done: map<Path, Commit>, p: Path,
                     m: Commit, count: nat, size: nat, count': nat, size': nat)
    requires Apart(c, mods) && PartOf(done, mods) && p in mods && p !in done && mods[p] == Some(m)
    requires WellFormed(t) && d in t && IsWhole(Subtree(t, d), c, done)
    requires forall r :: Under(p, r) ==> r !in Subtree(t, d)
    requires Subtree(t', d + p) == Exported(m) && Confined(WithDirs(t, d + p, PUBLIC_DIR), t', d + p)
    requires ModulesTallied(Subtree(t, d), c, count, size) && Tallied(m, count', size')
    ensures d in t' && IsWhole(Subtree(t', d), c, done[p := m])
    ensures ModulesTallied(Subtree(t', d), c, count + count', size + size')
  {
    ModuleGrafted(t, t', d, p, m);
    WholeStep(Subtree(t, d), Subtree(t', d), c, mods, done, p, m);
    CountGraft(Subtree(t, d), Subtree(t', d), p, Exported(m));
    ExportSizes(m);
    assert !Under(d + p, d) by { assert |d + p| > |d|; }
  }

  /** Exporting into a directory made for it is a graft, seen from the content directory. */
  lemma ModuleGrafted(t: Tree, t': Tree, d: Path, p: Path, m: Commit)
    requires WellFormed(t) && d in t && (forall r :: Under(p, r) ==> r !in Subtree(t, d))
    requires Subtree(t', d + p) == Exported(m) && Confined(WithDirs(t, d + p, PUBLIC_DIR), t', d + p)
    ensures Grafted(Subtree(t, d), Subtree(t', d), p, Exported(m))
  {
    var made := WithDirs(t, d + p, PUBLIC_DIR);
    forall q | q in t' && q !in made ensures Under(d + p, q) {
      if Under(q, d + p) { WithDirsPrefixes(t, d + p, PUBLIC_DIR, q); }
    }
    forall r ensures Lookup(Subtree(t', d), r) ==
                     if Under(p, r) then Lookup(Exported(m), r[|p|..])
                     else if r !in Subtree(t, d) && Under(r, p) then Some(Dir(PUBLIC_DIR))
                     else Lookup(Subtree(t, d), r)
    {
      GraftLookup(made, t', d, p, r);
      ShiftedUnder(d, r, p);
      if Under(r, p) { WithDirsPrefixes(t, d + p, PUBLIC_DIR, d + r); }
    }
  }

  lemma ModulesDone(t: Tree, d: Path, c: Commit, mods: Modules, done: map<Path, Commit>)
    requires ModulesProgress(t, d, c, mods, Stage(done, []))
    ensures FetchedOf(mods) == done && ModulesOk(mods, d) && d in t && IsWhole(Subtree(t, d), c, done)
  {
    AllDone(d, mods, done);
  }

  lemma AllDone(d: Path, mods: Modules, done: map<Path, Commit>)
    requires PartOf(done, mods) && GitLists([], mods - done.Keys) && DoneOk(done, d)
    ensures FetchedOf(mods) == done && ModulesOk(mods, d)
  {
    forall p | p in mods ensures p in done {
      assert p !in done ==> p in mods - done.Keys;
    }
  }
}
