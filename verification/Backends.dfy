/** The two materialisation backends, and when they leave the same content. */
module Backends {
  import opened Wrappers
  import opened Text
  import opened LexicalPath
  import opened Links
  import opened SafePaths
  import opened Trees
  import opened FileSystems
  import opened ContentTrees
  import opened Publishing
  import opened Commits
  import opened GoGit
  import opened Submodules

  datatype Limits = Limits(maxFileCount: int, maxRepositorySize: int)

  /** The limit checks at the end of both backends; a limit that is not positive is off. */
  predicate Within(l: Limits, files: nat, size: nat) {
    !(l.maxFileCount > 0 && files > l.maxFileCount)
    && !(l.maxRepositorySize > 0 && size > l.maxRepositorySize)
  }

  datatype Materialized = Materialized(files: nat, size: nat)

  /** The entry directory of a work directory that holds what is published. */
  function ContentOf(w: Path): Path { w + ["content"] }

  function RepoOf(w: Path): Path { w + ["repo"] }

  lemma JoinName(w: Path, n: string)
    requires Names(w) && IsName(n)
    ensures Join(Abs(w), n) == Abs(w + [n]) && Names(w + [n])
  {
    AbsLoc(w);
    Spelled([n]);
    JoinMeaning(Abs(w), n);
    assert From(w, Lex(false, 0, [n])) == w + [n];
  }

  // ------------------------------------------------------------- in-memory backend

  /** The tree of a commit at the requested sub-path; none when no leaf and no submodule entry lies
      below it, for Git records no empty directory. */
  function Selected(c: Commit, gitlinks: set<Path>, path: string): Option<Commit> {
    if path == "" then Some(c)
    else if !AcceptsSubPath(path) then None
    else
      var p := Split(Clean(path));
      var sub := SubCommit(c, p);
      if sub == map[] && !(exists g :: g in gitlinks && Under(p, g) && g != p) then None else Some(sub)
  }

  /** The tree at a sub-path, spelled out: for no sub-path the whole, nothing for a sub-path that is
      refused, and otherwise what lies below its names, if anything does. */
  lemma SelectedTree(c: Commit, gitlinks: set<Path>, p: Path)
    requires Names(p) && p != [] && ".git" !in p
    ensures Selected(c, gitlinks, "") == Some(c)
    ensures forall path :: path != "" && !AcceptsSubPath(path) ==> Selected(c, gitlinks, path) == None
    ensures Selected(c, gitlinks, Slashed(p)).Some? <==>
            (exists r :: r in c && Under(p, r) && r != p) || (exists g :: g in gitlinks && Under(p, g) && g != p)
    ensures Selected(c, gitlinks, Slashed(p)).Some? ==>
              forall r :: Lookup(Selected(c, gitlinks, Slashed(p)).value, r)
                          == if r == [] then None else Lookup(c, p + r)
  {
    Spelled(p);
    SomethingBelow(c, p);
    NamedSubPath(p);
  }

  lemma NamedSubPath(p: Path)
    requires Names(p) && p != [] && ".git" !in p
    ensures AcceptsSubPath(Slashed(p))
  {
    Spelled(p);
    AbsLoc([]);
    ValidatorsAgree(Abs([]), Slashed(p));
    SafeJoinMeaning(Abs([]), Slashed(p));
  }

  /** Iterating over a tree's files, in some order. */
  method ListFiles(c: Commit) returns (files: seq<TreeFile>)
    requires WellFormedCommit(c)
    ensures Lists(files, c)
  {
    files := [];
    var rest := c;
    ghost var done: Commit := map[];
    while rest != map[]
      invariant Lists(files, done)
      invariant done.Keys !! rest.Keys
      invariant done + rest == c
      decreases rest.Keys
    {
      var p :| p in rest;
      var f := TreeFile(Slashed(p), rest[p]);
      assert p in c && c[p] == rest[p];
      SplitSlashed(p);
      ListMore(files, done, f, p);
      MoveOver(c, done, rest, p);
      files, done, rest := [f] + files, done[p := rest[p]], rest - {p};
    }
    assert done == c;
  }

  lemma ListMore(files: seq<TreeFile>, done: Commit, f: TreeFile, p: Path)
    requires Lists(files, done) && p == PathOf(f) && p !in done
    ensures Lists([f] + files, done[p := f.leaf])
  {
    assert ([f] + files)[1..] == files;
    assert done[p := f.leaf] - {p} == done;
  }

  lemma MoveOver(c: Commit, done: Commit, rest: Commit, p: Path)
    requires done.Keys !! rest.Keys && done + rest == c && p in rest
    ensures var done', rest' := done[p := rest[p]], rest - {p};
            done'.Keys !! rest'.Keys && done' + rest' == c && rest'.Keys < rest.Keys
  {
    var done', rest' := done[p := rest[p]], rest - {p};
    assert (done' + rest').Keys == c.Keys;
    assert p !in rest';
  }

  /** What the in-memory backend needs before it checks the limits. */
  ghost predicate GoGitReady(t: Tree, w: Path, selected: Option<Commit>, submodules: bool, mods: Modules) {
    && CanMkdir(t, w)
    && selected.Some?
    && LinksStay(selected.value, ContentOf(w))
    && (submodules ==> ModulesOk(mods, ContentOf(w)))
  }

  /** The content made of a selected tree. */
  ghost predicate IsContent(content: Tree, selected: Commit, submodules: bool, mods: Modules) {
    if submodules then IsWhole(content, selected, FetchedOf(mods)) else content == Exported(selected)
  }

  /** That content. */
  ghost function ContentFor(c: Commit, submodules: bool, mods: Modules): Tree {
    if submodules then Whole(c, FetchedOf(mods)) else Exported(c)
  }

  /** What may be written is determined by the commit and the submodules alone: whatever the work
      directory held before, the content is the same. */
  lemma ContentExact(content: Tree, c: Commit, submodules: bool, mods: Modules)
    requires Apart(c, mods)
    ensures IsContent(content, c, submodules, mods) <==> content == ContentFor(c, submodules, mods)
  {
    if submodules {
      WholeIs(c, FetchedOf(mods));
      if IsContent(content, c, true, mods) { WholeUnique(content, Whole(c, FetchedOf(mods)), c, FetchedOf(mods)); }
    }
  }

  /** What the in-memory backend makes of a commit: each kept leaf in its place, files of mode 0444, or
      0555 when Git records them as executable, links with their text, in directories of mode 0755. */
  lemma ExportedShape(c: Commit, r: Path)
    requires WellFormedCommit(c)
    ensures r in c && ".git" !in r ==>
              match c[r]
              case Blob(bytes, mode) =>
                Lookup(Exported(c), r) == Some(File(bytes, if mode == Executable then 0x16D else 0x124))
              case SymLink(target) => Lookup(Exported(c), r) == Some(Link(target))
    ensures !(r in c && ".git" !in r) ==>
              Lookup(Exported(c), r) == if r == [] || KeptUnder(c, r) then Some(Dir(0x1ED)) else None
  {
    ExportedEntry(c, r);
    assert ReadOnly(ModeBits(Regular)) == 0x124 && ReadOnly(ModeBits(Deprecated)) == 0x124;
    assert ReadOnly(ModeBits(Executable)) == 0x16D;
  }

  /** What it writes. */
  ghost predicate GoGitWrote(t: Tree, w: Path, selected: Commit, submodules: bool, mods: Modules) {
    IsContent(Subtree(t, ContentOf(w)), selected, submodules, mods)
  }

  /** Beside the content directory, the work directory is as it was. */
  ghost predicate Beside(t: Tree, t': Tree, w: Path) {
    forall q :: Under(w, q) && q != w && !Under(ContentOf(w), q) ==> Lookup(t', q) == Lookup(t, q)
  }

  /** The content directory is new since `since`, and so is the stamp of the work directory. */
  ghost predicate FreshContent(m: map<Path, int>, w: Path, since: int) {
    (forall q :: q in m && Under(ContentOf(w), q) ==> since <= m[q]) && w in m && since <= m[w]
  }

  /** The work directory `w` with `content` laid out in it, and nothing else changed. */
  ghost function LaidOut(t: Tree, w: Path, content: Tree): Tree
    requires [] in t
  {
    WithTree(WithDirs(t, w, PRIVATE_DIR), ContentOf(w), content)
  }

  /** The directories it makes on the way to the content are private: mode 0750. */
  lemma PrivateWork(t: Tree, w: Path, content: Tree, q: Path)
    requires WellFormed(t) && Under(q, w)
    ensures Lookup(LaidOut(t, w, content), q) == if q in t then Some(t[q]) else Some(Dir(0x1E8))
  {
    assert !Under(ContentOf(w), q) by { assert |q| <= |w|; }
    WithDirsPrefixes(t, w, PRIVATE_DIR, q);
    assert Lookup(LaidOut(t, w, content), q) == Lookup(WithDirs(t, w, PRIVATE_DIR), q);
  }

  lemma IsLaidOut(t: Tree, made: Tree, t': Tree, w: Path, content: Tree)
    requires WellFormed(t) && WellFormed(made) && made == WithDirs(t, w, PRIVATE_DIR)
    requires Confined(made, t', ContentOf(w)) && Subtree(t', ContentOf(w)) == content
    ensures t' == LaidOut(t, w, content)
  {
    var laid := LaidOut(t, w, content);
    forall q ensures Lookup(t', q) == Lookup(laid, q) {
      LaidEntry(made, t', w, content, q);
      assert Lookup(laid, q) ==
             if Under(ContentOf(w), q) then Lookup(content, q[|ContentOf(w)|..]) else Lookup(made, q);
    }
    SameTree(t', laid);
  }

  lemma LaidEntry(made: Tree, t': Tree, w: Path, content: Tree, q: Path)
    requires WellFormed(made) && w in made
    requires Confined(made, t', ContentOf(w)) && Subtree(t', ContentOf(w)) == content
    ensures Lookup(t', q) == if Under(ContentOf(w), q) then Lookup(content, q[|ContentOf(w)|..]) else Lookup(made, q)
  {
    if Under(ContentOf(w), q) {
      assert ContentOf(w) + q[|ContentOf(w)|..] == q;
      assert q[|ContentOf(w)|..] in content <==> q in t';
    } else if Under(q, ContentOf(w)) {
      UnderParent(q, ContentOf(w));
      assert Parent(ContentOf(w)) == w && Under(q, w);
    }
  }

  /** Emptying the content directory of an existing work directory. */
  method ResetContent(fs: FileSystem, contentDir: string, ghost w: Path)
    requires fs.Valid() && Names(w) && contentDir == Abs(ContentOf(w)) && IsDir(fs.nodes, w)
    modifies fs
    ensures fs.Valid() && old(fs.now) <= fs.now
    ensures Confined(old(fs.nodes), fs.nodes, ContentOf(w))
    ensures Restamped(old(fs.mtime), fs.mtime, old(fs.now), ContentOf(w))
    ensures ExportState(fs.nodes, ContentOf(w), map[])
    ensures FreshContent(fs.mtime, w, old(fs.now))
  {
    ghost var t0, m0, n0, content := fs.nodes, fs.mtime, fs.now, ContentOf(w);
    assert Parent(content) == w && Under(w, content) && !Under(content, w);
    AbsLoc(content);
    NoneAbove(t0, content);
    fs.RemoveAll(Loc(contentDir));
    ghost var t1, m1, n1 := fs.nodes, fs.mtime, fs.now;
    MadePlain(t1, content);
    var made := fs.MkdirAll(Loc(contentDir), PUBLIC_DIR);
    assert made;
    FreshDirectory(t1, content);
    StampedAll(m1, fs.mtime, n1, content);
    RestampedOn(m0, m1, fs.mtime, n0, n1, content);
  }

  lemma StampedAll(before: map<Path, int>, after: map<Path, int>, since: int, p: Path)
    requires Stamped(before, after, since, p)
    requires forall q :: q in before ==> !Under(p, q)
    ensures Restamped(before, after, since, p)
    ensures forall q :: q in after && Under(p, q) ==> since <= after[q]
  {}

  /** What is new stays new under later changes near it. */
  lemma StaysFresh(before: map<Path, int>, after: map<Path, int>, since: int, since': int, w: Path)
    requires Restamped(before, after, since', ContentOf(w)) && since <= since'
    requires forall q :: q in before && Under(ContentOf(w), q) ==> since <= before[q]
    requires w in before && since <= before[w]
    ensures forall q :: q in after && Under(ContentOf(w), q) ==> since <= after[q]
    ensures w in after ==> since <= after[w]
  {}

  /** Writing a selected tree, with its submodules when asked for. */
  method WriteSelected(fs: FileSystem, c: Commit, submodules: bool, links: seq<Gitlink>, contentDir: string,
                       ghost w: Path, ghost mods: Modules)
    returns (ok: bool, count: nat, size: nat)
    requires fs.Valid() && Names(w) && contentDir == Abs(ContentOf(w))
    requires ExportState(fs.nodes, ContentOf(w), map[])
    requires GitLists(links, mods) && Apart(c, mods)
    modifies fs
    ensures fs.Valid() && old(fs.now) <= fs.now
    ensures Confined(old(fs.nodes), fs.nodes, ContentOf(w))
    ensures Restamped(old(fs.mtime), fs.mtime, old(fs.now), ContentOf(w))
    ensures ok <==> LinksStay(c, ContentOf(w)) && (submodules ==> ModulesOk(mods, ContentOf(w)))
    ensures ok ==> ContentOf(w) in fs.nodes && GoGitWrote(fs.nodes, w, c, submodules, mods)
    ensures ok ==> Counted(Subtree(fs.nodes, ContentOf(w)), count, size)
  {
    var files := ListFiles(c);
    ok, count, size := ExportTree(fs, files, contentDir, ContentOf(w), c);
    if ok { CountedAlone(Subtree(fs.nodes, ContentOf(w)), c, count, size); }
    if ok && submodules {
      ghost var t1, m1, n1 := fs.nodes, fs.mtime, fs.now;
      ok, count, size := AddSubmodules(fs, c, links, contentDir, count, size, w, mods);
      ConfinedTransitive(old(fs.nodes), t1, fs.nodes, ContentOf(w));
      RestampedOn(old(fs.mtime), m1, fs.mtime, old(fs.now), n1, ContentOf(w));
    }
  }

  method AddSubmodules(fs: FileSystem, c: Commit, links: seq<Gitlink>, contentDir: string, files: nat, bytes: nat,
                       ghost w: Path, ghost mods: Modules)
    returns (ok: bool, count: nat, size: nat)
    requires fs.Valid() && Names(w) && contentDir == Abs(ContentOf(w))
    requires ExportState(fs.nodes, ContentOf(w), c) && Tallied(c, files, bytes)
    requires GitLists(links, mods) && Apart(c, mods)
    modifies fs
    ensures fs.Valid() && old(fs.now) <= fs.now
    ensures Confined(old(fs.nodes), fs.nodes, ContentOf(w))
    ensures Restamped(old(fs.mtime), fs.mtime, old(fs.now), ContentOf(w))
    ensures ok <==> ModulesOk(mods, ContentOf(w))
    ensures ok ==> ContentOf(w) in fs.nodes && GoGitWrote(fs.nodes, w, c, true, mods)
    ensures ok ==> Counted(Subtree(fs.nodes, ContentOf(w)), count, size)
  {
    ok, count, size := ExportSubmodules(fs, links, contentDir, ContentOf(w), c, mods);
    if ok { CountedWith(Subtree(fs.nodes, ContentOf(w)), c, files, bytes, count, size); }
    count, size := files + count, bytes + size;
  }

  /** The counters are the number and bytes of the regular files of `t`. */
  ghost predicate Counted(t: Tree, count: nat, size: nat) {
    count == |FileSizes(t)| && size == Sum(FileSizes(t))
  }

  lemma CountedAlone(t: Tree, c: Commit, count: nat, size: nat)
    requires t == Exported(c) && Tallied(c, count, size)
    ensures Counted(t, count, size)
  {
    ExportSizes(c);
  }

  lemma CountedWith(t: Tree, c: Commit, count: nat, size: nat, more: nat, bytes: nat)
    requires Tallied(c, count, size) && ModulesTallied(t, c, more, bytes)
    ensures Counted(t, count + more, size + bytes)
  {}

  /** The regular files of a tree are within the limits, and their number and bytes. */
  ghost predicate FilesWithin(l: Limits, t: Tree) { Within(l, |FileSizes(t)|, Sum(FileSizes(t))) }

  ghost function FilesOf(t: Tree): Materialized { Materialized(|FileSizes(t)|, Sum(FileSizes(t))) }

  /** The same for everything that is not a directory. */
  ghost predicate EntriesWithin(l: Limits, t: Tree) { Within(l, |EntrySizes(t)|, Sum(EntrySizes(t))) }

  ghost function EntriesOf(t: Tree): Materialized { Materialized(|EntrySizes(t)|, Sum(EntrySizes(t))) }

  /** When a tree is let through: a limit that is not positive is off, and one that is positive may be
      reached and not exceeded, by the number of its files and by their bytes. */
  lemma LimitsMeaning(l: Limits, t: Tree)
    ensures FilesWithin(l, t) <==>
            && (l.maxFileCount <= 0 || |FileSizes(t)| <= l.maxFileCount)
            && (l.maxRepositorySize <= 0 || Sum(FileSizes(t)) <= l.maxRepositorySize)
    ensures EntriesWithin(l, t) <==>
            && (l.maxFileCount <= 0 || |EntrySizes(t)| <= l.maxFileCount)
            && (l.maxRepositorySize <= 0 || Sum(EntrySizes(t)) <= l.maxRepositorySize)
  {}

  /** Whether the selected tree and the submodules can be written below `w`. */
  ghost predicate CanWrite(c: Commit, w: Path, submodules: bool, mods: Modules) {
    LinksStay(c, ContentOf(w)) && (submodules ==> ModulesOk(mods, ContentOf(w)))
  }

  /** The work of the in-memory backend inside an existing work directory: empty the content
      directory, write the selected tree, check the limits. */
  method FillWork(fs: FileSystem, workDir: string, c: Commit, submodules: bool, links: seq<Gitlink>, limits: Limits,
                  ghost w: Path, ghost mods: Modules)
    returns (r: Result<Materialized>)
    requires fs.Valid() && Names(w) && workDir == Abs(w) && IsDir(fs.nodes, w)
    requires GitLists(links, mods) && Apart(c, mods)
    modifies fs
    ensures fs.Valid() && old(fs.now) <= fs.now
    ensures Confined(old(fs.nodes), fs.nodes, ContentOf(w))
    ensures Restamped(old(fs.mtime), fs.mtime, old(fs.now), ContentOf(w))
    ensures r.Ok? <==> CanWrite(c, w, submodules, mods) && FilesWithin(limits, ContentFor(c, submodules, mods))
    ensures r.Ok? ==> r.value == FilesOf(ContentFor(c, submodules, mods))
    ensures CanWrite(c, w, submodules, mods) ==>
              && Subtree(fs.nodes, ContentOf(w)) == ContentFor(c, submodules, mods)
              && FreshContent(fs.mtime, w, old(fs.now))
  {
    ghost var t1, m1, n1 := fs.nodes, fs.mtime, fs.now;
    var contentDir := Join(workDir, "content");
    JoinName(w, "content");
    ResetContent(fs, contentDir, w);
    ghost var t2, m2, n2 := fs.nodes, fs.mtime, fs.now;
    var ok, count, size := WriteSelected(fs, c, submodules, links, contentDir, w, mods);
    ConfinedTransitive(t1, t2, fs.nodes, ContentOf(w));
    RestampedOn(m1, m2, fs.mtime, n1, n2, ContentOf(w));
    StaysFresh(m2, fs.mtime, n1, n2, w);
    if !ok { return Err; }
    ContentExact(Subtree(fs.nodes, ContentOf(w)), c, submodules, mods);
    if limits.maxFileCount > 0 && count > limits.maxFileCount { return Err; }
    if limits.maxRepositorySize > 0 && size > limits.maxRepositorySize { return Err; }
    r := Ok(Materialized(count, size));
  }

  /** `Materialize` of the in-memory backend, from the commit the clone resolved to. Whatever the
      work directory held, the content directory ends up determined by the commit, the sub-path
      and the submodules; the counters are the regular files on disk; everything in the content
      directory is new, and nothing beside it changes. */
  method MaterializeGoGit(fs: FileSystem, workDir: string, path: string, fetched: Option<Commit>, gitlinks: set<Path>,
                          submodules: bool, links: seq<Gitlink>, limits: Limits, ghost w: Path, ghost mods: Modules)
    returns (r: Result<Materialized>)
    requires fs.Valid() && Names(w) && workDir == Abs(w) && NoLinkAt(fs.nodes, w)
    requires fetched.Some? ==> WellFormedCommit(fetched.value)
    requires GitLists(links, mods)
    requires var s := Chosen(fetched, gitlinks, path); s.Some? ==> Apart(s.value, mods)
    modifies fs
    ensures fs.Valid() && old(fs.now) <= fs.now
    ensures Confined(old(fs.nodes), fs.nodes, w) && Beside(old(fs.nodes), fs.nodes, w) && NoLinkAt(fs.nodes, w)
    ensures Restamped(old(fs.mtime), fs.mtime, old(fs.now), ContentOf(w))
    ensures var s := Chosen(fetched, gitlinks, path);
            && (r.Ok? <==> GoGitSucceeds(old(fs.nodes), w, s, submodules, mods, limits))
            && (r.Ok? ==> r.value == FilesOf(ContentFor(s.value, submodules, mods)))
            && (GoGitReady(old(fs.nodes), w, s, submodules, mods) ==>
                  fs.nodes == LaidOut(old(fs.nodes), w, ContentFor(s.value, submodules, mods))
                  && FreshContent(fs.mtime, w, old(fs.now)))
  {
    ghost var t0, m0, n0 := fs.nodes, fs.mtime, fs.now;
    AbsLoc(w);
    MadeOrNot(t0, w);
    var made := fs.MkdirAll(Loc(workDir), PRIVATE_DIR);
    ghost var t1, m1, n1 := fs.nodes, fs.mtime, fs.now;
    WorkMade(t0, t1, w, made);
    if made { StampedWork(m0, m1, n0, w); }
    var selected := Chosen(fetched, gitlinks, path);
    if !made || selected.None? { return Err; }
    r := FillWork(fs, workDir, selected.value, submodules, links, limits, w, mods);
    if CanWrite(selected.value, w, submodules, mods) {
      IsLaidOut(t0, t1, fs.nodes, w, ContentFor(selected.value, submodules, mods));
    }
    WithinWork(t0, t1, fs.nodes, w);
    NoLinkStays(t1, fs.nodes, w);
    RestampedOn(m0, m1, fs.mtime, n0, n1, ContentOf(w));
  }

  /** Every link outside each `.git` stays inside. */
  lemma LinksMeaning(c: Commit, w: Path)
    ensures LinksStay(c, ContentOf(w)) <==>
            forall r :: r in c && c[r].SymLink? && ".git" !in r ==>
              r != [] && LinkStays(w + ["content"], Parent(r), c[r].target)
  {}

  /** Every listed submodule is outside each `.git`, fetched, and keeps its links inside its directory. */
  lemma ModulesMeaning(mods: Modules, w: Path)
    ensures ModulesOk(mods, ContentOf(w)) <==>
            forall p :: p in mods ==>
              && ".git" !in p && mods[p].Some?
              && forall r :: r in mods[p].value && mods[p].value[r].SymLink? && ".git" !in r ==>
                   r != [] && LinkStays(w + ["content"] + p, Parent(r), mods[p].value[r].target)
  {
    if ModulesOk(mods, ContentOf(w)) {
      forall p | p in mods
        ensures forall r :: r in mods[p].value && mods[p].value[r].SymLink? && ".git" !in r ==>
                  r != [] && LinkStays(w + ["content"] + p, Parent(r), mods[p].value[r].target)
      {
        assert LinksStay(mods[p].value, ContentOf(w) + p);
      }
    }
  }

  /** When it succeeds, spelled out: the work directory can be made, the sub-path is a tree, links and
      submodules allow it, and no limit is exceeded. */
  lemma GoGitSucceedsMeaning(t: Tree, w: Path, s: Option<Commit>, submodules: bool, mods: Modules, limits: Limits)
    ensures GoGitSucceeds(t, w, s, submodules, mods, limits) <==>
            && CanMkdir(t, w) && s.Some?
            && LinksStay(s.value, w + ["content"]) && (submodules ==> ModulesOk(mods, w + ["content"]))
            && var sizes := FileSizes(ContentFor(s.value, submodules, mods));
               && (limits.maxFileCount <= 0 || |sizes| <= limits.maxFileCount)
               && (limits.maxRepositorySize <= 0 || Sum(sizes) <= limits.maxRepositorySize)
  {
    if s.Some? { LimitsMeaning(limits, ContentFor(s.value, submodules, mods)); }
  }

  /** When it succeeds. */
  ghost predicate GoGitSucceeds(t: Tree, w: Path, s: Option<Commit>, submodules: bool, mods: Modules, limits: Limits) {
    GoGitReady(t, w, s, submodules, mods) && FilesWithin(limits, ContentFor(s.value, submodules, mods))
  }

  /** The tree to write, once the clone has produced a commit. */
  function Chosen(fetched: Option<Commit>, gitlinks: set<Path>, path: string): Option<Commit> {
    if fetched.Some? then Selected(fetched.value, gitlinks, path) else None
  }

  lemma WorkMade(t: Tree, t': Tree, w: Path, made: bool)
    requires WellFormed(t) && Names(w) && (made <==> CanMkdir(t, w))
    requires t' == if made then WithDirs(t, w, PRIVATE_DIR) else t
    ensures made ==> IsDir(t', w) && WellFormed(t')
    ensures Confined(t, t', w) && Beside(t, t', w)
    ensures forall q :: Under(w, q) && q != w ==> Lookup(t', q) == Lookup(t, q)
    ensures NoLinkAt(t, w) ==> NoLinkAt(t', w)
  {
    if made { WithDirsWellFormed(t, w, PRIVATE_DIR); }
    forall q | Under(w, q) && q != w ensures Lookup(t', q) == Lookup(t, q) {}
  }

  lemma WithinWork(t0: Tree, t1: Tree, t2: Tree, w: Path)
    requires Confined(t0, t1, w) && Confined(t1, t2, ContentOf(w))
    requires forall q :: Under(w, q) && q != w ==> Lookup(t1, q) == Lookup(t0, q)
    ensures Confined(t0, t2, w) && Beside(t0, t2, w)
  {
    ConfinedWider(t1, t2, w, ContentOf(w));
    ConfinedTransitive(t0, t1, t2, w);
    forall q | Under(w, q) && q != w && !Under(ContentOf(w), q) ensures Lookup(t2, q) == Lookup(t0, q) {
      assert Lookup(t1, q) == Lookup(t0, q);
      assert Under(q, ContentOf(w)) ==> q == ContentOf(w);
    }
  }

  lemma StampedWork(m: map<Path, int>, m': map<Path, int>, since: int, w: Path)
    requires Stamped(m, m', since, w)
    ensures Restamped(m, m', since, ContentOf(w))
  {
    forall q | Under(q, w) ensures Under(q, ContentOf(w)) { UnderTransitive(q, w, ContentOf(w)); }
  }

  /** Changes in the content directory put no link above it. */
  lemma NoLinkStays(t: Tree, t': Tree, w: Path)
    requires NoLinkAt(t, w) && Confined(t, t', ContentOf(w))
    ensures NoLinkAt(t', w)
  {
    forall q | q in t' && Under(q, w) ensures !t'[q].Link? { assert |q| <= |w|; }
  }

  // ---------------------------------------------------------- git binary backend

  /** The directory the git binary backend copies from; none for a refused sub-path. */
  function SourceOf(w: Path, path: string): Option<Path> {
    if path == "" then Some(RepoOf(w))
    else
      var joined := SafeJoin(Abs(RepoOf(w)), path);
      if joined.Ok? then Some(Loc(joined.value)) else None
  }

  lemma SourceInRepo(w: Path, path: string)
    requires Names(w) && SourceOf(w, path).Some?
    ensures SourceOf(w, path).value == RepoOf(w) + SubPath(path)
    ensures path != "" ==> SafeJoin(Abs(RepoOf(w)), path).value == Abs(SourceOf(w, path).value)
    ensures Names(SourceOf(w, path).value)
    ensures !Under(SourceOf(w, path).value, ContentOf(w)) && !Under(ContentOf(w), SourceOf(w, path).value)
  {
    var repo, src := RepoOf(w), SourceOf(w, path).value;
    AbsLoc(repo);
    if path != "" {
      SafeJoinMeaning(Abs(repo), path);
      AbsLoc(repo + Loc(path));
    } else {
      assert repo + [] == repo;
    }
    assert src[|w|] == "repo" && ContentOf(w)[|w|] == "content";
  }

  /** What the git binary backend needs at the path it copies from: it leads, through whatever links,
      to a directory that is no link itself, and the links of that directory stay inside. */
  ghost predicate GitReady(t: Tree, src: Path) {
    var at := OwnPlace(t, src);
    at.Some? && IsDir(t, at.value) && LinksAccepted(Subtree(t, at.value), src)
  }

  /** What it then copies. */
  ghost function GitCopied(t: Tree, src: Path): Tree
    requires GitReady(t, src)
  {
    Prune(Subtree(t, OwnPlace(t, src).value))
  }

  /** When it succeeds. */
  ghost predicate GitSucceeds(t: Tree, src: Path, limits: Limits) {
    GitReady(t, src) && EntriesWithin(limits, GitCopied(t, src))
  }

  /** With no link on the way, the copied directory is the one at the path. */
  lemma PlainSource(t: Tree, src: Path)
    requires WellFormed(t) && Names(src) && src != [] && !PassesLink(t, src)
    ensures GitReady(t, src) <==> IsDir(t, src) && LinksAccepted(Subtree(t, src), src)
    ensures GitReady(t, src) ==> OwnPlace(t, src) == Some(src)
  {
    OwnPlacePlain(t, src);
    if src in t { assert Under(Parent(src), src); }
  }

  /** The tree without the content directory of `w`, which is removed before anything is copied. */
  function Cleared(t: Tree, w: Path): Tree { Without(t, ContentOf(w)) }

  /** What is to be copied holds the content directory itself. */
  predicate Swallowed(t: Tree, w: Path, src: Path) {
    var own := OwnPlace(Cleared(t, w), src); own.Some? && Swallows(own.value, ContentOf(w))
  }

  /** What the git binary backend makes from the path `src`: the content directory ends up as the pruned
      tree that the path leads to, all of it new; the counters are its files and links, and nothing
      but the content directory changes: the repository keeps its entries and their times. */
  ghost predicate GitMade(start: Snapshot, since: int, after: Snapshot, w: Path, src: Path, limits: Limits,
                          r: Result<Materialized>)
    requires [] in start.nodes
  {
    match after
    case Snapshot(t, m) =>
      var t1 := Cleared(start.nodes, w);
      && Confined(start.nodes, t, ContentOf(w)) && Restamped(start.mtime, m, since, ContentOf(w))
      && (r.Ok? <==> GitSucceeds(t1, src, limits) && !Swallowed(start.nodes, w, src))
      && (r.Ok? ==> r.value == EntriesOf(GitCopied(t1, src)))
      && (GitReady(t1, src) && !Swallowed(start.nodes, w, src) ==>
            t == LaidOut(start.nodes, w, GitCopied(t1, src)) && FreshContent(m, w, since))
  }

  /** `Materialize` of the git binary backend, from the checked-out repository on. A sub-path through
      links is copied from where it leads. */
  method MaterializeGitBinary(fs: FileSystem, workDir: string, path: string, limits: Limits, ghost w: Path)
    returns (r: Result<Materialized>)
    requires fs.Valid() && Names(w) && workDir == Abs(w) && IsDir(fs.nodes, w)
    modifies fs
    ensures fs.Valid() && old(fs.now) <= fs.now
    ensures Grows(Cleared(old(fs.nodes), w), fs.nodes)
    ensures SourceOf(w, path).None? ==> r.Err? && fs.nodes == old(fs.nodes) && fs.mtime == old(fs.mtime)
    ensures SourceOf(w, path).Some? ==>
              GitMade(Snapshot(old(fs.nodes), old(fs.mtime)), old(fs.now), Snapshot(fs.nodes, fs.mtime), w,
                      SourceOf(w, path).value, limits, r)
  {
    var repoDir, contentDir := Join(workDir, "repo"), Join(workDir, "content");
    JoinName(w, "repo");
    JoinName(w, "content");
    var sourcePath := repoDir;
    if path != "" {
      var joined := SafeJoin(repoDir, path);
      if joined.Err? { return Err; }
      sourcePath := joined.value;
    }
    SourceInRepo(w, path);
    ghost var src := SourceOf(w, path).value;
    AbsLoc(RepoOf(w));
    AbsLoc(src);
    InsideMeaning(repoDir, sourcePath);
    assert Under(RepoOf(w), src);
    ReadyBefore(fs.nodes, w, src);
    if EnsureInside(repoDir, sourcePath).Fail? { return Err; }
    var own := OwnPlace(fs.nodes, Loc(sourcePath));
    if own.None? || own.value !in fs.nodes { return Err; }
    if fs.nodes[own.value].Link? { return Err; }
    if !fs.nodes[own.value].Dir? { return Err; }
    r := CopyAndCount(fs, sourcePath, contentDir, limits, w, src);
  }

  /** What is found once the content directory is gone was found before. */
  lemma ReadyBefore(t: Tree, w: Path, src: Path)
    requires WellFormed(t)
    ensures GitReady(Cleared(t, w), src) ==> OwnPlace(t, src).Some? && IsDir(t, OwnPlace(t, src).value)
  {
    if GitReady(Cleared(t, w), src) && src != [] { FollowGrows(Cleared(t, w), t, [], Parent(src), MAX_HOPS); }
  }

  method CopyAndCount(fs: FileSystem, sourcePath: string, contentDir: string, limits: Limits, ghost w: Path,
                      ghost src: Path)
    returns (r: Result<Materialized>)
    requires fs.Valid() && Names(w) && Names(src) && sourcePath == Abs(src) && contentDir == Abs(ContentOf(w))
    requires IsDir(fs.nodes, w)
    modifies fs
    ensures fs.Valid() && old(fs.now) <= fs.now
    ensures Grows(Cleared(old(fs.nodes), w), fs.nodes)
    ensures OwnPlace(old(fs.nodes), src).Some? && IsDir(old(fs.nodes), OwnPlace(old(fs.nodes), src).value) ==>
              GitMade(Snapshot(old(fs.nodes), old(fs.mtime)), old(fs.now), Snapshot(fs.nodes, fs.mtime), w, src,
                      limits, r)
  {
    var ok := CopySource(fs, sourcePath, contentDir, w, src);
    AbsLoc(ContentOf(w));
    if !ok || Loc(contentDir) !in fs.nodes { return Err; }
    var files, size := CountFiles(fs, Loc(contentDir));
    if limits.maxFileCount > 0 && files > limits.maxFileCount { return Err; }
    if limits.maxRepositorySize > 0 && size > limits.maxRepositorySize { return Err; }
    r := Ok(Materialized(files, size));
  }

  /** The copied tree stands as the content. */
  ghost predicate SourceCopied(start: Snapshot, since: int, after: Snapshot, w: Path, src: Path, ok: bool)
    requires [] in start.nodes
  {
    match after
    case Snapshot(t, m) =>
      var t1, content := Cleared(start.nodes, w), ContentOf(w);
      && Confined(start.nodes, t, content) && Restamped(start.mtime, m, since, content)
      && (ok <==> GitReady(t1, src) && !Swallowed(start.nodes, w, src))
      && (ok ==> t == LaidOut(start.nodes, w, GitCopied(t1, src)) && FreshContent(m, w, since)
                 && content in t && Subtree(t, content) == GitCopied(t1, src))
  }

  /** Emptying the content directory and copying into it. */
  method CopySource(fs: FileSystem, sourcePath: string, contentDir: string, ghost w: Path, ghost src: Path)
    returns (ok: bool)
    requires fs.Valid() && Names(w) && Names(src) && sourcePath == Abs(src) && contentDir == Abs(ContentOf(w))
    requires IsDir(fs.nodes, w)
    modifies fs
    ensures fs.Valid() && old(fs.now) <= fs.now
    ensures Grows(Cleared(old(fs.nodes), w), fs.nodes)
    ensures OwnPlace(old(fs.nodes), src).Some? && IsDir(old(fs.nodes), OwnPlace(old(fs.nodes), src).value) ==>
              SourceCopied(Snapshot(old(fs.nodes), old(fs.mtime)), old(fs.now), Snapshot(fs.nodes, fs.mtime), w, src,
                           ok)
  {
    ghost var t0, m0, n0, content := fs.nodes, fs.mtime, fs.now, ContentOf(w);
    assert Parent(content) == w;
    AbsLoc(content);
    AbsLoc(src);
    NoneAbove(t0, content);
    fs.RemoveAll(Loc(contentDir));
    ghost var t1, m1, n1 := fs.nodes, fs.mtime, fs.now;
    ok := CopyContentTree(fs, sourcePath, contentDir);
    if OwnPlace(t0, src).Some? && IsDir(t0, OwnPlace(t0, src).value) {
      GitCopyMeaning(Snapshot(t0, m0), n0, Snapshot(t1, m1), n1, Snapshot(fs.nodes, fs.mtime), ok, w, src);
    }
  }

  lemma GitCopyMeaning(start: Snapshot, since: int, mid: Snapshot, later: int, after: Snapshot, ok: bool, w: Path,
                       src: Path)
    requires WellFormed(start.nodes) && Names(w) && IsDir(start.nodes, w)
    requires WellFormed(mid.nodes) && mid.nodes == Cleared(start.nodes, w) && mid.mtime.Keys == mid.nodes.Keys
    requires Restamped(start.mtime, mid.mtime, since, ContentOf(w)) && since <= later
    requires OwnPlace(start.nodes, src).Some? && IsDir(start.nodes, OwnPlace(start.nodes, src).value)
    requires var own := OwnPlace(mid.nodes, src);
             if own.Some? && own.value in mid.nodes then Copied(mid, later, after, ok, src, own.value, ContentOf(w))
             else !ok && after == mid
    ensures SourceCopied(start, since, after, w, src, ok)
  {
    var content, own := ContentOf(w), OwnPlace(mid.nodes, src);
    ClearedContent(start.nodes, w);
    if own.Some? && own.value in mid.nodes {
      if src != [] { FollowGrows(mid.nodes, start.nodes, [], Parent(src), MAX_HOPS); }
      assert Parent(content) == w;
      ConfinedTransitive(start.nodes, mid.nodes, after.nodes, content);
      RestampedOn(start.mtime, mid.mtime, after.mtime, since, later, content);
      if ok { GitCopyLaid(start, since, mid, later, after, w, src); }
    }
  }

  lemma GitCopyLaid(start: Snapshot, since: int, mid: Snapshot, later: int, after: Snapshot, w: Path, src: Path)
    requires WellFormed(start.nodes) && IsDir(start.nodes, w) && since <= later
    requires mid.nodes == Cleared(start.nodes, w) && mid.mtime.Keys == mid.nodes.Keys && GitReady(mid.nodes, src)
    requires Confined(start.nodes, after.nodes, ContentOf(w)) && Restamped(mid.mtime, after.mtime, later, ContentOf(w))
    requires Subtree(after.nodes, ContentOf(w)) == GitCopied(mid.nodes, src)
             && NewParent(after.mtime, later, ContentOf(w))
    ensures after.nodes == LaidOut(start.nodes, w, GitCopied(mid.nodes, src))
    ensures FreshContent(after.mtime, w, since) && ContentOf(w) in after.nodes
  {
    var content := ContentOf(w);
    IsLaidOut(start.nodes, start.nodes, after.nodes, w, GitCopied(mid.nodes, src));
    assert Parent(content) == w && content + [] == content;
    assert [] in Subtree(after.nodes, content);
  }

  lemma ClearedContent(t: Tree, w: Path)
    requires WellFormed(t) && IsDir(t, w)
    ensures FreshPlace(Cleared(t, w), ContentOf(w)) && CanMkdir(Cleared(t, w), ContentOf(w))
    ensures WellFormed(Cleared(t, w)) && Confined(t, Cleared(t, w), ContentOf(w))
  {
    var content := ContentOf(w);
    assert Parent(content) == w && !Under(content, w);
    WithoutWellFormed(t, content);
    NoneAbove(Cleared(t, w), content);
  }

  // ------------------------------------------------------------------- the source

  /** Whether the copied directory is in the repository is settled by the directory its path is looked
      up in, for the test before it is lexical. */
  lemma SourceInside(t: Tree, w: Path, p: Path)
    requires p != [] && OwnPlace(t, RepoOf(w) + p).Some?
    ensures var own, up := OwnPlace(t, RepoOf(w) + p).value, LeadsTo(t, Parent(RepoOf(w) + p)).value;
            Under(RepoOf(w), own) <==> Under(RepoOf(w), up) || own == RepoOf(w)
  {
    var repo := RepoOf(w);
    var own, up := OwnPlace(t, repo + p).value, LeadsTo(t, Parent(repo + p)).value;
    assert own == up + [p[|p| - 1]];
    if Under(repo, own) && own != repo { UnderParent(repo, own); }
  }

  /** In a repository of tame links it is. */
  lemma TameSource(t: Tree, w: Path, p: Path)
    requires WellFormed(t) && IsDir(t, RepoOf(w)) && Tame(t, RepoOf(w)) && Names(p)
    ensures var own := OwnPlace(t, RepoOf(w) + p); own.Some? ==> Under(RepoOf(w), own.value)
  {
    var repo := RepoOf(w);
    if p == [] {
      assert repo + [] == repo && Under(Parent(repo), repo);
      NoneAbove(t, repo);
      SourceOwnPlace(t, repo);
    } else if OwnPlace(t, repo + p).Some? {
      SourceInside(t, w, p);
      assert Parent(repo + p) == repo + Parent(p);
      PlaceBelow(t, repo, Parent(p));
      forall i | 0 <= i < |Parent(p)| ensures Parent(p)[i] != ".." { assert IsName(p[i]); }
      StraightNames(t, repo, Parent(p));
      Contained(t, repo, repo, Parent(p), MAX_HOPS);
    }
  }

  /** With other links it need not be: a link to the directory above makes the backend copy what stands
      beside the repository, at a sub-path that every test accepts. */
  lemma SourceEscapes(t: Tree, w: Path, l: string, x: string)
    requires WellFormed(t) && Names(w) && IsName(l) && IsName(x) && l != ".git" && x != ".git" && x != "content"
    requires RepoOf(w) + [l] in t && t[RepoOf(w) + [l]] == Link("..")
    requires IsDir(t, w) && IsDir(t, w + [x]) && LinksAccepted(Subtree(t, w + [x]), RepoOf(w) + [l, x])
    ensures NormalizeRepoPath(Slashed([l, x])) == Ok(Slashed([l, x])) || '\\' in Slashed([l, x])
    ensures SourceOf(w, Slashed([l, x])) == Some(RepoOf(w) + [l, x])
    ensures var t1 := Cleared(t, w);
            && !Swallowed(t, w, RepoOf(w) + [l, x]) && GitReady(t1, RepoOf(w) + [l, x])
            && GitCopied(t1, RepoOf(w) + [l, x]) == Prune(Subtree(t, w + [x]))
    ensures x != "repo" ==> !Under(RepoOf(w), w + [x])
  {
    assert Names([l, x]) && ".git" !in [l, x];
    SubPathOf(w, [l, x]);
    EscapeLeads(t, w, l, x);
    EscapeReady(t, w, x, RepoOf(w) + [l, x]);
    if x != "repo" { assert RepoOf(w)[|w|] == "repo" && (w + [x])[|w|] == x; }
  }

  lemma EscapeReady(t: Tree, w: Path, x: string, src: Path)
    requires IsDir(t, w + [x]) && x != "content" && LinksAccepted(Subtree(t, w + [x]), src)
    requires OwnPlace(Cleared(t, w), src) == Some(w + [x])
    ensures !Swallowed(t, w, src) && GitReady(Cleared(t, w), src)
    ensures GitCopied(Cleared(t, w), src) == Prune(Subtree(t, w + [x]))
  {
    assert (w + [x])[|w|] == x && ContentOf(w)[|w|] == "content";
    ClearedBeside(t, w, w + [x]);
  }

  lemma EscapeLeads(t: Tree, w: Path, l: string, x: string)
    requires WellFormed(t) && IsName(l) && IsDir(t, w)
    requires RepoOf(w) + [l] in t && t[RepoOf(w) + [l]] == Link("..")
    ensures OwnPlace(Cleared(t, w), RepoOf(w) + [l, x]) == Some(w + [x]) && WellFormed(Cleared(t, w))
  {
    var repo, src, t1 := RepoOf(w), RepoOf(w) + [l, x], Cleared(t, w);
    ClearedContent(t, w);
    assert (repo + [l])[|w|] == "repo" && repo[|w|] == "repo" && ContentOf(w)[|w|] == "content";
    assert Under(repo, repo + [l]) && Parent(repo) == w;
    LinkUp(t1, repo, l);
    assert Parent(src) == repo + [l] && src[|src| - 1] == x;
  }

  /** A path through a link to the directory above. */
  lemma LinkUp(t: Tree, repo: Path, l: string)
    requires WellFormed(t) && repo != [] && IsDir(t, repo) && IsName(l)
    requires repo + [l] in t && t[repo + [l]] == Link("..")
    ensures LeadsTo(t, repo + [l]) == Some(Parent(repo))
  {
    PlaceBelow(t, repo, [l]);
    SplitNoSlash("..");
    assert [l][1..] == [] && Split("..") + [] == [".."] && [".."][1..] == [];
    assert !IsAbs("..");
    assert Follow(t, repo, [l], MAX_HOPS) == Follow(t, repo, [".."], MAX_HOPS - 1);
    assert Follow(t, repo, [".."], MAX_HOPS - 1) == Follow(t, Up(repo), [], MAX_HOPS - 1);
  }

  /** What stands beside the content directory is not touched by clearing it. */
  lemma ClearedBeside(t: Tree, w: Path, p: Path)
    requires Under(w, p) && p != w && !Under(ContentOf(w), p)
    ensures Subtree(Cleared(t, w), p) == Subtree(t, p) && (p in Cleared(t, w) <==> p in t)
    ensures forall r :: Lookup(Cleared(t, w), p + r) == Lookup(t, p + r)
  {
    forall r ensures Lookup(Cleared(t, w), p + r) == Lookup(t, p + r) {
      assert (p + r)[|w|] == p[|w|];
    }
    assert p + [] == p && Lookup(Cleared(t, w), p + []) == Lookup(t, p + []);
    forall r ensures Lookup(Subtree(Cleared(t, w), p), r) == Lookup(Subtree(t, p), r) {
      assert Lookup(Cleared(t, w), p + r) == Lookup(t, p + r);
    }
    SameTree(Subtree(Cleared(t, w), p), Subtree(t, p));
  }

  /** When the git binary backend succeeds at a plain sub-path of a checkout, spelled out. */
  lemma GitSucceedsMeaning(t: Tree, w: Path, c: Commit, p: Path, limits: Limits)
    requires WellFormed(t) && WellFormedCommit(c) && CheckedOut(t, w, c) && ".git" !in p
    requires Names(RepoOf(w) + p) && !PassesLink(t, RepoOf(w) + p)
    ensures GitSucceeds(t, RepoOf(w) + p, limits) <==>
            && (p == [] || exists r :: r in c && Under(p, r) && r != p)
            && (forall r :: r in SubCommit(c, p) && SubCommit(c, p)[r].SymLink? && ".git" !in r ==>
                  LinkStays(w + ["repo"] + p, Parent(r), SubCommit(c, p)[r].target))
            && (limits.maxFileCount <= 0 || WithLinks(SubCommit(c, p)).files <= limits.maxFileCount)
            && (limits.maxRepositorySize <= 0 || WithLinks(SubCommit(c, p)).size <= limits.maxRepositorySize)
  {
    GitMeaning(t, w, c, p, limits);
    SomethingBelow(c, p);
    SubWellFormed(c, p);
  }

  lemma SomethingBelow(c: Commit, p: Path)
    ensures SubCommit(c, p) != map[] <==> exists r :: r in c && Under(p, r) && r != p
  {
    if x :| x in SubCommit(c, p) {
      assert p + x in c && Under(p, p + x) && p + x != p;
    }
    if r :| r in c && Under(p, r) && r != p {
      assert p + r[|p|..] == r;
      assert r[|p|..] in SubCommit(c, p);
    }
  }

  /** A path of names is a sub-path that the backends accept. */
  lemma SubPathOf(w: Path, p: Path)
    requires Names(w) && Names(p) && p != [] && ".git" !in p
    ensures SourceOf(w, Slashed(p)) == Some(RepoOf(w) + p)
    ensures NormalizeRepoPath(Slashed(p)) == Ok(Slashed(p)) || '\\' in Slashed(p)
  {
    AbsLoc(RepoOf(w));
    AbsLoc(RepoOf(w) + p);
    Spelled(p);
    SafeJoinMeaning(Abs(RepoOf(w)), Slashed(p));
    NormalizeMeaning(Slashed(p));
  }

  // ------------------------------------------------------------------- agreement

  /** Without its empty directories. */
  ghost function NonEmpty(t: Tree): Tree {
    map r | r in t && (r == [] || !t[r].Dir? || Holds(t, r)) :: t[r]
  }

  /** The repository directory holds a checkout of `c`, besides Git's own files. */
  ghost predicate CheckedOut(t: Tree, w: Path, c: Commit) {
    forall r :: ".git" !in r ==> Lookup(Subtree(t, RepoOf(w)), r) == Lookup(Checkout(c), r)
  }

  /** The two permission computations give the same read-only bits. */
  lemma SameBits(mode: BlobMode)
    ensures ReadOnly(CheckoutBits(mode)) == ReadOnly(ModeBits(mode))
  {
    match mode
    case Regular =>
    case Deprecated =>
    case Executable =>
  }

  /** The checked-out entry below a sub-path is the commit's. */
  lemma EntryBelow(t: Tree, w: Path, c: Commit, p: Path, r: Path)
    requires CheckedOut(t, w, c) && ".git" !in p && ".git" !in r
    ensures Lookup(Subtree(t, RepoOf(w) + p), r) == Lookup(Checkout(c), p + r)
  {
    assert RepoOf(w) + p + r == RepoOf(w) + (p + r);
    assert ".git" !in p + r;
    assert Lookup(Subtree(t, RepoOf(w)), p + r) == Lookup(Checkout(c), p + r);
  }

  lemma ExportedEntry(c: Commit, r: Path)
    requires WellFormedCommit(c)
    ensures r in c && ".git" !in r ==> Lookup(Exported(c), r) == Some(ExportNode(c[r]))
    ensures r == [] || (r !in c && KeptUnder(c, r)) ==> Lookup(Exported(c), r) == Some(Dir(PUBLIC_DIR))
    ensures Lookup(Exported(c), r).Some? ==> r == [] || KeptUnder(c, r)
  {
    var leaves := ExportLeaves(c);
    if r in leaves { assert Under(r, r); }
    if q :| q in c && ".git" !in q && Under(r, q) { assert q in leaves; }
    if r in Ways(leaves, {}) && r != [] {
      var q :| q in leaves && Under(r, q);
      assert q in c && ".git" !in q;
    }
  }

  lemma CheckoutEntry(c: Commit, r: Path)
    requires WellFormedCommit(c)
    ensures r in c ==> Lookup(Checkout(c), r) == Some(CheckoutNode(c[r]))
    ensures r == [] || (r !in c && exists q :: q in c && Under(r, q)) ==>
              Lookup(Checkout(c), r) == Some(Dir(PUBLIC_DIR))
    ensures Lookup(Checkout(c), r).Some? ==> r == [] || exists q :: q in c && Under(r, q)
  {
    var leaves := CheckoutLeaves(c);
    if r in leaves { assert Under(r, r); }
    if q :| q in c && Under(r, q) { assert q in leaves; }
    if r in Ways(leaves, {}) && r != [] {
      var q :| q in leaves && Under(r, q);
      assert q in c;
    }
  }

  /** What the git binary backend copies, entry by entry, from a checked-out sub-path. */
  lemma CopiedEntry(t: Tree, w: Path, c: Commit, p: Path, r: Path)
    requires WellFormedCommit(c) && CheckedOut(t, w, c) && ".git" !in p && r != []
    ensures var got := Lookup(Prune(Subtree(t, RepoOf(w) + p)), r);
            && (".git" in r ==> got == None)
            && (".git" !in r && p + r in c ==> got == Some(ExportNode(c[p + r])))
            && (got.Some? && !got.value.Dir? ==> p + r in c && ".git" !in r)
            && (got.Some? && got.value.Dir? ==> got.value == Dir(PUBLIC_DIR))
            && (".git" !in r && p + r !in c && (exists q :: q in c && Under(p + r, q)) ==> got == Some(Dir(PUBLIC_DIR)))
  {
    if ".git" !in r {
      EntryBelow(t, w, c, p, r);
      CheckoutEntry(c, p + r);
      if p + r in c && c[p + r].Blob? { SameBits(c[p + r].mode); }
    }
  }

  /** A kept descendant in the copy is a kept leaf of the selected tree, and the other way. */
  lemma KeptBelow(t: Tree, w: Path, c: Commit, p: Path, r: Path)
    requires WellFormedCommit(c) && CheckedOut(t, w, c) && ".git" !in p && r != []
    ensures var copied := Prune(Subtree(t, RepoOf(w) + p)); var sub := SubCommit(c, p);
            Holds(copied, r) <==> KeptUnder(sub, r)
  {
    var copied, sub := Prune(Subtree(t, RepoOf(w) + p)), SubCommit(c, p);
    if q :| q in copied && Under(r, q) && !copied[q].Dir? {
      CopiedEntry(t, w, c, p, q);
      assert Lookup(copied, q) == Some(copied[q]);
      assert q in sub;
    }
    if q :| q in sub && ".git" !in q && Under(r, q) {
      CopiedEntry(t, w, c, p, q);
      assert p + q in c && Lookup(copied, q) == Some(ExportNode(c[p + q]));
    }
  }

  lemma SubWellFormed(c: Commit, p: Path)
    requires WellFormedCommit(c)
    ensures WellFormedCommit(SubCommit(c, p))
  {
    var sub := SubCommit(c, p);
    forall r | r in sub ensures Names(r) { assert forall i :: 0 <= i < |r| ==> (p + r)[|p| + i] == r[i]; }
    forall a, b | a in sub && b in sub && Under(a, b) ensures a == b {
      ShiftedUnder(p, a, b);
      assert (p + a)[|p|..] == a && (p + b)[|p|..] == b;
    }
  }

  /** Content equivalence: at every sub-path outside `.git`, the recursive copy of the checkout
      and the flat export of the selected tree hold the same paths, bytes, link targets and
      permissions, apart from directories with nothing in them. */
  lemma SameContent(t: Tree, w: Path, c: Commit, p: Path)
    requires WellFormedCommit(c) && CheckedOut(t, w, c) && ".git" !in p
    ensures NonEmpty(Prune(Subtree(t, RepoOf(w) + p))) == Exported(SubCommit(c, p))
  {
    var copied, exported := Prune(Subtree(t, RepoOf(w) + p)), Exported(SubCommit(c, p));
    forall r ensures Lookup(NonEmpty(copied), r) == Lookup(exported, r) {
      SubWellFormed(c, p);
      SameEntry(t, w, c, p, r);
    }
    SameTree(NonEmpty(copied), exported);
  }

  lemma SameEntry(t: Tree, w: Path, c: Commit, p: Path, r: Path)
    requires WellFormedCommit(c) && CheckedOut(t, w, c) && ".git" !in p && WellFormedCommit(SubCommit(c, p))
    ensures Lookup(NonEmpty(Prune(Subtree(t, RepoOf(w) + p))), r) == Lookup(Exported(SubCommit(c, p)), r)
  {
    var copied, sub := Prune(Subtree(t, RepoOf(w) + p)), SubCommit(c, p);
    ExportedEntry(sub, r);
    if r != [] {
      CopiedEntry(t, w, c, p, r);
      KeptBelow(t, w, c, p, r);
      KeptIsClean(sub, r);
      NonEmptyEntry(copied, r);
      if r in sub && ".git" !in r {
      } else if KeptUnder(sub, r) {
        OnTheWay(c, p, r);
      }
    }
  }

  /** Some kept leaf of `c` lies at or below `r`. */
  ghost predicate KeptUnder(c: Commit, r: Path) {
    exists q :: q in c && ".git" !in q && Under(r, q)
  }

  /** Something other than a directory lies at or below `r`. */
  ghost predicate Holds(t: Tree, r: Path) {
    exists q :: q in t && Under(r, q) && !t[q].Dir?
  }

  lemma NonEmptyEntry(t: Tree, r: Path)
    requires r != []
    ensures Lookup(NonEmpty(t), r) == if r in t && (!t[r].Dir? || Holds(t, r)) then Some(t[r]) else None
  {}

  lemma OnTheWay(c: Commit, p: Path, r: Path)
    requires KeptUnder(SubCommit(c, p), r)
    ensures exists q :: q in c && Under(p + r, q)
  {
    var q :| q in SubCommit(c, p) && ".git" !in q && Under(r, q);
    ShiftedUnder(p, r, q);
    assert p + q in c;
  }

  lemma KeptIsClean(c: Commit, r: Path)
    ensures KeptUnder(c, r) ==> ".git" !in r
  {
    if q :| q in c && ".git" !in q && Under(r, q) {
      forall i | 0 <= i < |r| ensures r[i] != ".git" { assert r[i] == q[i]; }
    }
  }

  /** The two backends check the same links. */
  lemma SameLinks(t: Tree, w: Path, c: Commit, p: Path, root: Path)
    requires WellFormedCommit(c) && CheckedOut(t, w, c) && ".git" !in p
    ensures LinksAccepted(Subtree(t, RepoOf(w) + p), root) <==> LinksStay(SubCommit(c, p), root)
  {
    var s, sub := Subtree(t, RepoOf(w) + p), SubCommit(c, p);
    forall r | r != [] && ".git" !in r
      ensures (r in s && s[r].Link?) <==> (r in sub && sub[r].SymLink?)
      ensures r in s && s[r].Link? ==> s[r].target == sub[r].target
    {
      EntryBelow(t, w, c, p, r);
      CheckoutEntry(c, p + r);
      assert Lookup(s, r) == Lookup(Checkout(c), p + r);
    }
  }

  /** A sub-path is a directory of the checkout exactly when it selects a tree. */
  lemma SameDirectory(t: Tree, w: Path, c: Commit, p: Path)
    requires WellFormedCommit(c) && CheckedOut(t, w, c) && ".git" !in p
    ensures IsDir(t, RepoOf(w) + p) <==> p == [] || SubCommit(c, p) != map[]
  {
    EntryBelow(t, w, c, p, []);
    assert p + [] == p && RepoOf(w) + p + [] == RepoOf(w) + p;
    CheckoutEntry(c, p);
    var sub := SubCommit(c, p);
    if r :| r in sub {
      assert Under(p, p + r) && (p + r)[|p|..] == r && p + r in c;
    } else if q :| q in c && Under(p, q) {
      assert q == p + q[|p|..];
      assert q[|p|..] == [];
      assert q == p;
    }
  }

  /** No kept link climbs above the export root and comes back by the names of `root`. */
  ghost predicate NoReentry(c: Commit, root: Path) {
    forall r :: r in c && r != [] && c[r].SymLink? && ".git" !in r && Parse(c[r].target).ups > |r| - 1 ==>
      !Reenters(root, Parse(c[r].target).ups - (|r| - 1), Parse(c[r].target).names)
  }

  /** Where the git binary backend copies from, and which tree the in-memory backend selects. */
  function SubPath(path: string): Path { if path == "" then [] else Loc(path) }

  /** The tree of a commit at a path of names. */
  function TreeAt(c: Commit, p: Path): Option<Commit> {
    if p == [] || SubCommit(c, p) != map[] then Some(SubCommit(c, p)) else None
  }

  /** Where the path passes through no link, the git binary backend accepts a checked-out commit
      exactly when there is a tree there and its links stay inside the copied directory. */
  lemma GitReadyMeaning(t: Tree, w: Path, c: Commit, p: Path)
    requires WellFormed(t) && WellFormedCommit(c) && CheckedOut(t, w, c) && ".git" !in p
    requires Names(RepoOf(w) + p) && !PassesLink(t, RepoOf(w) + p)
    ensures var src, s := RepoOf(w) + p, TreeAt(c, p);
            && (GitReady(t, src) <==> s.Some? && LinksStay(s.value, src))
            && (GitReady(t, src) ==> GitCopied(t, src) == Prune(Subtree(t, src)))
  {
    PlainSource(t, RepoOf(w) + p);
    SameDirectory(t, w, c, p);
    SameLinks(t, w, c, p, RepoOf(w) + p);
  }

  /** Where it does pass through one, the in-memory backend finds no tree, whatever the git binary
      backend finds behind the link. */
  lemma ThroughLinkNoTree(t: Tree, w: Path, c: Commit, p: Path)
    requires WellFormed(t) && WellFormedCommit(c) && CheckedOut(t, w, c) && ".git" !in p
    requires PassesLink(t, RepoOf(w) + p)
    ensures TreeAt(c, p) == None
  {
    var repo := RepoOf(w);
    var q :| q in t && Under(q, repo + p) && q != repo + p && t[q].Link?;
    CheckoutEntry(c, []);
    EntryBelow(t, w, c, [], []);
    assert repo + [] + [] == repo && IsDir(t, repo);
    LinkBelowRepo(t, repo, p, q);
    assert q == repo + q[|repo|..];
    LinkedPrefix(t, w, c, p, q[|repo|..]);
  }

  lemma LinkBelowRepo(t: Tree, repo: Path, p: Path, q: Path)
    requires WellFormed(t) && IsDir(t, repo) && q in t && t[q].Link? && Under(q, repo + p)
    ensures Under(repo, q) && q != repo
  {
    assert Under(repo, repo + p);
    PrefixesCompare(repo, q, repo + p);
  }

  lemma LinkedPrefix(t: Tree, w: Path, c: Commit, p: Path, r: Path)
    requires WellFormedCommit(c) && CheckedOut(t, w, c) && ".git" !in p
    requires RepoOf(w) + r in t && t[RepoOf(w) + r].Link? && Under(RepoOf(w) + r, RepoOf(w) + p) && r != [] && r != p
    ensures p != [] && SubCommit(c, p) == map[]
  {
    ShiftedUnder(RepoOf(w), r, p);
    assert forall i :: 0 <= i < |r| ==> r[i] == p[i];
    assert Lookup(Subtree(t, RepoOf(w)), r) == Lookup(Checkout(c), r);
    CheckoutEntry(c, r);
    forall x ensures x !in SubCommit(c, p) {
      assert |r| < |p + x|;
      UnderTransitive(r, p, p + x);
    }
  }

  // ------------------------------------------------------------------ limits

  /** The sizes of the links a backend keeps: their texts. */
  ghost function LinkSizes(c: Commit): map<Path, nat> {
    map p | p in c && c[p].SymLink? && ".git" !in p :: |c[p].target|
  }

  /** Files and links of an export, counted together. */
  ghost function WithLinks(c: Commit): Materialized {
    Materialized(|FileSizes(Exported(c))| + |LinkSizes(c)|, Sum(FileSizes(Exported(c))) + Sum(LinkSizes(c)))
  }

  /** The limits with the kept links counted as files. */
  ghost predicate LinkedWithin(l: Limits, c: Commit) { Within(l, WithLinks(c).files, WithLinks(c).size) }

  /** The counters of the git binary backend are those of the other and the links on top. */
  lemma CopyCounts(t: Tree, w: Path, c: Commit, p: Path)
    requires WellFormedCommit(c) && CheckedOut(t, w, c) && ".git" !in p
    ensures EntriesOf(Prune(Subtree(t, RepoOf(w) + p))) == WithLinks(SubCommit(c, p))
  {
    SameContent(t, w, c, p);
    EntriesOfNonEmpty(Prune(Subtree(t, RepoOf(w) + p)));
    SubWellFormed(c, p);
    ExportCounts(SubCommit(c, p));
  }

  lemma ExportCounts(c: Commit)
    requires WellFormedCommit(c)
    ensures EntriesOf(Exported(c)) == WithLinks(c)
  {
    ExportEntrySizes(c);
    SumDisjoint(FileSizes(Exported(c)), LinkSizes(c));
  }

  lemma EntriesOfNonEmpty(t: Tree)
    ensures EntrySizes(NonEmpty(t)) == EntrySizes(t)
  {
    forall r | r in t && !t[r].Dir? ensures r in NonEmpty(t) { assert Under(r, r); }
  }

  lemma ExportEntrySizes(c: Commit)
    requires WellFormedCommit(c)
    ensures FileSizes(Exported(c)).Keys !! LinkSizes(c).Keys
    ensures EntrySizes(Exported(c)) == FileSizes(Exported(c)) + LinkSizes(c)
  {
    var e := Exported(c);
    forall r ensures Lookup(EntrySizes(e), r) == Lookup(FileSizes(e) + LinkSizes(c), r)
                     && !(r in FileSizes(e) && r in LinkSizes(c))
    {
      ExportedEntry(c, r);
      if r in e && !e[r].Dir? { ExportedLeaf(c, r); }
    }
    SameTree(EntrySizes(e), FileSizes(e) + LinkSizes(c));
  }

  /** What is no directory in an export is a kept leaf. */
  lemma ExportedLeaf(c: Commit, r: Path)
    requires WellFormedCommit(c) && r in Exported(c) && !Exported(c)[r].Dir?
    ensures r in c && ".git" !in r && Exported(c)[r] == ExportNode(c[r])
  {
    assert r in ExportLeaves(c);
  }

  /** How the two `Materialize` calls on one checked-out tree `s` compare, the git binary backend
      copying from `src`. Without a tree the in-memory backend fails, and the other can succeed only
      through a link. With one, both succeed or both fail if and only if staying inside the source
      directory and fitting the limits with the links counted goes with staying inside the content
      directory and fitting them without; with no link that climbs out and comes back by name, only
      links that tip a limit keep them apart. What is copied is what is exported, apart from
      directories with nothing in them. */
  ghost predicate Agreement(t: Tree, w: Path, src: Path, s: Option<Commit>, mods: Modules, limits: Limits) {
    match s
    case None =>
      !GoGitSucceeds(t, w, s, false, mods, limits) && (GitSucceeds(Cleared(t, w), src, limits) ==> PassesLink(t, src))
    case Some(c) =>
      var git, go := GitSucceeds(Cleared(t, w), src, limits), GoGitSucceeds(t, w, s, false, mods, limits);
      && ((git <==> go) <==>
            ((LinksStay(c, src) && LinkedWithin(limits, c)) <==>
             (LinksStay(c, ContentOf(w)) && FilesWithin(limits, Exported(c)))))
      && (NoReentry(c, src) && NoReentry(c, ContentOf(w)) ==> ((git <==> go) <==> Untipped(c, w, limits)))
      && !Swallowed(t, w, src)
      && (GitReady(Cleared(t, w), src) ==> NonEmpty(GitCopied(Cleared(t, w), src)) == Exported(c))
  }

  /** Counting the links as well tips no limit of a tree that may be written. */
  ghost predicate Untipped(c: Commit, w: Path, limits: Limits) {
    LinksStay(c, ContentOf(w)) && FilesWithin(limits, Exported(c)) ==> LinkedWithin(limits, c)
  }

  /** Clearing the content directory changes nothing about the checkout. */
  lemma ClearedCheckout(t: Tree, w: Path, c: Commit, p: Path)
    requires WellFormed(t) && WellFormedCommit(c) && CheckedOut(t, w, c)
    ensures WellFormed(Cleared(t, w)) && CheckedOut(Cleared(t, w), w, c) && IsDir(t, w)
    ensures PassesLink(Cleared(t, w), RepoOf(w) + p) <==> PassesLink(t, RepoOf(w) + p)
  {
    var repo, content := RepoOf(w), ContentOf(w);
    CheckoutEntry(c, []);
    assert Lookup(Subtree(t, repo), []) == Lookup(Checkout(c), []);
    assert repo + [] == repo && Under(w, repo) && repo[|w|] == "repo" && content[|w|] == "content";
    WithoutWellFormed(t, content);
    ClearedBeside(t, w, repo);
    forall q | Under(q, repo + p) ensures !Under(content, q) {
      assert |q| > |w| ==> q[|w|] == (repo + p)[|w|];
    }
  }

  lemma GitMeaning(t: Tree, w: Path, c: Commit, p: Path, limits: Limits)
    requires WellFormed(t) && WellFormedCommit(c) && CheckedOut(t, w, c) && ".git" !in p
    requires Names(RepoOf(w) + p) && !PassesLink(t, RepoOf(w) + p)
    ensures var src, s := RepoOf(w) + p, TreeAt(c, p);
            && (GitSucceeds(t, src, limits) <==> s.Some? && LinksStay(s.value, src) && LinkedWithin(limits, s.value))
            && (GitReady(t, src) ==> s.Some? && NonEmpty(GitCopied(t, src)) == Exported(s.value))
  {
    GitReadyMeaning(t, w, c, p);
    if GitReady(t, RepoOf(w) + p) {
      CopyCounts(t, w, c, p);
      SameContent(t, w, c, p);
    }
  }

  lemma AgreeAt(t: Tree, w: Path, c: Commit, p: Path, mods: Modules, limits: Limits)
    requires WellFormed(t) && WellFormedCommit(c) && CheckedOut(t, w, c) && CanMkdir(t, w)
    requires Names(RepoOf(w) + p) && ".git" !in p
    ensures Agreement(t, w, RepoOf(w) + p, TreeAt(c, p), mods, limits)
  {
    ClearedCheckout(t, w, c, p);
    if PassesLink(t, RepoOf(w) + p) {
      ThroughLinkNoTree(t, w, c, p);
    } else {
      GitMeaning(Cleared(t, w), w, c, p, limits);
      if TreeAt(c, p).Some? {
        SubWellFormed(c, p);
        PlainApart(t, w, p);
        AgreeOn(t, w, RepoOf(w) + p, SubCommit(c, p), mods, limits);
      }
    }
  }

  /** A plain path in the repository does not lead above it. */
  lemma PlainApart(t: Tree, w: Path, p: Path)
    requires WellFormed(Cleared(t, w)) && Names(RepoOf(w) + p) && !PassesLink(Cleared(t, w), RepoOf(w) + p)
    ensures !Swallowed(t, w, RepoOf(w) + p)
  {
    OwnPlacePlain(Cleared(t, w), RepoOf(w) + p);
    assert (RepoOf(w) + p)[|w|] == "repo" && ContentOf(w)[|w|] == "content";
  }

  lemma AgreeOn(t: Tree, w: Path, src: Path, c: Commit, mods: Modules, limits: Limits)
    requires WellFormedCommit(c) && CanMkdir(t, w) && !Swallowed(t, w, src)
    requires GitSucceeds(Cleared(t, w), src, limits) <==> LinksStay(c, src) && LinkedWithin(limits, c)
    requires GitReady(Cleared(t, w), src) ==> NonEmpty(GitCopied(Cleared(t, w), src)) == Exported(c)
    ensures Agreement(t, w, src, Some(c), mods, limits)
  {
    ReentryApart(c, src, ContentOf(w));
    LinkedIsMore(limits, c);
    GoGitMeaning(t, w, c, mods, limits);
  }

  lemma LinkedIsMore(limits: Limits, c: Commit)
    ensures LinkedWithin(limits, c) ==> FilesWithin(limits, Exported(c))
  {}

  lemma GoGitMeaning(t: Tree, w: Path, c: Commit, mods: Modules, limits: Limits)
    requires CanMkdir(t, w)
    ensures GoGitSucceeds(t, w, Some(c), false, mods, limits) <==>
              LinksStay(c, ContentOf(w)) && FilesWithin(limits, Exported(c))
  {}

  /** Backend equivalence, at every sub-path the parser returns. */
  lemma BackendsAgree(t: Tree, w: Path, c: Commit, path: string, mods: Modules, limits: Limits)
    requires WellFormed(t) && Names(w) && WellFormedCommit(c) && CheckedOut(t, w, c) && CanMkdir(t, w)
    requires path == "" || NormalizeRepoPath(path) == Ok(path)
    ensures SourceOf(w, path) == Some(RepoOf(w) + SubPath(path))
    ensures Agreement(t, w, RepoOf(w) + SubPath(path), Selected(c, {}, path), mods, limits)
  {
    SelectedMeaning(w, c, path);
    SourceInRepo(w, path);
    AgreeAt(t, w, c, SubPath(path), mods, limits);
  }

  /** Links do tip limits: for every commit with a kept file and a kept link there are limits that let
      the in-memory backend pass and stop the other. */
  lemma LinksTipLimit(c: Commit)
    requires FileSizes(Exported(c)) != map[] && LinkSizes(c) != map[]
    ensures var limits := Limits(|FileSizes(Exported(c))|, 0);
            FilesWithin(limits, Exported(c)) && !LinkedWithin(limits, c)
  {
    var p :| p in FileSizes(Exported(c));
    var q :| q in LinkSizes(c);
  }

  /** And there are directories behind links: where a link to `a` stands and `a` has a directory `x`,
      the git binary backend copies it from the path through the link, its links checked as if they
      stood there, and the in-memory backend finds no tree. */
  lemma LinkedSubPath(t: Tree, w: Path, c: Commit, l: string, a: string, x: string, f: string)
    requires WellFormed(t) && WellFormedCommit(c) && CheckedOut(t, w, c)
    requires IsName(l) && IsName(a) && IsName(x) && l != ".git" && a != ".git" && x != ".git"
    requires [l] in c && c[[l]] == SymLink(a) && [a, x, f] in c
    ensures TreeAt(c, [l, x]) == None
    ensures var t1, src := Cleared(t, w), RepoOf(w) + [l, x];
            && !Swallowed(t, w, src)
            && (GitReady(t1, src) <==> LinksAccepted(Subtree(t, RepoOf(w) + [a, x]), src))
            && (GitReady(t1, src) ==> NonEmpty(GitCopied(t1, src)) == Exported(SubCommit(c, [a, x])))
  {
    ClearedCheckout(t, w, c, [a, x]);
    ThroughLink(Cleared(t, w), w, c, l, a, x, f);
    CopiedFrom(t, w, c, RepoOf(w) + [l, x], [a, x]);
    NoTreeBelow(c, l, x);
  }

  lemma NoTreeBelow(c: Commit, l: string, x: string)
    requires WellFormedCommit(c) && [l] in c
    ensures TreeAt(c, [l, x]) == None
  {
    forall r ensures r !in SubCommit(c, [l, x]) { assert Under([l], [l, x] + r); }
  }

  lemma CopiedFrom(t: Tree, w: Path, c: Commit, src: Path, p: Path)
    requires WellFormedCommit(c) && CheckedOut(Cleared(t, w), w, c) && ".git" !in p
    requires OwnPlace(Cleared(t, w), src) == Some(RepoOf(w) + p) && IsDir(Cleared(t, w), RepoOf(w) + p)
    ensures var t1 := Cleared(t, w);
            && !Swallowed(t, w, src)
            && (GitReady(t1, src) <==> LinksAccepted(Subtree(t, RepoOf(w) + p), src))
            && (GitReady(t1, src) ==> NonEmpty(GitCopied(t1, src)) == Exported(SubCommit(c, p)))
  {
    var own := RepoOf(w) + p;
    assert own[|w|] == "repo" && ContentOf(w)[|w|] == "content";
    ClearedBeside(t, w, own);
    SameContent(Cleared(t, w), w, c, p);
  }

  lemma ThroughLink(t: Tree, w: Path, c: Commit, l: string, a: string, x: string, f: string)
    requires WellFormed(t) && WellFormedCommit(c) && CheckedOut(t, w, c)
    requires IsName(l) && IsName(a) && IsName(x) && l != ".git" && a != ".git" && x != ".git"
    requires [l] in c && c[[l]] == SymLink(a) && [a, x, f] in c
    ensures OwnPlace(t, RepoOf(w) + [l, x]) == Some(RepoOf(w) + [a, x]) && IsDir(t, RepoOf(w) + [a, x])
  {
    var repo := RepoOf(w);
    BehindLink(t, w, c, [], [a, x, f]);
    BehindLink(t, w, c, [a], [a, x, f]);
    BehindLink(t, w, c, [a, x], [a, x, f]);
    CheckoutEntry(c, [l]);
    assert Lookup(Subtree(t, repo), [l]) == Lookup(Checkout(c), [l]);
    assert repo + [] == repo;
    ThroughSibling(t, repo, l, a, x);
  }

  lemma BehindLink(t: Tree, w: Path, c: Commit, r: Path, leaf: Path)
    requires WellFormedCommit(c) && CheckedOut(t, w, c) && leaf in c && Under(r, leaf) && r != leaf && ".git" !in r
    ensures IsDir(t, RepoOf(w) + r)
  {
    CheckoutEntry(c, r);
    assert Lookup(Subtree(t, RepoOf(w)), r) == Lookup(Checkout(c), r);
  }

  lemma ReentryApart(c: Commit, root: Path, root': Path)
    requires WellFormedCommit(c)
    ensures NoReentry(c, root) && NoReentry(c, root') ==> (LinksStay(c, root) <==> LinksStay(c, root'))
  {
    if NoReentry(c, root) && LinksStay(c, root) { StayWithoutReentry(c, root, root'); }
    if NoReentry(c, root') && LinksStay(c, root') { StayWithoutReentry(c, root', root); }
  }

  lemma WholeCommit(c: Commit)
    requires WellFormedCommit(c)
    ensures SubCommit(c, []) == c
  {
    forall r: Path ensures [] + r == r {}
  }

  lemma SelectedMeaning(w: Path, c: Commit, path: string)
    requires Names(w) && WellFormedCommit(c)
    requires path == "" || NormalizeRepoPath(path) == Ok(path)
    ensures var p := SubPath(path);
            SourceOf(w, path).Some? && ".git" !in p && Selected(c, {}, path) == TreeAt(c, p)
  {
    if path == "" {
      WholeCommit(c);
    } else {
      AbsLoc(RepoOf(w));
      ParsedPathAccepted(Abs(RepoOf(w)), path);
      NormalizeMeaning(path);
      LocalSplit(path);
    }
  }

  /** With no re-entry, acceptance at one root is acceptance at the other. */
  lemma StayWithoutReentry(c: Commit, root: Path, root': Path)
    requires WellFormedCommit(c) && NoReentry(c, root) && LinksStay(c, root)
    ensures LinksStay(c, root')
  {
    forall r | r in c && c[r].SymLink? && ".git" !in r ensures r != [] && LinkStays(root', Parent(r), c[r].target) {
      var target := c[r].target;
      assert LinkStays(root, Parent(r), target);
      assert |Parent(r)| == |r| - 1;
    }
  }

  /** The agreement on success is not unconditional: a link to the repository directory by its own
      name is accepted by the git binary backend and refused by the in-memory one. */
  lemma BackendsCanDisagree(w: Path, name: string)
    requires Names(w) && IsName(name) && name != ".git"
    ensures var c := OneLink(name, "../" + "repo");
            WellFormedCommit(c) && LinksStay(c, RepoOf(w)) && !LinksStay(c, ContentOf(w))
  {
    SiblingLink(RepoOf(w), "repo");
    SiblingLink(ContentOf(w), "repo");
    OneLinkStays(name, "../" + "repo", RepoOf(w));
    OneLinkStays(name, "../" + "repo", ContentOf(w));
  }

  /** The commit of one top-level link. */
  ghost function OneLink(name: string, target: string): Commit { map[[name] := SymLink(target)] }

  lemma OneLinkStays(name: string, target: string, root: Path)
    requires IsName(name) && name != ".git"
    ensures WellFormedCommit(OneLink(name, target))
    ensures LinksStay(OneLink(name, target), root) <==> LinkStays(root, [], target)
  {
    var c := OneLink(name, target);
    assert Parent([name]) == [] && ".git" !in [name];
    assert c[[name]] == SymLink(target);
    forall r | r in c ensures r == [name] {}
  }
}
