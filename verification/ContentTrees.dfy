/** Copying repository content: the walk that copies a tree without its `.git` entries. */
module ContentTrees {
  import opened Wrappers
  import opened Text
  import opened LexicalPath
  import opened Links
  import opened SafePaths
  import opened Trees
  import opened FileSystems

  // --------------------------------------------------------------- specification

  /** What a copied entry becomes. */
  function CopiedNode(n: Node): Node {
    match n
    case Dir(_) => Dir(PUBLIC_DIR)
    case File(bytes, perm) => File(bytes, ReadOnly(perm))
    case Link(_) => n
    case Other => n
  }

  /** A tree without `.git` entries and special files, its directories public and its regular
      files without write bits. */
  function Prune(s: Tree): Tree {
    (map r | r in s && ".git" !in r && !s[r].Other? :: CopiedNode(s[r]))[[] := Dir(PUBLIC_DIR)]
  }

  /** Every link that would be copied is accepted when the tree stands at `root`. */
  ghost predicate LinksAccepted(s: Tree, root: Path) {
    forall r :: r in s && r != [] && s[r].Link? && ".git" !in r ==>
      LinkStays(root, Parent(r), s[r].target)
  }

  /** What publishing makes of an entry. */
  function PublishedNode(n: Node): Node {
    match n
    case Dir(_) => Dir(READ_ONLY)
    case File(bytes, perm) => File(bytes, ReadOnly(perm))
    case Link(_) => n
    case Other => n
  }

  function Published(t: Tree): Tree { map r | r in t :: PublishedNode(t[r]) }

  // ------------------------------------------------------------ lexical decision

  datatype Verdict = MakeRoot | Skip | Refuse | Place(rel: string, target: string)

  /** The lexical part of the copy callback: what to do with a visited path. */
  function Classify(src: string, dst: string, path: string): Verdict {
    var r := Rel(src, path);
    if r.Err? then Refuse
    else
      var rel := Clean(r.value);
      if rel == "." then MakeRoot
      else if !IsLocal(rel) || HasParentSegment(rel) then Refuse
      else if HasGitSegment(rel) then Skip
      else
        var target := SafeJoin(dst, rel);
        if target.Err? then Refuse else Place(rel, target.value)
  }

  /** On a visited path the lexical tests never refuse: they tell the root, the `.git` entries
      and the place of every other entry under the destination. */
  lemma ClassifyMeaning(s: Path, d: Path, r: Path)
    requires Names(s) && Names(d) && Names(r)
    ensures Classify(Abs(s), Abs(d), Abs(s + r)) ==
            if r == [] then MakeRoot else if ".git" in r then Skip else Place(Slashed(r), Abs(d + r))
    ensures r != [] && ".git" !in r ==> SafeJoin(Abs(d), Slashed(r)) == Ok(Abs(d + r))
  {
    VisitedRel(s, r);
    if r == [] {
      CleanIdempotent(".");
    } else {
      Spelled(r);
      AbsLoc(d);
      SafeJoinMeaning(Abs(d), Slashed(r));
    }
  }

  /** `Rel` from a root to what a walk finds below it is the relative path itself. */
  lemma VisitedRel(s: Path, r: Path)
    requires Names(s) && Names(r)
    ensures Rel(Abs(s), Abs(s + r)) == Ok(if r == [] then "." else Slashed(r))
  {
    AbsLoc(s);
    AbsLoc(s + r);
    RelForm(Abs(s), Abs(s + r));
    UnderCommon(s, s + r);
    assert (s + r)[|s|..] == r;
    assert Components(Lex(false, 0, r)) == r;
  }

  lemma LinkVerdict(s: Path, r: Path, target: string)
    requires Names(s) && Names(r) && r != []
    ensures ValidateSymlinkTarget(Abs(s), Abs(s + r), target).Pass? <==> LinkStays(s, Parent(r), target)
  {
    var n := r[|r| - 1];
    assert s + r == s + Parent(r) + [n];
    AbsLoc(s);
    LinkAcceptance(Abs(s), Parent(r), n, target);
  }

  // ------------------------------------------------------------------- copying

  /** Under `dst` stands the part of `pruned` that has been seen; elsewhere `mid`. */
  ghost predicate CopiedSoFar(t: Tree, mid: Tree, pruned: Tree, dst: Path, seen: set<Path>) {
    forall q :: Lookup(t, q) ==
      if !Under(dst, q) then Lookup(mid, q)
      else if q[|dst|..] in seen then Lookup(pruned, q[|dst|..])
      else None
  }

  lemma Tail(dst: Path, q: Path, r: Path)
    requires Under(dst, q)
    ensures q[|dst|..] == r <==> q == dst + r
  {
    assert q == dst + q[|dst|..];
  }

  lemma CopyStep(t: Tree, t': Tree, mid: Tree, pruned: Tree, dst: Path, seen: set<Path>, r: Path)
    requires CopiedSoFar(t, mid, pruned, dst, seen) && r !in seen
    requires t' == if r in pruned then t[dst + r := pruned[r]] else t
    ensures CopiedSoFar(t', mid, pruned, dst, seen + {r})
  {
    forall q ensures Lookup(t', q) == if !Under(dst, q) then Lookup(mid, q)
                                      else if q[|dst|..] in seen + {r} then Lookup(pruned, q[|dst|..])
                                      else None
    {
      assert Lookup(t, q) == if !Under(dst, q) then Lookup(mid, q)
                             else if q[|dst|..] in seen then Lookup(pruned, q[|dst|..])
                             else None;
      if Under(dst, q) { Tail(dst, q, r); } else { assert q != dst + r; }
    }
  }

  lemma CopyDone(t: Tree, mid: Tree, pruned: Tree, dst: Path, seen: set<Path>)
    requires CopiedSoFar(t, mid, pruned, dst, seen) && pruned.Keys <= seen
    ensures Subtree(t, dst) == pruned
    ensures Without(t, dst) == Without(mid, dst)
  {
    forall r ensures Lookup(t, dst + r) == Lookup(pruned, r) {
      assert (dst + r)[|dst|..] == r && Under(dst, dst + r);
    }
    assert forall r :: r in Subtree(t, dst) <==> r in pruned by {
      forall r ensures r in Subtree(t, dst) <==> r in pruned {
        assert Lookup(t, dst + r) == Lookup(pruned, r);
      }
    }
    forall r | r in pruned ensures Subtree(t, dst)[r] == pruned[r] {
      assert Lookup(t, dst + r) == Lookup(pruned, r);
    }
    forall q | !Under(dst, q) ensures Lookup(t, q) == Lookup(mid, q) {}
    assert forall q :: q in Without(t, dst) <==> q in Without(mid, dst) by {
      forall q ensures q in Without(t, dst) <==> q in Without(mid, dst) {
        if !Under(dst, q) { assert Lookup(t, q) == Lookup(mid, q); }
      }
    }
    forall q | q in Without(t, dst) ensures t[q] == mid[q] {
      assert Lookup(t, q) == Lookup(mid, q);
    }
  }

  /** Nothing stands at the destination, and no link above it. */
  ghost predicate FreshPlace(t: Tree, dst: Path) { dst !in t && !PassesLink(t, dst) }

  predicate Away(a: Path, b: Path) { !Under(a, b) && !Under(b, a) }

  /** Whether a walk of `s` comes to `d`, which lies in it: no `.git` is passed over on the way. A copy
      from `s` to `d` would then enter its own copy again and again, until names are too long. */
  predicate Swallows(s: Path, d: Path) { Under(s, d) && ".git" !in d[|s|..] }

  lemma SwallowsMeaning(s: Path, d: Path)
    ensures Swallows(s, d) <==> exists r: Path :: d == s + r && forall i :: 0 <= i < |r| ==> r[i] != ".git"
  {
    if Swallows(s, d) { assert d == s + d[|s|..]; }
    if r: Path :| d == s + r && forall i :: 0 <= i < |r| ==> r[i] != ".git" { assert d[|s|..] == r; }
  }

  /** Whether a copy to a fresh destination succeeds, from the tree at `s` that the path `root` leads to. */
  ghost predicate CopySucceeds(t: Tree, root: Path, s: Path, dst: Path) {
    s in t && CanMkdir(t, dst) && LinksAccepted(Subtree(t, s), root) && !Swallows(s, dst)
  }

  lemma ParentOfAbs(p: Path)
    requires Names(p)
    ensures Loc(DirOf(Abs(p))) == if p == [] then [] else Parent(p)
  {
    if p == [] {
      assert UpToSlash("/") == "/";
      AbsLoc(p);
    } else {
      DirMeaning(p);
      AbsLoc(Parent(p));
    }
  }

  /** `copyRegularFile`: joined below the destination root, created exclusively, without write
      bits; links above its place are followed. */
  method CopyRegularFile(fs: FileSystem, file: Path, dstRoot: string, rel: string, perm: Perm,
                         ghost at: Path)
    returns (ok: bool)
    requires fs.Valid() && file in fs.nodes && fs.nodes[file].File?
    requires Names(at) && SafeJoin(dstRoot, rel) == Ok(Abs(at))
    modifies fs
    ensures fs.Valid() && old(fs.now) <= fs.now
    ensures Grows(old(fs.nodes), fs.nodes) && (fs.nodes == old(fs.nodes) ==> fs.mtime == old(fs.mtime))
    ensures Confined(old(fs.nodes), fs.nodes, Landing(old(fs.nodes), at))
    ensures Stamped(old(fs.mtime), fs.mtime, old(fs.now), Landing(old(fs.nodes), at))
    ensures ok <==> CanPlace(old(fs.nodes), at)
    ensures ok ==> fs.nodes == PlacedAt(old(fs.nodes), at, File(old(fs.nodes)[file].bytes, ReadOnly(perm)))
  {
    var dst := SafeJoin(dstRoot, rel).value;
    AbsLoc(at);
    ParentOfAbs(at);
    ok := fs.PlaceLeaf(Loc(DirOf(dst)), Loc(dst), File(fs.nodes[file].bytes, ReadOnly(perm)));
  }

  /** A directory asked for at `p`. */
  ghost predicate DirCopied(t: Tree, t': Tree, ok: bool, p: Path)
    requires [] in t
  {
    (ok <==> MadeAt(t, p).Some?) && t' == if ok then WithDirs(t, MadeAt(t, p).value, PUBLIC_DIR) else t
  }

  /** A regular file asked for at `p`, its directories first. */
  ghost predicate FileCopied(t: Tree, t': Tree, ok: bool, p: Path, n: Node)
    requires [] in t
  {
    (ok <==> CanPlace(t, p)) && (ok ==> t' == PlacedAt(t, p, n))
  }

  /** A link asked for at `p`. */
  ghost predicate LinkCopied(t: Tree, t': Tree, ok: bool, p: Path, n: Node, accepted: bool) {
    var own := OwnPlace(t, p);
    (ok <==> accepted && own.Some? && own.value !in t) && t' == if ok then t[own.value := n] else t
  }

  /** What the copy callback does at the entry `r` of the source at `s`, which the path `root` leads to,
      copying to `d`. */
  ghost predicate EntryCopied(t: Tree, t': Tree, ok: bool, skipDir: bool, root: Path, s: Path, d: Path, r: Path)
    requires s + r in t && [] in t
  {
    if r == [] then !skipDir && DirCopied(t, t', ok, d)
    else if ".git" in r then ok && t' == t && (skipDir <==> t[s + r].Dir?)
    else
      !skipDir
      && match t[s + r]
         case Dir(_) => DirCopied(t, t', ok, d + r)
         case File(_, _) => FileCopied(t, t', ok, d + r, CopiedNode(t[s + r]))
         case Link(target) => LinkCopied(t, t', ok, d + r, t[s + r], LinkStays(root, Parent(r), target))
         case Other => ok && t' == t
  }

  /** Where the place of an entry is free in a directory, only a refused link fails. */
  lemma EntryAtPlace(t: Tree, t': Tree, ok: bool, skipDir: bool, root: Path, s: Path, d: Path, r: Path)
    requires WellFormed(t) && s + r in t && r != [] && ".git" !in r
    requires Names(d + r) && IsDir(t, Parent(d + r)) && d + r !in t
    requires EntryCopied(t, t', ok, skipDir, root, s, d, r)
    ensures ok <==> (t[s + r].Link? ==> LinkStays(root, Parent(r), t[s + r].target))
    ensures ok ==> t' == if t[s + r].Other? then t else t[d + r := CopiedNode(t[s + r])]
  {
    PlacedReady(t, d + r);
  }

  /** The callback of the copy walk, at one visited entry: whether it went well, and whether the
      walk must not descend. */
  method CopyEntry(fs: FileSystem, src: string, dst: string, s: Path, p: Path, ghost root: Path, ghost d: Path)
    returns (ok: bool, skipDir: bool)
    requires fs.Valid() && Names(root) && Names(d) && src == Abs(root) && dst == Abs(d)
    requires p in fs.nodes && Under(s, p)
    modifies fs
    ensures fs.Valid() && old(fs.now) <= fs.now
    ensures Grows(old(fs.nodes), fs.nodes) && (fs.nodes == old(fs.nodes) ==> fs.mtime == old(fs.mtime))
    ensures Confined(old(fs.nodes), fs.nodes, Landing(old(fs.nodes), d + p[|s|..]))
    ensures Stamped(old(fs.mtime), fs.mtime, old(fs.now), Landing(old(fs.nodes), d + p[|s|..]))
    ensures s + p[|s|..] == p
    ensures ok && p == s && d !in old(fs.nodes) && MadeAt(old(fs.nodes), d) == Some(d) ==>
              NewParent(fs.mtime, old(fs.now), d)
    ensures EntryCopied(old(fs.nodes), fs.nodes, ok, skipDir, root, s, d, p[|s|..])
  {
    var path := Abs(Loc(src) + p[|s|..]);
    ghost var r := p[|s|..];
    assert p == s + r;
    AbsLoc(root);
    ClassifyMeaning(root, d, r);
    AbsLoc(d + r);
    ok, skipDir := true, false;
    match Classify(src, dst, path) {
      case MakeRoot =>
        assert d + r == d;
        AbsLoc(d);
        ok := CopyDir(fs, dst, d);
      case Refuse => ok := false;
      case Skip => skipDir := fs.nodes[p].Dir?;
      case Place(rel, target) => ok := CopyPlaced(fs, src, dst, path, p, rel, target, root, s, d, r);
    }
  }

  /** The stamp of the directory above `d` is new. */
  ghost predicate NewParent(m: map<Path, int>, since: int, d: Path) {
    d != [] && Parent(d) in m && since <= m[Parent(d)]
  }

  method CopyDir(fs: FileSystem, target: string, ghost at: Path) returns (ok: bool)
    requires fs.Valid() && Names(at) && target == Abs(at)
    modifies fs
    ensures fs.Valid() && old(fs.now) <= fs.now
    ensures Grows(old(fs.nodes), fs.nodes) && (fs.nodes == old(fs.nodes) ==> fs.mtime == old(fs.mtime))
    ensures Confined(old(fs.nodes), fs.nodes, Landing(old(fs.nodes), at))
    ensures Stamped(old(fs.mtime), fs.mtime, old(fs.now), Landing(old(fs.nodes), at))
    ensures DirCopied(old(fs.nodes), fs.nodes, ok, at)
    ensures ok && at !in old(fs.nodes) && MadeAt(old(fs.nodes), at) == Some(at) ==> NewParent(fs.mtime, old(fs.now), at)
  {
    AbsLoc(at);
    ok := fs.MkdirAll(Loc(target), PUBLIC_DIR);
  }

  /** The callback once the entry has its place. */
  method CopyPlaced(fs: FileSystem, src: string, dst: string, path: string, p: Path, rel: string, target: string,
                    ghost root: Path, ghost s: Path, ghost d: Path, ghost r: Path)
    returns (ok: bool)
    requires fs.Valid() && Names(root) && Names(d) && Names(r) && src == Abs(root) && path == Abs(root + r)
    requires p in fs.nodes && p == s + r && r != [] && ".git" !in r
    requires target == Abs(d + r) && SafeJoin(dst, rel) == Ok(target)
    modifies fs
    ensures fs.Valid() && old(fs.now) <= fs.now
    ensures Grows(old(fs.nodes), fs.nodes) && (fs.nodes == old(fs.nodes) ==> fs.mtime == old(fs.mtime))
    ensures Confined(old(fs.nodes), fs.nodes, Landing(old(fs.nodes), d + r))
    ensures Stamped(old(fs.mtime), fs.mtime, old(fs.now), Landing(old(fs.nodes), d + r))
    ensures EntryCopied(old(fs.nodes), fs.nodes, ok, false, root, s, d, r)
  {
    ok := true;
    match fs.nodes[p] {
      case Link(linkTarget) =>
        LinkVerdict(root, r, linkTarget);
        ok := CopyLink(fs, src, path, linkTarget, target, d + r);
      case Dir(_) => ok := CopyDir(fs, target, d + r);
      case Other =>
      case File(_, perm) => ok := CopyRegularFile(fs, p, dst, rel, perm, d + r);
    }
  }

  method CopyLink(fs: FileSystem, src: string, path: string, linkTarget: string, target: string, ghost at: Path)
    returns (ok: bool)
    requires fs.Valid() && Names(at) && at != [] && target == Abs(at)
    modifies fs
    ensures fs.Valid() && old(fs.now) <= fs.now
    ensures Grows(old(fs.nodes), fs.nodes) && (fs.nodes == old(fs.nodes) ==> fs.mtime == old(fs.mtime))
    ensures Confined(old(fs.nodes), fs.nodes, Landing(old(fs.nodes), at))
    ensures Stamped(old(fs.mtime), fs.mtime, old(fs.now), Landing(old(fs.nodes), at))
    ensures LinkCopied(old(fs.nodes), fs.nodes, ok, at, Link(linkTarget),
                       ValidateSymlinkTarget(src, path, linkTarget).Pass?)
  {
    AbsLoc(at);
    ok := ValidateSymlinkTarget(src, path, linkTarget).Pass?;
    if ok { ok := fs.CreateLeaf(Loc(target), Link(linkTarget)); }
  }

  /** How far the copy of `s` to the fresh `d` has come. */
  ghost predicate CopyState(t: Tree, t0: Tree, root: Path, s: Path, d: Path, seen: set<Path>)
    requires [] in t0
  {
    if seen == {} then t == t0
    else
      && CanMkdir(t0, d)
      && [] in seen
      && CopiedSoFar(t, WithDirs(t0, d, PUBLIC_DIR), Prune(Subtree(t0, s)), d, seen)
      && (forall r :: r in seen ==> s + r in t0)
      && (forall r :: r in seen && r != [] && t0[s + r].Link? && ".git" !in r ==>
            LinkStays(root, Parent(r), t0[s + r].target))
  }

  /** The state of the walk, and that nothing outside the destination has changed. */
  ghost predicate WalkedTo(start: Snapshot, since: int, after: Snapshot, root: Path, s: Path, d: Path, seen: set<Path>)
    requires [] in start.nodes
  {
    match after
    case Snapshot(t, m) =>
      CopyState(t, start.nodes, root, s, d, seen) && Confined(start.nodes, t, d) && Restamped(start.mtime, m, since, d)
      && (seen != {} ==> NewParent(m, since, d))
  }

  /** The next entry can be visited: it is new, and its directory has been. */
  ghost predicate Ready(t: Tree, t0: Tree, root: Path, s: Path, d: Path, seen: set<Path>, r: Path) {
    && WellFormed(t0) && Names(d) && Names(r) && FreshPlace(t0, d)
    && CopyState(t, t0, root, s, d, seen)
    && s + r in t0 && r !in seen
    && (r == [] <==> seen == {})
    && (r != [] ==> Parent(r) in seen)
  }

  /** The source stands untouched under the walk. */
  lemma SourceStands(t: Tree, t0: Tree, root: Path, s: Path, d: Path, seen: set<Path>, r: Path)
    requires Ready(t, t0, root, s, d, seen, r)
    ensures Lookup(t, s + r) == Lookup(t0, s + r)
  {
    assert !Under(d, s + r);
    if seen != {} {
      assert Lookup(t, s + r) == Lookup(WithDirs(t0, d, PUBLIC_DIR), s + r);
    }
  }

  /** The place of a `.git`-free entry is free, and its directory stands. */
  lemma PlaceReady(t: Tree, t0: Tree, root: Path, s: Path, d: Path, seen: set<Path>, r: Path)
    requires Ready(t, t0, root, s, d, seen, r) && r != [] && ".git" !in r
    ensures IsDir(t, Parent(d + r)) && d + r !in t
  {
    var up := Parent(r);
    PruneKeepsParent(t0, s, r);
    assert Parent(d + r) == d + up && (d + up)[|d|..] == up && (d + r)[|d|..] == r;
    assert Lookup(t, d + r) == None;
    assert Lookup(t, d + up) == Lookup(Prune(Subtree(t0, s)), up);
  }

  /** Every copied entry lands inside the destination. */
  lemma VisitInside(t: Tree, t0: Tree, root: Path, s: Path, d: Path, seen: set<Path>, r: Path)
    requires WellFormed(t) && Ready(t, t0, root, s, d, seen, r) && ".git" !in r
    ensures Under(d, Landing(t, d + r))
  {
    if r == [] {
      assert d + r == d;
      FreshLanding(t0, d);
    } else {
      PlaceReady(t, t0, root, s, d, seen, r);
      PlacedReady(t, d + r);
    }
  }

  lemma FreshLanding(t: Tree, d: Path)
    requires WellFormed(t) && Names(d) && FreshPlace(t, d)
    ensures Landing(t, d) == d
  {
    forall q | q in t && Under(q, Parent(d)) ensures !t[q].Link? { UnderTransitive(q, Parent(d), d); }
    MadeOrNot(t, Parent(d));
    assert d == Parent(d) + [d[|d| - 1]];
  }

  lemma PruneKeepsParent(t0: Tree, s: Path, r: Path)
    requires WellFormed(t0) && s + r in t0 && r != [] && ".git" !in r
    ensures IsDir(Prune(Subtree(t0, s)), Parent(r))
  {
    var up := Parent(r);
    assert s + r == s + up + [r[|r| - 1]];
    assert Under(s + up, s + r);
    assert t0[s + up].Dir?;
    assert forall c :: c in up ==> c in r;
  }

  lemma VisitStep(t: Tree, t': Tree, skipDir: bool, t0: Tree, root: Path, s: Path, d: Path, seen: set<Path>, r: Path)
    requires WellFormed(t) && Ready(t, t0, root, s, d, seen, r) && s + r in t
    requires EntryCopied(t, t', true, skipDir, root, s, d, r)
    ensures CopyState(t', t0, root, s, d, seen + {r})
  {
    SourceStands(t, t0, root, s, d, seen, r);
    var mid, pruned := WithDirs(t0, d, PUBLIC_DIR), Prune(Subtree(t0, s));
    if r == [] {
      RootStep(t0, t', root, s, d);
      assert seen + {r} == {[]};
    } else {
      if ".git" !in r {
        PlaceReady(t, t0, root, s, d, seen, r);
        EntryAtPlace(t, t', true, skipDir, root, s, d, r);
      }
      CopyStep(t, t', mid, pruned, d, seen, r);
    }
  }

  lemma RootStep(t0: Tree, t': Tree, root: Path, s: Path, d: Path)
    requires WellFormed(t0) && Names(d) && FreshPlace(t0, d) && s + [] in t0 && DirCopied(t0, t', true, d)
    ensures CopyState(t', t0, root, s, d, {[]})
  {
    FreshMade(t0, d);
    FreshRoot(t0, d, Prune(Subtree(t0, s)));
  }

  /** A fresh directory is made where its path says, or not at all. */
  lemma FreshMade(t: Tree, d: Path)
    requires WellFormed(t) && Names(d) && FreshPlace(t, d)
    ensures MadeAt(t, d) == if CanMkdir(t, d) then Some(d) else None
    ensures CanMkdir(t, d) ==> Landing(t, d) == d
  {
    MadeOrNot(t, d);
    if CanMkdir(t, d) {
      assert d != [];
      PlacePlain(t, d, Other);
    }
  }

  /** In a directory that is there, an entry that is not goes where its path says. */
  lemma PlacedReady(t: Tree, p: Path)
    requires WellFormed(t) && Names(p) && p != [] && IsDir(t, Parent(p)) && p !in t
    ensures MadeAt(t, p) == Some(p) && Landing(t, p) == p && OwnPlace(t, p) == Some(p) && CanPlace(t, p)
    ensures WithDirs(t, p, PUBLIC_DIR) == t[p := Dir(PUBLIC_DIR)]
    ensures forall n :: PlacedAt(t, p, n) == t[p := n]
  {
    MadePlain(t, p);
    PlacePlain(t, p, Other);
    PlaceBelow(t, Parent(p), []);
    assert Parent(p) + [] == Parent(p) && p == Parent(p) + [p[|p| - 1]];
    MadePlain(t, Parent(p));
  }

  lemma FreshRoot(t0: Tree, d: Path, pruned: Tree)
    requires WellFormed(t0) && d !in t0 && [] in pruned && pruned[[]] == Dir(PUBLIC_DIR)
    ensures CopiedSoFar(WithDirs(t0, d, PUBLIC_DIR), WithDirs(t0, d, PUBLIC_DIR), pruned, d, {[]})
  {
    var mid := WithDirs(t0, d, PUBLIC_DIR);
    forall q | Under(d, q)
      ensures Lookup(mid, q) == if q[|d|..] in {[]} then Lookup(pruned, q[|d|..]) else None
    {
      Tail(d, q, []);
      assert d + [] == d;
      if q in mid && q !in t0 { assert Under(q, d); }
    }
  }

  lemma ParentStaysNew(t: Tree, m: map<Path, int>, t': Tree, m': map<Path, int>, start: Snapshot, since: int, now: int,
                       root: Path, s: Path, d: Path, seen: set<Path>, r: Path)
    requires WellFormed(t) && Ready(t, start.nodes, root, s, d, seen, r) && since <= now
    requires WalkedTo(start, since, Snapshot(t, m), root, s, d, seen)
    requires Grows(t, t') && m.Keys == t.Keys && m'.Keys == t'.Keys
    requires forall q :: q in m && q in m' ==> m'[q] == m[q] || now <= m'[q]
    requires r == [] ==> s + r in t && MadeAt(t, d).Some? && (MadeAt(t, d) == Some(d) ==> NewParent(m', now, d))
    ensures NewParent(m', since, d)
  {
    if r == [] { FreshMade(start.nodes, d); }
  }

  lemma VisitFails(t: Tree, t': Tree, skipDir: bool, t0: Tree, root: Path, s: Path, d: Path, seen: set<Path>, r: Path)
    requires WellFormed(t) && Ready(t, t0, root, s, d, seen, r) && s + r in t
    requires EntryCopied(t, t', false, skipDir, root, s, d, r)
    ensures !CopySucceeds(t0, root, s, d)
  {
    SourceStands(t, t0, root, s, d, seen, r);
    if r == [] {
      FreshMade(t0, d);
    } else {
      if ".git" !in r {
        PlaceReady(t, t0, root, s, d, seen, r);
        EntryAtPlace(t, t', false, skipDir, root, s, d, r);
      }
      assert r in Subtree(t0, s);
    }
  }

  lemma PassedOver(t: Tree, t0: Tree, root: Path, s: Path, d: Path, seen: set<Path>, r: Path)
    requires Ready(t, t0, root, s, d, seen, r) && r != [] && ".git" in r
    ensures CopyState(t, t0, root, s, d, seen + {r})
  {
    CopyStep(t, t, WithDirs(t0, d, PUBLIC_DIR), Prune(Subtree(t0, s)), d, seen, r);
  }

  lemma CopyFinished(t: Tree, t0: Tree, root: Path, s: Path, d: Path, seen: set<Path>)
    requires WellFormed(t0) && seen != {} && CopyState(t, t0, root, s, d, seen)
    requires forall r :: r in seen <==> s + r in t0
    ensures CopySucceeds(t0, root, s, d) <==> !Swallows(s, d)
    ensures Subtree(t, d) == Prune(Subtree(t0, s))
    ensures Without(t, d) == Without(WithDirs(t0, d, PUBLIC_DIR), d)
  {
    assert s + [] == s;
    CopyDone(t, WithDirs(t0, d, PUBLIC_DIR), Prune(Subtree(t0, s)), d, seen);
  }

  /** What a copy of the tree at `s` has come to. Nothing that stood is changed. At a fresh destination,
      nothing outside it changes, and the copy succeeds exactly when directories can be made
      there, every copied link stays inside, and it does not come to its own destination. */
  ghost predicate Copied(start: Snapshot, since: int, after: Snapshot, ok: bool, root: Path, s: Path, d: Path) {
    match after
    case Snapshot(t, m) =>
      && Grows(start.nodes, t)
      && (FreshPlace(start.nodes, d) && (Under(s, d) ==> d != [] && IsDir(start.nodes, Parent(d))) ==>
            && Confined(start.nodes, t, d) && Restamped(start.mtime, m, since, d)
            && (ok <==> CopySucceeds(start.nodes, root, s, d))
            && (ok ==> Subtree(t, d) == Prune(Subtree(start.nodes, s)) && NewParent(m, since, d)))
  }

  lemma VisitReady(start: Snapshot, since: int, after: Snapshot, root: Path, s: Path, d: Path, seen: set<Path>, r: Path)
    requires WellFormed(start.nodes) && Names(d) && FreshPlace(start.nodes, d) && s + r in start.nodes && r !in seen
    requires (r == [] <==> seen == {}) && (r != [] ==> Parent(r) in seen)
    requires WalkedTo(start, since, after, root, s, d, seen)
    ensures Ready(after.nodes, start.nodes, root, s, d, seen, r)
  {
    assert Names(s + r) && forall i :: 0 <= i < |r| ==> (s + r)[|s| + i] == r[i];
  }

  lemma WalkDone(start: Snapshot, since: int, after: Snapshot, root: Path, s: Path, d: Path, seen: set<Path>)
    requires WellFormed(start.nodes) && seen != {} && forall r :: r in seen <==> s + r in start.nodes
    requires Grows(start.nodes, after.nodes) && WalkedTo(start, since, after, root, s, d, seen)
    ensures Copied(start, since, after, !Swallows(s, d), root, s, d)
  {
    CopyFinished(after.nodes, start.nodes, root, s, d, seen);
  }

  /** `CopyContentTree`, from the tree that the source path leads to. */
  method CopyContentTree(fs: FileSystem, source: string, destination: string) returns (ok: bool)
    requires fs.Valid() && IsAbs(source) && IsAbs(destination)
    modifies fs
    ensures fs.Valid() && old(fs.now) <= fs.now
    ensures var own := OwnPlace(old(fs.nodes), Loc(source));
            if own.Some? && own.value in old(fs.nodes) then
              Copied(Snapshot(old(fs.nodes), old(fs.mtime)), old(fs.now), Snapshot(fs.nodes, fs.mtime), ok, Loc(source),
                     own.value, Loc(destination))
            else !ok && fs.nodes == old(fs.nodes) && fs.mtime == old(fs.mtime)
  {
    var src, dst := Clean(source), Clean(destination);
    ghost var root, d := Loc(source), Loc(destination);
    AbsLoc(root);
    AbsLoc(d);
    var own := OwnPlace(fs.nodes, Loc(src));
    if own.None? || own.value !in fs.nodes { return false; }
    ok := CopyWalk(fs, src, dst, own.value, root, d);
  }

  method CopyWalk(fs: FileSystem, src: string, dst: string, s: Path, ghost root: Path, ghost d: Path) returns (ok: bool)
    requires fs.Valid() && Names(root) && Names(d) && src == Abs(root) && dst == Abs(d) && s in fs.nodes
    modifies fs
    ensures fs.Valid() && old(fs.now) <= fs.now
    ensures Copied(Snapshot(old(fs.nodes), old(fs.mtime)), old(fs.now), Snapshot(fs.nodes, fs.mtime), ok, root, s, d)
  {
    AbsLoc(d);
    var visits := fs.WalkDir(s);
    ghost var t0, start, n0 := fs.nodes, Snapshot(fs.nodes, fs.mtime), fs.now;
    ghost var seen: set<Path> := {};
    ghost var clean := FreshPlace(t0, d);
    var skipped: set<Path> := {};
    ok := true;
    for i := 0 to |visits|
      invariant ok && fs.Valid() && n0 <= fs.now
      invariant Grows(t0, fs.nodes)
      invariant SkippedGit(skipped, s)
      invariant SeenExactly(seen, visits[..i], s)
      invariant clean ==> WalkedTo(start, n0, Snapshot(fs.nodes, fs.mtime), root, s, d, seen)
    {
      var p := visits[i];
      Visited(visits, i, t0, s);
      ghost var r := p[|s|..];
      NextVisit(visits, i, t0, s, seen, r);
      if clean { VisitReady(start, n0, Snapshot(fs.nodes, fs.mtime), root, s, d, seen, r); }
      ok, skipped := CopyVisit(fs, src, dst, s, p, skipped, root, d, start, n0, seen, clean);
      if !ok { return; }
      seen := seen + {r};
    }
    assert visits[..|visits|] == visits;
    AllSeen(seen, visits, t0, s);
    ok := !Swallows(s, Loc(dst));
    if clean { WalkDone(start, n0, Snapshot(fs.nodes, fs.mtime), root, s, d, seen); }
  }

  /** One round of the walk: an entry below a skipped directory is passed over, any other goes to
      the callback. */
  method CopyVisit(fs: FileSystem, src: string, dst: string, s: Path, p: Path, skipped: set<Path>,
                   ghost root: Path, ghost d: Path, ghost start: Snapshot, ghost since: int, ghost seen: set<Path>,
                   ghost clean: bool)
    returns (ok: bool, skipped': set<Path>)
    requires fs.Valid() && Names(root) && Names(d) && src == Abs(root) && dst == Abs(d)
    requires WellFormed(start.nodes) && p in start.nodes && Under(s, p) && since <= fs.now
    requires Grows(start.nodes, fs.nodes) && SkippedGit(skipped, s)
    requires clean ==> Ready(fs.nodes, start.nodes, root, s, d, seen, p[|s|..])
    requires clean ==> WalkedTo(start, since, Snapshot(fs.nodes, fs.mtime), root, s, d, seen)
    modifies fs
    ensures fs.Valid() && old(fs.now) <= fs.now
    ensures Grows(start.nodes, fs.nodes)
    ensures SkippedGit(skipped', s)
    ensures clean && ok ==> WalkedTo(start, since, Snapshot(fs.nodes, fs.mtime), root, s, d, seen + {p[|s|..]})
    ensures clean && !ok ==> Copied(start, since, Snapshot(fs.nodes, fs.mtime), false, root, s, d)
  {
    ghost var t, m, n, r, t0 := fs.nodes, fs.mtime, fs.now, p[|s|..], start.nodes;
    if k :| k in skipped && Under(k, p) {
      GitBelow(s, k, p);
      if clean { PassedOver(t, t0, root, s, d, seen, r); }
      return true, skipped;
    }
    var skipDir;
    ok, skipDir := CopyEntry(fs, src, dst, s, p, root, d);
    skipped' := if ok && skipDir then skipped + {p} else skipped;
    if clean {
      if fs.nodes != t {
        VisitInside(t, t0, root, s, d, seen, r);
        ConfinedWider(t, fs.nodes, d, Landing(t, d + r));
        RestampedStep(old(fs.mtime), old(fs.mtime), fs.mtime, old(fs.now), old(fs.now), d, Landing(t, d + r));
      }
      ConfinedTransitive(t0, t, fs.nodes, d);
      RestampedOn(start.mtime, m, fs.mtime, since, n, d);
      if ok {
        VisitStep(t, fs.nodes, skipDir, t0, root, s, d, seen, r);
        ParentStaysNew(t, m, fs.nodes, fs.mtime, start, since, n, root, s, d, seen, r);
      }
      else { VisitFails(t, fs.nodes, skipDir, t0, root, s, d, seen, r); }
    }
  }

  // ---------------------------------------------------------------- walk bookkeeping

  /** Directories the walk does not descend into are inside some `.git`. */
  ghost predicate SkippedGit(skipped: set<Path>, s: Path) {
    forall k :: k in skipped ==> Under(s, k) && ".git" in k[|s|..]
  }

  /** `seen` holds the visited entries, relative to `s`. */
  ghost predicate SeenExactly(seen: set<Path>, visited: seq<Path>, s: Path) {
    forall r :: r in seen <==> s + r in visited
  }

  lemma Visited(visits: seq<Path>, i: nat, t: Tree, s: Path)
    requires i < |visits| && Preorder(visits, t, s)
    ensures visits[i] in t && Under(s, visits[i]) && visits[i] == s + visits[i][|s|..]
  {
    assert visits[i] in visits;
  }

  lemma NextVisit(visits: seq<Path>, i: nat, t: Tree, s: Path, seen: set<Path>, r: Path)
    requires i < |visits| && Preorder(visits, t, s) && visits[0] == s
    requires SeenExactly(seen, visits[..i], s) && visits[i] == s + r
    ensures r !in seen
    ensures (r == [] <==> seen == {}) && (r != [] ==> Parent(r) in seen)
    ensures SeenExactly(seen + {r}, visits[..i + 1], s)
  {
    assert visits[i] !in visits[..i];
    SeenOneMore(seen, visits, i, s, r);
    if i == 0 {
      assert |r| == 0;
      forall q ensures q !in seen { assert s + q !in visits[..0]; }
    } else {
      assert visits[0] != visits[i];
      assert r != [] by { assert s + [] == s; }
      assert Parent(visits[i]) == s + Parent(r);
      assert Parent(visits[i]) in visits[..i];
    }
  }

  lemma SeenOneMore(seen: set<Path>, visits: seq<Path>, i: nat, s: Path, r: Path)
    requires i < |visits| && SeenExactly(seen, visits[..i], s) && visits[i] == s + r
    ensures SeenExactly(seen + {r}, visits[..i + 1], s)
  {
    var before, after := visits[..i], visits[..i + 1];
    assert after == before + [s + r];
    forall q ensures q in seen + {r} <==> s + q in after {
      assert (s + q)[|s|..] == q && (s + r)[|s|..] == r;
      assert s + q in after <==> s + q in before || s + q == s + r;
    }
  }

  lemma AllSeen(seen: set<Path>, visits: seq<Path>, t: Tree, s: Path)
    requires SeenExactly(seen, visits, s) && Preorder(visits, t, s) && s in t
    ensures seen != {} && forall r :: r in seen <==> s + r in t
  {
    forall r ensures r in seen <==> s + r in t { assert Under(s, s + r); }
    assert s + [] == s;
    assert [] in seen;
  }

  lemma GitBelow(s: Path, k: Path, p: Path)
    requires Under(s, k) && Under(k, p) && ".git" in k[|s|..]
    ensures Under(s, p) && ".git" in p[|s|..] && p[|s|..] != []
  {
    var i :| 0 <= i < |k| - |s| && k[|s|..][i] == ".git";
    assert p[|s|..][i] == p[|s| + i] == k[|s| + i];
    UnderTransitive(s, k, p);
  }
}
