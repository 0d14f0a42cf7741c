/** Publishing a content tree at a workload's target path, read-only, and counting files. */
module Publishing {
  import opened Wrappers
  import opened LexicalPath
  import opened Links
  import opened SafePaths
  import opened Trees
  import opened FileSystems
  import opened ContentTrees

  // ----------------------------------------------------------------- chmod walk

  /** The entries of `seen` have been made read-only. */
  ghost predicate ChmodSoFar(t: Tree, t0: Tree, seen: seq<Path>) {
    forall q :: Lookup(t, q) ==
      if q in seen && q in t0 then Some(PublishedNode(t0[q])) else Lookup(t0, q)
  }

  /** `chmodReadOnly`: directories become exactly 0555, regular files lose their write bits, links
      and special files stay. */
  method ChmodReadOnly(fs: FileSystem, root: Path) returns (ok: bool)
    requires fs.Valid()
    modifies fs
    ensures fs.Valid() && fs.now == old(fs.now) && fs.mtime == old(fs.mtime)
    ensures ok <==> root in old(fs.nodes)
    ensures ok ==> Subtree(fs.nodes, root) == Published(Subtree(old(fs.nodes), root))
    ensures Confined(old(fs.nodes), fs.nodes, root)
  {
    if root !in fs.nodes { return false; }
    var visits := fs.WalkDir(root);
    ghost var t0 := fs.nodes;
    for i := 0 to |visits|
      invariant fs.Valid() && fs.now == old(fs.now) && fs.mtime == old(fs.mtime)
      invariant ChmodSoFar(fs.nodes, t0, visits[..i])
    {
      var p := visits[i];
      assert p in visits && p !in visits[..i];
      assert Lookup(fs.nodes, p) == Lookup(t0, p);
      ghost var t := fs.nodes;
      match fs.nodes[p] {
        case Dir(_) => fs.Chmod(p, READ_ONLY);
        case File(_, perm) => fs.Chmod(p, ReadOnly(perm));
        case Link(_) =>
        case Other =>
      }
      ChmodStep(t, fs.nodes, t0, visits, i);
    }
    assert visits[..|visits|] == visits;
    ChmodDone(fs.nodes, t0, visits, root);
    ok := true;
  }

  lemma ChmodStep(t: Tree, t': Tree, t0: Tree, visits: seq<Path>, i: nat)
    requires i < |visits| && visits[i] in t0 && ChmodSoFar(t, t0, visits[..i])
    requires t' == t[visits[i] := PublishedNode(t0[visits[i]])]
    ensures ChmodSoFar(t', t0, visits[..i + 1])
  {
    assert visits[..i + 1] == visits[..i] + [visits[i]];
    forall q ensures Lookup(t', q) == if q in visits[..i + 1] && q in t0 then Some(PublishedNode(t0[q]))
                                      else Lookup(t0, q)
    {
      assert Lookup(t, q) == if q in visits[..i] && q in t0 then Some(PublishedNode(t0[q]))
                             else Lookup(t0, q);
    }
  }

  lemma ChmodDone(t: Tree, t0: Tree, visits: seq<Path>, root: Path)
    requires Preorder(visits, t0, root) && ChmodSoFar(t, t0, visits)
    ensures Subtree(t, root) == Published(Subtree(t0, root))
    ensures Confined(t0, t, root)
  {
    forall q ensures q in t <==> q in t0 { assert Lookup(t, q).Some? <==> Lookup(t0, q).Some?; }
    forall q | q in t0 ensures t[q] == if Under(root, q) then PublishedNode(t0[q]) else t0[q] {
      assert Lookup(t, q) == if q in visits then Some(PublishedNode(t0[q])) else Lookup(t0, q);
    }
    forall r | root + r in t0 ensures Under(root, root + r) {}
    assert Subtree(t, root).Keys == Published(Subtree(t0, root)).Keys;
  }

  // -------------------------------------------------------------------- publish

  /** What a target holds after a successful publish of `content`. */
  function PublishedTree(content: Tree): Tree { Published(Prune(content)) }

  /** Whether publishing succeeds: the source stands, its links stay inside it, and the target's
      ancestors are directories. */
  ghost predicate PublishSucceeds(t: Tree, source: Path, target: Path) {
    source in t && CanMkdir(Without(t, target), target) && LinksAccepted(Subtree(t, source), source)
  }

  /** `publishReadOnly`, with no link above the source or the target. */
  method PublishReadOnly(fs: FileSystem, source: string, target: string) returns (ok: bool)
    requires fs.Valid() && IsAbs(source) && IsAbs(target) && Away(Loc(source), Loc(target))
    requires !PassesLink(fs.nodes, Loc(source)) && !PassesLink(fs.nodes, Loc(target))
    modifies fs
    ensures fs.Valid() && old(fs.now) <= fs.now
    ensures Confined(old(fs.nodes), fs.nodes, Loc(target))
    ensures Restamped(old(fs.mtime), fs.mtime, old(fs.now), Loc(target))
    ensures ok <==> PublishSucceeds(old(fs.nodes), Loc(source), Loc(target))
    ensures ok ==> Subtree(fs.nodes, Loc(target)) == PublishedTree(Subtree(old(fs.nodes), Loc(source)))
  {
    ghost var t0, m0, n0, s, d := fs.nodes, fs.mtime, fs.now, Loc(source), Loc(target);
    fs.RemoveAll(Loc(target));
    ghost var t1, m1, n1 := fs.nodes, fs.mtime, fs.now;
    SourceSurvives(t0, s, d);
    SourceOwnPlace(t1, s);
    ok := CopyContentTree(fs, source, target);
    assert Restamped(m0, m1, n0, d);
    RestampedOn(m0, m1, fs.mtime, n0, n1, d);
    ConfinedTransitive(t0, t1, fs.nodes, d);
    if !ok { return; }
    ghost var t2 := fs.nodes;
    CopyStands(t2, d, Subtree(t0, s));
    ok := ChmodReadOnly(fs, Loc(target));
    ConfinedTransitive(t0, t2, fs.nodes, d);
  }

  lemma CopyStands(t: Tree, d: Path, s: Tree)
    requires Subtree(t, d) == Prune(s)
    ensures d in t
  {
    assert [] in Subtree(t, d) && d + [] == d;
  }

  /** With no link above it, what is at a path is found there. */
  lemma SourceOwnPlace(t: Tree, s: Path)
    requires WellFormed(t) && Names(s) && s != [] && !PassesLink(t, s)
    ensures if s in t then OwnPlace(t, s) == Some(s)
            else OwnPlace(t, s).Some? ==> OwnPlace(t, s).value !in t
  {
    OwnPlacePlain(t, s);
    if s in t { assert Under(Parent(s), s); }
  }

  lemma SourceSurvives(t: Tree, source: Path, target: Path)
    requires !Under(source, target) && !Under(target, source)
    ensures Subtree(Without(t, target), source) == Subtree(t, source)
    ensures source in Without(t, target) <==> source in t
  {
    forall r ensures !Under(target, source + r) {
      if Under(target, source + r) { PrefixesCompare(source, target, source + r); }
    }
  }

  /** `unpublish` removes exactly the target. */
  method Unpublish(fs: FileSystem, target: string)
    requires fs.Valid() && Loc(target) != [] && !PassesLink(fs.nodes, Loc(target))
    modifies fs
    ensures fs.Valid() && old(fs.now) <= fs.now
    ensures fs.nodes == Without(old(fs.nodes), Loc(target))
    ensures Restamped(old(fs.mtime), fs.mtime, old(fs.now), Loc(target))
  {
    fs.RemoveAll(Loc(target));
  }

  // ------------------------------------------------------- what publication means

  /** Copying twice loses nothing more than copying once. */
  lemma PruneIdempotent(s: Tree)
    ensures Prune(Prune(s)) == Prune(s)
    ensures PublishedTree(Prune(s)) == PublishedTree(s)
  {
    forall perm: Perm ensures ReadOnly(ReadOnly(perm)) == ReadOnly(perm) {}
  }

  /** A published tree holds the source's entries without `.git` and special files, below a directory of
      mode 0555: every directory is exactly 0555, so that it can be entered and read; every file has
      the source's bytes and of its bits those in 0555, and so no write bit; every link the source's
      text. */
  lemma PublishedShape(s: Tree, r: Path)
    ensures r in PublishedTree(s) <==> r == [] || (r in s && ".git" !in r && !s[r].Other?)
    ensures r == [] ==> PublishedTree(s)[r] == Dir(0x16D)
    ensures r != [] && r in PublishedTree(s) ==>
              match s[r]
              case Dir(_) => PublishedTree(s)[r] == Dir(0x16D)
              case File(bytes, perm) =>
                PublishedTree(s)[r] == File(bytes, perm & 0x16D) && PublishedTree(s)[r].perm & 0x92 == 0
              case Link(target) => PublishedTree(s)[r] == Link(target)
              case Other => false
  {
    forall perm: Perm ensures ReadOnly(ReadOnly(perm)) == perm & 0x16D && ReadOnly(perm) & 0x92 == 0 {}
  }

  /** What the mode changes leave: directories of mode 0555, of every file the bits in 0555, and links and
      special files as they are. */
  lemma ChmodShape(t: Tree, r: Path)
    ensures Lookup(Published(t), r) ==
            if r !in t then None
            else match t[r]
                 case Dir(_) => Some(Dir(0x16D))
                 case File(bytes, perm) => Some(File(bytes, perm & 0x16D))
                 case Link(target) => Some(Link(target))
                 case Other => Some(Other)
  {}

  /** What a copy leaves before it is published: directories of mode 0755, and files with those of the
      source's bits that are in 0555. */
  lemma CopiedShape(s: Tree, r: Path)
    ensures r in Prune(s) <==> r == [] || (r in s && ".git" !in r && !s[r].Other?)
    ensures r == [] ==> Prune(s)[r] == Dir(0x1ED)
    ensures r != [] && r in Prune(s) ==>
              match s[r]
              case Dir(_) => Prune(s)[r] == Dir(0x1ED)
              case File(bytes, perm) => Prune(s)[r] == File(bytes, perm & 0x16D)
              case Link(target) => Prune(s)[r] == Link(target)
              case Other => false
  {}

  /** Links that never rise are accepted wherever the tree is copied to, so acceptance carries
      over from the repository to the content directory and on to the target. */
  lemma LinksRelocate(s: Tree, root: Path)
    requires forall r :: r in s && r != [] && s[r].Link? && ".git" !in r ==>
               !IsAbs(s[r].target) && NeverRises(|r| - 1, Text.Split(s[r].target))
    ensures LinksAccepted(s, root) && LinksAccepted(Prune(s), root)
    ensures PublishedTree(s).Keys == Prune(s).Keys
  {}

  // ------------------------------------------------------------------- counting

  function NodeSize(n: Node, dirSize: nat): nat {
    match n
    case Dir(_) => dirSize
    case File(bytes, _) => |bytes|
    case Link(target) => |target|
    case Other => 0
  }

  /** The sizes of everything that is not a directory. */
  ghost function EntrySizes(t: Tree): map<Path, nat> {
    map r | r in t && !t[r].Dir? :: NodeSize(t[r], 0)
  }

  /** The sizes of the regular files. */
  ghost function FileSizes(t: Tree): map<Path, nat> {
    map r | r in t && t[r].File? :: |t[r].bytes|
  }

  /** What counts, and for how much: files by their bytes, links by their text, special files for nothing,
      and directories not at all. */
  lemma CountedSizes(t: Tree, r: Path)
    requires r in t
    ensures match t[r]
            case Dir(_) => r !in EntrySizes(t) && r !in FileSizes(t)
            case File(bytes, _) => Lookup(EntrySizes(t), r) == Some(|bytes|) && Lookup(FileSizes(t), r) == Some(|bytes|)
            case Link(target) => Lookup(EntrySizes(t), r) == Some(|target|) && r !in FileSizes(t)
            case Other => Lookup(EntrySizes(t), r) == Some(0) && r !in FileSizes(t)
  {}

  /** `countFiles`: how many entries are not directories, and their total size. */
  method CountFiles(fs: FileSystem, root: Path) returns (files: nat, size: nat)
    requires fs.Valid() && root in fs.nodes
    ensures files == |EntrySizes(Subtree(fs.nodes, root))|
    ensures size == Sum(EntrySizes(Subtree(fs.nodes, root)))
  {
    var visits := fs.WalkDir(root);
    ghost var full := EntrySizes(Subtree(fs.nodes, root));
    ghost var counted;
    forall p | p in visits ensures InTable(p, fs.nodes, root, full) { assert p == root + p[|root|..]; }
    files, size, counted := CountVisits(fs, root, visits, full);
    TableComplete(counted, full, fs.nodes, root, visits);
  }

  /** The callback of the counting walk over all visits. */
  method CountVisits(fs: FileSystem, root: Path, visits: seq<Path>, ghost full: map<Path, nat>)
    returns (files: nat, size: nat, ghost counted: map<Path, nat>)
    requires Distinct(visits)
    requires forall p :: p in visits ==> InTable(p, fs.nodes, root, full)
    ensures Tabled(counted, full, root, visits)
    ensures files == |counted| && size == Sum(counted)
  {
    files, size, counted := 0, 0, map[];
    for i := 0 to |visits|
      invariant Tabled(counted, full, root, visits[..i])
      invariant files == |counted| && size == Sum(counted)
    {
      var p := visits[i];
      assert InTable(p, fs.nodes, root, full);
      counted := TableVisit(counted, full, root, visits, i, p[|root|..]);
      if !fs.nodes[p].Dir? { files, size := files + 1, size + NodeSize(fs.nodes[p], 0); }
    }
    assert visits[..|visits|] == visits;
  }

  /** The table `full` has the entry `p`, unless that is a directory. */
  ghost predicate InTable(p: Path, t: Tree, root: Path, full: map<Path, nat>) {
    p in t && Under(root, p) && p == root + p[|root|..]
    && (p[|root|..] in full <==> !t[p].Dir?)
    && (p[|root|..] in full ==> full[p[|root|..]] == NodeSize(t[p], 0))
  }

  /** `counted` is the part of the table `full` that has been visited. */
  ghost predicate Tabled(counted: map<Path, nat>, full: map<Path, nat>, root: Path, visited: seq<Path>) {
    forall r :: (r in counted <==> r in full && root + r in visited)
                && (r in counted ==> counted[r] == full[r])
  }

  lemma TableVisit(counted: map<Path, nat>, full: map<Path, nat>, root: Path, visits: seq<Path>, i: nat,
                   r: Path)
    returns (counted': map<Path, nat>)
    requires i < |visits| && Distinct(visits) && visits[i] == root + r
    requires Tabled(counted, full, root, visits[..i])
    ensures Tabled(counted', full, root, visits[..i + 1])
    ensures r in full ==> |counted'| == |counted| + 1 && Sum(counted') == Sum(counted) + full[r]
    ensures r !in full ==> counted' == counted
  {
    assert visits[i] !in visits[..i];
    assert visits[..i + 1] == visits[..i] + [visits[i]];
    forall q ensures root + q == visits[i] <==> q == r {
      assert (root + q)[|root|..] == q && (root + r)[|root|..] == r;
    }
    if r in full {
      SumInsert(counted, r, full[r]);
      counted' := counted[r := full[r]];
    } else {
      counted' := counted;
    }
  }

  lemma TableComplete(counted: map<Path, nat>, full: map<Path, nat>, t: Tree, root: Path, visits: seq<Path>)
    requires Preorder(visits, t, root) && forall r :: r in full ==> root + r in t
    requires Tabled(counted, full, root, visits)
    ensures counted == full
  {
    forall r | r in full ensures r in counted { assert Under(root, root + r); }
  }
}
