/** Commit trees as their leaves, and what a checkout or an export lays out from them. */
module Commits {
  import opened LexicalPath
  import opened SafePaths
  import opened Trees

  /** The file modes Git records for blobs. */
  datatype BlobMode = Regular | Deprecated | Executable

  datatype Leaf = Blob(bytes: string, mode: BlobMode) | SymLink(target: string)

  /** A commit tree, by the paths of its leaves. Git records no empty directory. */
  type Commit = map<Path, Leaf>

  /** Entry names are names, and no leaf stands above or at another. */
  ghost predicate WellFormedCommit(c: Commit) {
    && (forall p :: p in c ==> p != [] && Names(p))
    && (forall p, q {:trigger Under(p, q), p in c} :: p in c && q in c && Under(p, q) ==> p == q)
  }

  /** The permission bits of a blob mode. */
  function ModeBits(mode: BlobMode): Perm {
    match mode
    case Regular => 0x1A4     // 0100644
    case Deprecated => 0x1B4  // 0100664
    case Executable => 0x1ED  // 0100755
  }

  /** The bits a checkout gives: only the executable bit of the mode counts. */
  function CheckoutBits(mode: BlobMode): Perm {
    if mode == Executable then 0x1ED else 0x1A4
  }

  function ExportNode(l: Leaf): Node {
    match l
    case Blob(bytes, mode) => File(bytes, ReadOnly(ModeBits(mode)))
    case SymLink(target) => Link(target)
  }

  function CheckoutNode(l: Leaf): Node {
    match l
    case Blob(bytes, mode) => File(bytes, CheckoutBits(mode))
    case SymLink(target) => Link(target)
  }

  /** Every path on the way to a leaf or a directory of `dirs`. */
  ghost function Ways(leaves: map<Path, Node>, dirs: set<Path>): (ways: set<Path>)
    ensures forall r :: r in ways <==>
              r == [] || (exists p :: p in leaves && Under(r, p)) || (exists p :: p in dirs && Under(r, p))
  {
    var on := set p, k | p in leaves && 0 <= k <= |p| :: p[..k];
    var to := set p, k | p in dirs && 0 <= k <= |p| :: p[..k];
    assert forall r, p :: p in leaves && Under(r, p) ==> r == p[..|r|] && r in on;
    assert forall r, p :: p in dirs && Under(r, p) ==> r == p[..|r|] && r in to;
    {[]} + on + to
  }

  /** Leaves in place, in the directories they need, with further directories. */
  ghost function LayOut(leaves: map<Path, Node>, dirs: set<Path>): Tree {
    Spread(leaves, Ways(leaves, dirs))
  }

  ghost function Spread(leaves: map<Path, Node>, ways: set<Path>): Tree {
    map r | r in ways :: if r in leaves then leaves[r] else Dir(PUBLIC_DIR)
  }

  ghost function ExportLeaves(c: Commit): map<Path, Node> {
    map r | r in c && ".git" !in r :: ExportNode(c[r])
  }

  ghost function CheckoutLeaves(c: Commit): map<Path, Node> {
    map r | r in c :: CheckoutNode(c[r])
  }

  /** What the in-memory backend writes for a commit tree. */
  ghost function Exported(c: Commit): Tree { LayOut(ExportLeaves(c), {}) }

  /** What `git checkout` leaves in the working directory. */
  ghost function Checkout(c: Commit): Tree { LayOut(CheckoutLeaves(c), {}) }

  /** The tree object at a sub-path. */
  function SubCommit(c: Commit, path: Path): (s: Commit)
    ensures forall r :: r in s <==> r != [] && path + r in c
    ensures forall r :: r in s ==> s[r] == c[path + r]
  {
    var below := set p | p in c && Under(path, p) && p != path :: p[|path|..];
    assert forall p :: p in c && Under(path, p) ==> path + p[|path|..] == p;
    assert forall r :: path + r in c ==> (path + r)[|path|..] == r && Under(path, path + r);
    map r | r in below :: c[path + r]
  }

  /** Every exported link stays inside when the tree stands at `root`. */
  ghost predicate LinksStay(c: Commit, root: Path) {
    forall r :: r in c && c[r].SymLink? && ".git" !in r ==> r != [] && LinkStays(root, Parent(r), c[r].target)
  }

  // --------------------------------------------------------------- layout facts

  /** No leaf lies above or at another leaf or a further directory. */
  ghost predicate Disjoint(leaves: map<Path, Node>, dirs: set<Path>) {
    && (forall p, q {:trigger Under(p, q), p in leaves} :: p in leaves && q in leaves && Under(p, q) ==> p == q)
    && (forall p, q {:trigger Under(p, q), p in leaves} :: p in leaves && q in dirs ==> !Under(p, q))
  }

  /** The next leaf always finds its place: its directories can be made and nothing is there. */
  lemma LeafFits(leaves: map<Path, Node>, dirs: set<Path>, p: Path, n: Node)
    requires p != [] && p !in leaves && Disjoint(leaves[p := n], dirs)
    ensures var t := LayOut(leaves, dirs); [] in t && p !in t && CanMkdir(t, Parent(p))
    ensures LayOut(leaves[p := n], dirs) == WithDirs(LayOut(leaves, dirs), Parent(p), PUBLIC_DIR)[p := n]
  {
    var t, after := LayOut(leaves, dirs), leaves[p := n];
    assert p in after && forall q :: q in leaves ==> q in after;
    assert p !in t;
    forall q | q in t && Under(q, Parent(p)) ensures t[q].Dir? {
      UnderTransitive(q, Parent(p), p);
      assert q in leaves ==> q in after;
    }
    ClearWay(t, Parent(p));
    LeafAdds(leaves, dirs, p, n);
  }

  lemma LeafAdds(leaves: map<Path, Node>, dirs: set<Path>, p: Path, n: Node)
    requires p != [] && p !in leaves
    ensures var t := LayOut(leaves, dirs);
            [] in t && LayOut(leaves[p := n], dirs) == WithDirs(t, Parent(p), PUBLIC_DIR)[p := n]
  {
    WaysClosed(leaves, dirs);
    OneMoreLeaf(leaves, dirs, p, n);
    SpreadDirs(leaves, Ways(leaves, dirs), Parent(p));
    SpreadLeaf(leaves, Ways(leaves, dirs), Ways(leaves[p := n], dirs), p, n);
  }

  /** Paths closed under taking ancestors, from the root down, holding all leaves. */
  ghost predicate Closed(leaves: map<Path, Node>, ways: set<Path>) {
    && [] in ways
    && leaves.Keys <= ways
    && (forall a, b {:trigger Under(b, a), a in ways} :: a in ways && Under(b, a) ==> b in ways)
  }

  lemma SpreadDirs(leaves: map<Path, Node>, ways: set<Path>, p: Path)
    requires Closed(leaves, ways)
    ensures DirsExact(Spread(leaves, ways), p)
  {
    WithDirsExactly(Spread(leaves, ways), p);
  }

  lemma SpreadLeaf(leaves: map<Path, Node>, ways: set<Path>, ways': set<Path>, p: Path, n: Node)
    requires p != [] && p !in leaves && Closed(leaves, ways)
    requires forall r :: r in ways' <==> r in ways || Under(r, p)
    requires DirsExact(Spread(leaves, ways), Parent(p))
    ensures Spread(leaves[p := n], ways') == WithDirs(Spread(leaves, ways), Parent(p), PUBLIC_DIR)[p := n]
  {
    var t := Spread(leaves, ways);
    forall r ensures Under(r, p) <==> r == p || Under(r, Parent(p)) {
      if Under(r, p) && r != p { UnderParent(r, p); }
      if Under(r, Parent(p)) { UnderTransitive(r, Parent(p), p); }
    }
    assert Spread(leaves[p := n], ways').Keys == WithDirs(t, Parent(p), PUBLIC_DIR)[p := n].Keys;
  }

  lemma OneMoreLeaf(leaves: map<Path, Node>, dirs: set<Path>, p: Path, n: Node)
    ensures forall r :: r in Ways(leaves[p := n], dirs) <==> r in Ways(leaves, dirs) || Under(r, p)
  {
    var more := leaves[p := n];
    assert p in more && forall q :: q in more <==> q in leaves || q == p;
  }

  /** A path whose existing ancestors are all directories can be made. */
  lemma {:induction false} ClearWay(t: Tree, p: Path)
    requires [] in t && forall q :: q in t && Under(q, p) ==> t[q].Dir?
    ensures CanMkdir(t, p)
    decreases |p|
  {
    if p !in t {
      forall q | q in t && Under(q, Parent(p)) ensures t[q].Dir? { UnderTransitive(q, Parent(p), p); }
      ClearWay(t, Parent(p));
    } else {
      assert Under(p, p);
    }
  }

  /** In a layout, making a directory adds exactly the missing paths on the way. */
  lemma {:induction false} WithDirsWays(t: Tree, p: Path, q: Path)
    requires [] in t && Under(q, p)
    requires forall a, b {:trigger Under(b, a), a in t} :: a in t && Under(b, a) ==> b in t
    ensures q in WithDirs(t, p, PUBLIC_DIR)
    decreases |p|
  {
    if p !in t && q != p {
      UnderParent(q, p);
      WithDirsWays(t, Parent(p), q);
    }
  }

  ghost predicate DirsExact(t: Tree, p: Path) {
    [] in t && forall q :: q in WithDirs(t, p, PUBLIC_DIR) <==> q in t || Under(q, p)
  }

  lemma WithDirsExactly(t: Tree, p: Path)
    requires [] in t
    requires forall a, b {:trigger Under(b, a), a in t} :: a in t && Under(b, a) ==> b in t
    ensures DirsExact(t, p)
  {
    forall q | Under(q, p) ensures q in WithDirs(t, p, PUBLIC_DIR) { WithDirsWays(t, p, q); }
  }

  lemma OneMoreWay(leaves: map<Path, Node>, dirs: set<Path>, p: Path)
    ensures forall r :: r in Ways(leaves, dirs + {p}) <==> r in Ways(leaves, dirs) || Under(r, p)
  {
    forall r
      ensures (exists d :: d in dirs + {p} && Under(r, d)) <==> (exists d :: d in dirs && Under(r, d)) || Under(r, p)
    {
      assert p in dirs + {p};
      if d :| d in dirs && Under(r, d) { assert d in dirs + {p}; }
    }
  }

  lemma WaysClosed(leaves: map<Path, Node>, dirs: set<Path>)
    ensures Closed(leaves, Ways(leaves, dirs))
  {
    var ways := Ways(leaves, dirs);
    forall a, b | a in ways && Under(b, a) ensures b in ways {
      if p :| p in leaves && Under(a, p) { UnderTransitive(b, a, p); }
      else if p :| p in dirs && Under(a, p) { UnderTransitive(b, a, p); }
    }
    forall p | p in leaves ensures p in ways { assert Under(p, p); }
  }
}
