/** A mutable file system: the calls of Go's `os` package that the driver makes, on a tree of
    nodes with modification times. Like the kernel, they follow symbolic links on the way. */
module FileSystems {
  import opened Wrappers
  import opened LexicalPath
  import opened Links
  import opened Trees

  /** One call's effect on modification times: they move only at `p` and above it, and only to
      `since` or later. */
  ghost predicate Stamped(before: map<Path, int>, after: map<Path, int>, since: int, p: Path) {
    forall q :: q in after ==>
      (q in before && after[q] == before[q]) || (since <= after[q] && Under(q, p))
  }

  /** Modification times move only near `root` (above or below it), and only to `since` or
      later. Everything else keeps its time. */
  ghost predicate Restamped(before: map<Path, int>, after: map<Path, int>, since: int, root: Path) {
    forall q :: q in after ==>
      (q in before && after[q] == before[q])
      || (since <= after[q] && (Under(root, q) || Under(q, root)))
  }

  lemma RestampedStep(a: map<Path, int>, b: map<Path, int>, c: map<Path, int>,
                      s: int, s': int, root: Path, p: Path)
    requires Restamped(a, b, s, root) && Stamped(b, c, s', p) && s <= s' && Under(root, p)
    ensures Restamped(a, c, s, root)
  {
    forall q | q in c && !(q in a && c[q] == a[q])
      ensures s <= c[q] && (Under(root, q) || Under(q, root))
    {
      if !(q in b && c[q] == b[q]) { PrefixesCompare(root, q, p); }
    }
  }

  lemma RestampedWider(a: map<Path, int>, b: map<Path, int>, since: int, root: Path, p: Path)
    requires Restamped(a, b, since, p) && Under(root, p)
    ensures Restamped(a, b, since, root)
  {
    forall q | Under(p, q) ensures Under(root, q) { UnderTransitive(root, p, q); }
    forall q | Under(q, p) ensures Under(root, q) || Under(q, root) { PrefixesCompare(root, q, p); }
  }

  lemma RestampedOn(a: map<Path, int>, b: map<Path, int>, c: map<Path, int>, s: int, s': int, root: Path)
    requires Restamped(a, b, s, root) && Restamped(b, c, s', root) && s <= s'
    ensures Restamped(a, c, s, root)
  {}

  /** Only `root`'s subtree changes, and missing ancestors of it may appear as directories. */
  ghost predicate Confined(before: Tree, after: Tree, root: Path) {
    && (forall q :: q in before && !Under(root, q) ==> q in after && after[q] == before[q])
    && (forall q :: q in after && q !in before ==>
          Under(root, q) || (Under(q, root) && after[q].Dir?))
  }

  lemma ConfinedTransitive(a: Tree, b: Tree, c: Tree, root: Path)
    requires Confined(a, b, root) && Confined(b, c, root)
    ensures Confined(a, c, root)
  {}

  /** What changes only below a subdirectory changes only below the directory. */
  lemma ConfinedWider(a: Tree, b: Tree, root: Path, p: Path)
    requires Confined(a, b, p) && Under(root, p)
    ensures Confined(a, b, root)
  {
    forall q | Under(p, q) ensures Under(root, q) { UnderTransitive(root, p, q); }
    forall q | Under(q, p) ensures Under(root, q) || Under(q, root) { PrefixesCompare(root, q, p); }
  }

  /** Making the directories of a new leaf touches nothing else. */
  lemma DirsForLeaf(t: Tree, p: Path, n: Node)
    requires [] in t && p != []
    ensures var made := WithDirs(t, Parent(p), PUBLIC_DIR);
            Confined(t, made, p) && Confined(t, made[p := n], p) && (p in made <==> p in t)
  {
    forall q | Under(q, Parent(p)) ensures Under(q, p) { UnderTransitive(q, Parent(p), p); }
  }

  /** What is added below a directory that is there changes nothing outside it. */
  lemma AddedBelow(t: Tree, t': Tree, p: Path, d: Path)
    requires WellFormed(t) && IsDir(t, d) && Grows(t, t') && Confined(t, t', p) && Under(d, p)
    ensures Confined(t, t', d)
  {
    forall q | q in t' && q !in t ensures Under(d, q) {
      if Under(p, q) { UnderTransitive(d, p, q); } else { PrefixesCompare(d, q, p); }
    }
  }

  /** A preorder listing of everything at and below `root`. */
  ghost predicate Preorder(visits: seq<Path>, t: Tree, root: Path) {
    && (forall p :: p in visits <==> p in t && Under(root, p))
    && Distinct(visits)
    && ParentsFirst(visits, root)
  }

  ghost predicate Distinct<T>(s: seq<T>) {
    forall i, j :: 0 <= i < j < |s| ==> s[i] != s[j]
  }

  ghost predicate ParentsFirst(visits: seq<Path>, root: Path) {
    forall i :: 0 <= i < |visits| && visits[i] != root ==>
      visits[i] != [] && Parent(visits[i]) in visits[..i]
  }

  /** Whether following a path ends at a directory. */
  predicate LeadsToDir(t: Tree, p: Path) {
    LeadsTo(t, p).Some? && LeadsTo(t, p).value in t && t[LeadsTo(t, p).value].Dir?
  }

  /** Whether a file can be written at a path: it leads to a regular file or to a free place. */
  predicate CanWriteFile(t: Tree, p: Path) {
    LeadsTo(t, p).Some? && (LeadsTo(t, p).value in t ==> t[LeadsTo(t, p).value].File?)
  }

  /** The tree with a file written at `l`: a present one keeps its mode. */
  function WithFile(t: Tree, l: Path, bytes: string, perm: Perm): Tree {
    t[l := File(bytes, if l in t && t[l].File? then t[l].perm else perm)]
  }

  /** A file system at a moment. */
  datatype Snapshot = Snapshot(nodes: Tree, mtime: map<Path, int>)

  class FileSystem {
    var nodes: Tree
    var mtime: map<Path, int>
    var now: int
    /** The size the host reports for a directory entry. */
    const dirSize: nat

    ghost predicate Valid()
      reads this
    {
      WellFormed(nodes) && mtime.Keys == nodes.Keys && forall p :: p in mtime ==> mtime[p] < now
    }

    constructor (dirSize: nat)
      ensures Valid() && nodes == map[[] := Dir(PUBLIC_DIR)] && this.dirSize == dirSize
    {
      this.dirSize := dirSize;
      nodes, mtime, now := map[[] := Dir(PUBLIC_DIR)], map[[] := 0], 1;
    }

    /** Time passes. */
    method Wait(elapsed: nat)
      requires Valid()
      modifies this
      ensures Valid() && nodes == old(nodes) && mtime == old(mtime) && now == old(now) + elapsed
    {
      now := now + elapsed;
    }

    /** Puts one node in place, stamping it and its directory. */
    method Put(p: Path, n: Node)
      requires Valid() && p != [] && WellFormed(nodes[p := n]) && Parent(p) in nodes
      modifies this
      ensures Valid() && nodes == old(nodes)[p := n] && old(now) <= now
      ensures mtime == old(mtime)[p := old(now)][Parent(p) := old(now)]
      ensures Stamped(old(mtime), mtime, old(now), p)
    {
      nodes := nodes[p := n];
      mtime := mtime[p := now][Parent(p) := now];
      now := now + 1;
    }

    /** `os.MkdirAll`: a directory that the path leads to will do; a missing one is made where its
        parent leads. */
    method MkdirAll(p: Path, perm: Perm) returns (ok: bool)
      requires Valid() && Names(p)
      modifies this
      ensures Valid() && old(now) <= now
      ensures ok <==> MadeAt(old(nodes), p).Some?
      ensures nodes == if ok then WithDirs(old(nodes), MadeAt(old(nodes), p).value, perm) else old(nodes)
      ensures ok ==> LeadsTo(nodes, p) == MadeAt(old(nodes), p) && IsDir(nodes, LeadsTo(nodes, p).value)
      ensures nodes == old(nodes) ==> mtime == old(mtime)
      ensures ok ==> Stamped(old(mtime), mtime, old(now), MadeAt(old(nodes), p).value)
      ensures var x := MadeAt(old(nodes), p);
              ok && x.value !in old(nodes) ==>
                  x.value != [] && mtime[x.value] >= old(now) && mtime[Parent(x.value)] >= old(now)
      decreases |p|
    {
      var at := LeadsTo(nodes, p);
      if at.Some? && at.value in nodes {
        ok := nodes[at.value].Dir?;
        return;
      }
      ok := MkdirAll(Parent(p), perm);
      if !ok { return; }
      var up, own := LeadsTo(nodes, Parent(p)).value, OwnPlace(nodes, p).value;
      MadeBelow(old(nodes), up, p[|p| - 1], perm);
      ok := own !in nodes;
      if !ok {
        NotMadeYet(old(nodes), nodes, p, perm);
        return;
      }
      MadeLeads(old(nodes), p, perm);
      StampedParent(old(mtime), mtime, old(now), own);
      WithDirsWellFormed(old(nodes), own, perm);
      Put(own, Dir(perm));
    }

    /** A new leaf: `os.OpenFile` with `O_CREATE|O_EXCL` and the copy into it, or `os.Symlink`. Links
        above it are followed, one in its place is not. */
    method CreateLeaf(p: Path, n: Node) returns (ok: bool)
      requires Valid() && Names(p) && (n.File? || n.Link?)
      modifies this
      ensures Valid() && old(now) <= now
      ensures ok <==> OwnPlace(old(nodes), p).Some? && OwnPlace(old(nodes), p).value !in old(nodes)
      ensures nodes == if ok then old(nodes)[OwnPlace(old(nodes), p).value := n] else old(nodes)
      ensures ok ==> Stamped(old(mtime), mtime, old(now), OwnPlace(old(nodes), p).value)
      ensures !ok ==> mtime == old(mtime)
    {
      var own := OwnPlace(nodes, p);
      ok := own.Some? && own.value !in nodes;
      if ok {
        OwnPlaceNamed(nodes, p);
        EntryWellFormed(nodes, own.value, n);
        Put(own.value, n);
      }
    }

    /** A new leaf below directories made on the way, as the recursive copy does it. */
    method PlaceLeaf(dir: Path, p: Path, n: Node) returns (ok: bool)
      requires Valid() && Names(p) && (n.File? || n.Link?)
      requires dir == if p == [] then [] else Parent(p)
      modifies this
      ensures Valid() && old(now) <= now
      ensures Grows(old(nodes), nodes) && (nodes == old(nodes) ==> mtime == old(mtime))
      ensures Confined(old(nodes), nodes, Landing(old(nodes), p))
      ensures Stamped(old(mtime), mtime, old(now), Landing(old(nodes), p))
      ensures ok <==> CanPlace(old(nodes), p)
      ensures ok ==> nodes == PlacedAt(old(nodes), p, n)
      ensures ok ==> OwnPlace(nodes, p) == Some(Landing(old(nodes), p))
    {
      if p == [] {
        ok := MkdirAll(dir, PUBLIC_DIR);
        return false;
      }
      ok := MkdirAll(dir, PUBLIC_DIR);
      if !ok { return; }
      ghost var at, t1, m1, n1 := Landing(old(nodes), p), nodes, mtime, now;
      assert Parent(at) == MadeAt(old(nodes), Parent(p)).value;
      StampedParent(old(mtime), m1, old(now), at);
      ok := CreateLeaf(p, n);
      if ok { StampedTwice(old(mtime), m1, mtime, old(now), n1, at); }
      LeafLanded(old(nodes), t1, nodes, p, n, ok);
    }

    /** `os.WriteFile`: follows links to the end, truncates a regular file there, keeping its mode, or
        creates one. */
    method WriteFile(p: Path, bytes: string, perm: Perm) returns (ok: bool)
      requires Valid() && Names(p)
      modifies this
      ensures Valid() && old(now) <= now
      ensures ok <==> CanWriteFile(old(nodes), p)
      ensures nodes == if ok then WithFile(old(nodes), LeadsTo(old(nodes), p).value, bytes, perm) else old(nodes)
      ensures ok ==> Stamped(old(mtime), mtime, old(now), LeadsTo(old(nodes), p).value)
      ensures !ok ==> mtime == old(mtime)
    {
      var at := LeadsTo(nodes, p);
      FollowLands(nodes, [], p, MAX_HOPS);
      ok := at.Some? && (at.value in nodes ==> nodes[at.value].File?);
      if !ok { return; }
      var l := at.value;
      if l in nodes {
        SameShape(nodes, l, File(bytes, nodes[l].perm));
        nodes := nodes[l := File(bytes, nodes[l].perm)];
        mtime := mtime[l := now];
        now := now + 1;
      } else {
        EntryWellFormed(nodes, l, File(bytes, perm));
        Put(l, File(bytes, perm));
      }
    }

    /** `os.Chmod` on a directory or a regular file; modification times stay. */
    method Chmod(p: Path, perm: Perm)
      requires Valid() && p in nodes && (nodes[p].Dir? || nodes[p].File?)
      modifies this
      ensures Valid() && mtime == old(mtime) && now == old(now)
      ensures nodes == old(nodes)[p := old(nodes)[p].(perm := perm)]
    {
      SameShape(nodes, p, nodes[p].(perm := perm));
      nodes := nodes[p := nodes[p].(perm := perm)];
    }

    /** What another program leaves at an entry of a directory: `sub`, with stamps of its choice. */
    method Replace(p: Path, sub: Tree, stamps: map<Path, int>)
      requires Valid() && p != [] && IsDir(nodes, Parent(p)) && Names(p)
      requires WellFormed(sub) && stamps.Keys == sub.Keys && forall r :: r in stamps ==> stamps[r] <= now
      modifies this
      ensures Valid() && old(now) < now
      ensures nodes == WithTree(old(nodes), p, sub)
      ensures mtime == WithTree(old(mtime), p, stamps)[Parent(p) := old(now)]
    {
      WithTreeWellFormed(nodes, p, sub);
      assert !Under(p, Parent(p)) by { assert |p| > |Parent(p)|; }
      nodes := WithTree(nodes, p, sub);
      mtime := WithTree(mtime, p, stamps)[Parent(p) := now];
      now := now + 1;
    }

    /** `os.RemoveAll`, which succeeds: links above the last component are followed. */
    method RemoveAll(p: Path)
      requires Valid() && Names(p) && p != []
      modifies this
      ensures Valid() && old(now) <= now
      ensures var own := OwnPlace(old(nodes), p);
              && nodes == (if own.Some? then Without(old(nodes), own.value) else old(nodes))
              && Stamped(old(mtime), mtime, old(now), if own.Some? then own.value else p)
      ensures !PassesLink(old(nodes), p) ==>
                nodes == Without(old(nodes), p) && Stamped(old(mtime), mtime, old(now), p)
    {
      if !PassesLink(nodes, p) {
        OwnPlacePlain(nodes, p);
        if p in nodes { assert Under(Parent(p), p); } else { NothingBelow(nodes, p); }
      }
      var own := OwnPlace(nodes, p);
      if own.None? { return; }
      OwnPlaceNamed(nodes, p);
      WithoutWellFormed(nodes, own.value);
      if own.value in nodes {
        assert Under(Parent(own.value), own.value);
        mtime := mtime[Parent(own.value) := now];
        now := now + 1;
      }
      nodes := Without(nodes, own.value);
      mtime := map q | q in mtime && !Under(own.value, q) :: mtime[q];
    }

    /** The entry names of a directory, in some order. */
    method ReadDir(p: Path) returns (names: seq<string>)
      requires Valid()
      ensures forall n :: n in names <==> p + [n] in nodes
      ensures forall i, j :: 0 <= i < j < |names| ==> names[i] != names[j]
    {
      var rest := set q | q in nodes && |q| == |p| + 1 && Under(p, q) :: q[|p|];
      assert forall n :: p + [n] in nodes ==> (p + [n])[|p|] == n;
      assert forall q :: q in nodes && |q| == |p| + 1 && Under(p, q) ==> p + [q[|p|]] == q;
      names := [];
      ghost var all := rest;
      while rest != {}
        invariant forall n :: n in all <==> n in names || n in rest
        invariant forall n :: n in names ==> n !in rest
        invariant forall i, j :: 0 <= i < j < |names| ==> names[i] != names[j]
        decreases rest
      {
        var n :| n in rest;
        names := names + [n];
        rest := rest - {n};
      }
    }

    /** The order in which `filepath.WalkDir` visits a tree: directories before what they hold,
        links listed but never followed. It ends because each child holds strictly less. */
    method WalkDir(root: Path) returns (visits: seq<Path>)
      requires Valid() && root in nodes
      ensures Preorder(visits, nodes, root)
      ensures |visits| >= 1 && visits[0] == root
      decreases Below(nodes, root)
    {
      visits := [root];
      var names := ReadDir(root);
      ghost var done: set<string> := {};
      for i := 0 to |names|
        invariant forall n :: n in done <==> n in names[..i]
        invariant |visits| >= 1 && visits[0] == root
        invariant WalkedPart(visits, nodes, root, done)
      {
        var child := root + [names[i]];
        assert child in nodes && names[i] !in done;
        assert Below(nodes, child) < Below(nodes, root) by { BelowChild(nodes, root, names[i]); }
        var sub := WalkDir(child);
        WalkedMore(visits, sub, nodes, root, done, names[i]);
        visits := visits + sub;
        done := done + {names[i]};
      }
      WalkedAll(visits, nodes, root, done);
    }
  }

  // ------------------------------------------------------------- lookup lemmas

  lemma OwnPlaceNamed(t: Tree, p: Path)
    requires WellFormed(t) && Names(p) && p != [] && OwnPlace(t, p).Some?
    ensures var own := OwnPlace(t, p).value; own != [] && Names(own) && IsDir(t, Parent(own))
  {
    forall i | 0 <= i < |p| ensures '/' !in p[i] { assert IsName(p[i]); }
    FollowLands(t, [], Parent(p), MAX_HOPS);
    var own := OwnPlace(t, p).value;
    assert Parent(own) == LeadsTo(t, Parent(p)).value;
  }

  lemma NothingBelow(t: Tree, p: Path)
    requires WellFormed(t) && p != [] && p !in t
    ensures Without(t, p) == t
  {
    forall q | q in t ensures !Under(p, q) {}
  }

  /** No link stands above an entry of a directory. */
  lemma NoneAbove(t: Tree, p: Path)
    requires WellFormed(t) && p != [] && IsDir(t, Parent(p))
    ensures !PassesLink(t, p)
  {
    forall q | q in t && Under(q, p) && q != p ensures !t[q].Link? {
      UnderParent(q, p);
    }
  }

  /** What a path does not lead to as a directory is not one in its own place. */
  lemma NotMadeYet(t: Tree, made: Tree, p: Path, perm: Perm)
    requires WellFormed(t) && Names(p) && p != [] && MadeAt(t, Parent(p)).Some?
    requires LeadsTo(t, p).Some? ==> LeadsTo(t, p).value !in t
    requires made == WithDirs(t, MadeAt(t, Parent(p)).value, perm)
    requires var own := MadeAt(t, Parent(p)).value + [p[|p| - 1]]; own in made
    ensures MadeAt(t, p).None? && made == t && !made[MadeAt(t, Parent(p)).value + [p[|p| - 1]]].Dir?
  {
    var up, c := MadeAt(t, Parent(p)).value, p[|p| - 1];
    MadeBelow(t, up, c, perm);
    assert Under(up, up + [c]) && up in t;
    MadeLeads(t, Parent(p), perm);
    assert p == Parent(p) + [c];
    if made[up + [c]].Dir? { FollowOne(t, Parent(p), c); }
  }

  /** A leaf put in its place below the directories made for it. */
  lemma LeafLanded(t: Tree, made: Tree, t': Tree, p: Path, n: Node, ok: bool)
    requires WellFormed(t) && Names(p) && p != [] && MadeAt(t, Parent(p)).Some?
    requires made == WithDirs(t, MadeAt(t, Parent(p)).value, PUBLIC_DIR)
    requires LeadsTo(made, Parent(p)) == MadeAt(t, Parent(p)) && IsDir(made, MadeAt(t, Parent(p)).value)
    requires ok <==> OwnPlace(made, p).value !in made
    requires t' == if ok then made[OwnPlace(made, p).value := n] else made
    ensures Grows(t, t') && Confined(t, t', Landing(t, p))
    ensures ok <==> CanPlace(t, p)
    ensures ok ==> t' == PlacedAt(t, p, n) && OwnPlace(t', p) == Some(Landing(t, p))
  {
    var at := Landing(t, p);
    assert OwnPlace(made, p) == Some(at) && Parent(at) == MadeAt(t, Parent(p)).value;
    DirsForLeaf(t, at, n);
    if ok { FollowGrows(made, t', [], Parent(p), MAX_HOPS); }
  }

  // --------------------------------------------------------------- walk lemmas

  /** What a walk has listed when the children in `done` are finished. */
  ghost predicate WalkedPart(visits: seq<Path>, t: Tree, root: Path, done: set<string>) {
    && (forall p :: p in visits <==>
          p in t && Under(root, p) && (p != root ==> p[|root|] in done))
    && Distinct(visits)
    && ParentsFirst(visits, root)
  }

  lemma BelowChild(t: Tree, root: Path, n: string)
    requires root in t
    ensures Below(t, root + [n]) < Below(t, root)
  {
    forall p | p in Below(t, root + [n]) ensures p in Below(t, root) {
      UnderTransitive(root, root + [n], p);
    }
    assert root in Below(t, root) && root !in Below(t, root + [n]);
  }

  lemma WalkedMore(visits: seq<Path>, sub: seq<Path>, t: Tree, root: Path, done: set<string>, n: string)
    requires WellFormed(t) && root in t && root + [n] in t && n !in done
    requires WalkedPart(visits, t, root, done) && |visits| >= 1 && visits[0] == root
    requires Preorder(sub, t, root + [n])
    ensures WalkedPart(visits + sub, t, root, done + {n})
  {
    WalkedMembers(visits, sub, t, root, done, n);
    WalkedDistinct(visits, sub);
    WalkedParents(visits, sub, root, n);
  }

  lemma WalkedDistinct(visits: seq<Path>, sub: seq<Path>)
    requires Distinct(visits) && Distinct(sub) && forall p :: !(p in visits && p in sub)
    ensures Distinct(visits + sub)
  {
    var all := visits + sub;
    forall i, j | 0 <= i < j < |all| ensures all[i] != all[j] {
      if i < |visits| <= j { assert all[i] in visits && all[j] in sub; }
    }
  }

  lemma WalkedParents(visits: seq<Path>, sub: seq<Path>, root: Path, n: string)
    requires |visits| >= 1 && visits[0] == root
    requires ParentsFirst(visits, root) && ParentsFirst(sub, root + [n])
    ensures ParentsFirst(visits + sub, root)
  {
    var all := visits + sub;
    forall i | 0 <= i < |all| && all[i] != root ensures all[i] != [] && Parent(all[i]) in all[..i] {
      if i < |visits| {
        assert all[..i] == visits[..i];
      } else {
        assert all[..i] == visits + sub[..i - |visits|];
        if all[i] == root + [n] {
          assert Parent(all[i]) == visits[0];
        }
      }
    }
  }

  lemma WalkedMembers(visits: seq<Path>, sub: seq<Path>, t: Tree, root: Path, done: set<string>, n: string)
    requires root in t && n !in done
    requires forall p :: p in visits <==> p in t && Under(root, p) && (p != root ==> p[|root|] in done)
    requires forall p :: p in sub <==> p in t && Under(root + [n], p)
    ensures forall p :: p in visits + sub <==>
              p in t && Under(root, p) && (p != root ==> p[|root|] in done + {n})
    ensures forall p :: !(p in visits && p in sub)
  {
    forall p | p in sub ensures Under(root, p) && p != root && p[|root|] == n {
      UnderTransitive(root, root + [n], p);
      ChildOnTheWay(root, p);
    }
    forall p | p in t && Under(root, p) && p != root && p[|root|] == n ensures p in sub {
      ChildOnTheWay(root, p);
    }
  }

  lemma WalkedAll(visits: seq<Path>, t: Tree, root: Path, done: set<string>)
    requires WellFormed(t) && WalkedPart(visits, t, root, done)
    requires forall n :: n in done <==> root + [n] in t
    ensures Preorder(visits, t, root)
  {
    forall p | p in t && Under(root, p) && p != root ensures p[|root|] in done {
      ChildOnTheWay(root, p);
    }
  }

  /** What hangs at `p` replaced. */
  function WithTree<V>(t: map<Path, V>, p: Path, sub: map<Path, V>): (r: map<Path, V>)
    ensures forall q :: Lookup(r, q) == if Under(p, q) then Lookup(sub, q[|p|..]) else Lookup(t, q)
  {
    var moved := map q | q in Moved(sub.Keys, p) :: sub[q[|p|..]];
    (map q | q in t && !Under(p, q) :: t[q]) + moved
  }

  function Moved(s: set<Path>, p: Path): (moved: set<Path>)
    ensures forall q :: q in moved <==> Under(p, q) && q[|p|..] in s
  {
    assert forall r :: r in s ==> (p + r)[|p|..] == r;
    assert forall q :: Under(p, q) ==> p + q[|p|..] == q;
    set r | r in s :: p + r
  }

  lemma WithTreeWellFormed(t: Tree, p: Path, sub: Tree)
    requires WellFormed(t) && WellFormed(sub) && p != [] && IsDir(t, Parent(p)) && Names(p)
    ensures WellFormed(WithTree(t, p, sub))
  {
    var r := WithTree(t, p, sub);
    assert forall q :: Lookup(r, q) == if Under(p, q) then Lookup(sub, q[|p|..]) else Lookup(t, q);
    forall a | a in r ensures Names(a) {
      assert Lookup(r, a).Some?;
      if Under(p, a) { assert a == p + a[|p|..]; }
    }
    forall a, q | a in r && Under(q, a) && q != a ensures q in r && r[q].Dir? {
      assert Lookup(r, a).Some?;
      assert Lookup(r, q) == if Under(p, q) then Lookup(sub, q[|p|..]) else Lookup(t, q);
      if Under(p, q) {
        UnderTransitive(p, q, a);
        assert Under(q[|p|..], a[|p|..]);
      } else if Under(p, a) {
        PrefixesCompare(p, q, a);
        UnderParent(q, p);
      }
    }
    assert !Under(p, []);
    assert Lookup(r, []) == Lookup(t, []);
  }

  lemma SameShape(t: Tree, p: Path, n: Node)
    requires WellFormed(t) && p in t && (t[p].Dir? <==> n.Dir?)
    ensures WellFormed(t[p := n])
  {}

  lemma StampedTwice(a: map<Path, int>, b: map<Path, int>, c: map<Path, int>, s: int, s': int, p: Path)
    requires Stamped(a, b, s, p) && Stamped(b, c, s', p) && s <= s'
    ensures Stamped(a, c, s, p)
  {}

  /** What moved above the parent moved above the child. */
  lemma StampedParent(before: map<Path, int>, after: map<Path, int>, since: int, p: Path)
    requires p != [] && Stamped(before, after, since, Parent(p))
    ensures Stamped(before, after, since, p)
  {
    forall q | Under(q, Parent(p)) ensures Under(q, p) { UnderTransitive(q, Parent(p), p); }
  }
}
