/** File trees as finite maps from locations to nodes, and the arithmetic of their contents. */
module Trees {
  import opened Wrappers
  import opened LexicalPath

  /** The nine permission bits of a mode. */
  type Perm = bv9

  const PUBLIC_DIR: Perm := 0x1ED    // 0755
  const PRIVATE_DIR: Perm := 0x1E8   // 0750
  const READ_ONLY: Perm := 0x16D     // 0555
  const METADATA_FILE: Perm := 0x1A4 // 0644

  function ReadOnly(perm: Perm): Perm { perm & READ_ONLY }

  datatype Node =
    | Dir(perm: Perm)
    | File(bytes: string, perm: Perm)
    | Link(target: string)
    | Other

  type Tree = map<Path, Node>

  function Lookup<V>(t: map<Path, V>, p: Path): Option<V> {
    if p in t then Some(t[p]) else None
  }

  function Parent(p: Path): Path
    requires p != []
  {
    p[..|p| - 1]
  }

  /** Every entry lies in directories, down from the root. */
  ghost predicate WellFormed(t: Tree) {
    && [] in t
    && (forall p :: p in t ==> Names(p))
    && (forall p, q {:trigger Under(q, p), p in t} ::
          p in t && Under(q, p) && q != p ==> q in t && t[q].Dir?)
    && t[[]].Dir?
  }

  ghost predicate IsDir(t: Tree, p: Path) { p in t && t[p].Dir? }

  /** The entries at and below `root`. */
  ghost function Below(t: Tree, root: Path): set<Path> {
    set p | p in t && Under(root, p)
  }

  /** The tree with everything at and below `root` removed. */
  function Without(t: Tree, root: Path): Tree {
    map p | p in t && !Under(root, p) :: t[p]
  }

  /** The tree seen from `root`. */
  ghost function Subtree(t: Tree, root: Path): (s: Tree)
    ensures forall r :: r in s <==> root + r in t
    ensures forall r :: r in s ==> s[r] == t[root + r]
  {
    var s := map p | p in Rebased(t, root) :: t[root + p];
    assert forall r :: root + r in t ==> (root + r)[|root|..] == r && Under(root, root + r);
    s
  }

  ghost function Rebased(t: Tree, root: Path): (s: set<Path>)
    ensures forall r :: r in s ==> root + r in t
  {
    var s := set p | p in t && Under(root, p) :: p[|root|..];
    assert forall p :: p in t && Under(root, p) ==> root + p[|root|..] == p;
    s
  }

  /** Whether every existing ancestor of `p`, and `p` itself, is a directory. */
  predicate CanMkdir(t: Tree, p: Path)
    decreases |p|
  {
    if p in t then t[p].Dir? else p != [] && CanMkdir(t, Parent(p))
  }

  /** The tree with `p` and its missing ancestors added as directories. */
  function WithDirs(t: Tree, p: Path, perm: Perm): (r: Tree)
    requires [] in t
    ensures forall q :: q in t ==> q in r && r[q] == t[q]
    ensures forall q :: q in r && q !in t ==> Under(q, p) && r[q] == Dir(perm)
    ensures p in r
    decreases |p|
  {
    if p in t then t else WithDirs(t, Parent(p), perm)[p := Dir(perm)]
  }

  // ------------------------------------------------------------- path facts

  lemma UnderParent(q: Path, p: Path)
    requires p != [] && Under(q, p) && q != p
    ensures Under(q, Parent(p))
  {
    assert q == p[..|q|] == Parent(p)[..|q|];
  }

  lemma UnderTransitive(a: Path, b: Path, c: Path)
    requires Under(a, b) && Under(b, c)
    ensures Under(a, c)
  {
    assert a == b[..|a|] == c[..|a|];
  }

  /** Two prefixes of one path are comparable. */
  lemma PrefixesCompare(a: Path, b: Path, p: Path)
    requires Under(a, p) && Under(b, p)
    ensures Under(a, b) || Under(b, a)
  {
    if |a| <= |b| {
      assert a == p[..|a|] == b[..|a|];
    } else {
      assert b == p[..|b|] == a[..|b|];
    }
  }

  /** A strict descendant lies at or below exactly one child. */
  lemma ChildOnTheWay(root: Path, p: Path)
    requires Under(root, p) && p != root
    ensures Under(root + [p[|root|]], p)
    ensures forall c :: Under(root + [c], p) ==> c == p[|root|]
  {
    assert p[..|root| + 1] == root + [p[|root|]];
    forall c | Under(root + [c], p) ensures c == p[|root|] {
      assert (root + [c])[|root|] == p[|root|];
    }
  }

  lemma {:induction false} CanMkdirMeaning(t: Tree, p: Path, q: Path)
    requires WellFormed(t) && CanMkdir(t, p) && Under(q, p) && q in t
    ensures t[q].Dir?
    decreases |p|
  {
    if p !in t {
      UnderParent(q, p);
      CanMkdirMeaning(t, Parent(p), q);
    }
  }

  lemma {:induction false} WithDirsPrefixes(t: Tree, p: Path, perm: Perm, q: Path)
    requires WellFormed(t) && Under(q, p)
    ensures q in WithDirs(t, p, perm)
    decreases |p|
  {
    if p !in t && q != p {
      UnderParent(q, p);
      WithDirsPrefixes(t, Parent(p), perm, q);
    }
  }

  /** Making directories keeps a tree well formed. */
  lemma WithDirsWellFormed(t: Tree, p: Path, perm: Perm)
    requires WellFormed(t) && Names(p) && CanMkdir(t, p)
    ensures WellFormed(WithDirs(t, p, perm))
  {
    var r := WithDirs(t, p, perm);
    forall a, q | a in r && Under(q, a) && q != a ensures q in r && r[q].Dir? {
      if a !in t {
        UnderTransitive(q, a, p);
        WithDirsPrefixes(t, p, perm, q);
        if q in t { CanMkdirMeaning(t, p, q); }
      }
    }
    forall a | a in r ensures Names(a) {
      if a !in t { assert a == p[..|a|]; }
    }
  }

  /** Adding an entry to a directory keeps a tree well formed. */
  lemma EntryWellFormed(t: Tree, p: Path, n: Node)
    requires WellFormed(t) && p != [] && p !in t && IsDir(t, Parent(p)) && Names(p)
    ensures WellFormed(t[p := n])
  {
    var r := t[p := n];
    forall a, q | a in r && Under(q, a) && q != a ensures q in r && r[q].Dir? {
      if a == p {
        UnderParent(q, p);
        if q != Parent(p) { assert Under(q, Parent(p)); }
      } else {
        assert q in t;
      }
    }
  }

  lemma WithoutWellFormed(t: Tree, root: Path)
    requires WellFormed(t) && root != []
    ensures WellFormed(Without(t, root))
  {
    var r := Without(t, root);
    forall a, q | a in r && Under(q, a) && q != a ensures q in r && r[q].Dir? {
      if Under(root, q) { UnderTransitive(root, q, a); }
    }
  }

  lemma SameTree<V>(a: map<Path, V>, b: map<Path, V>)
    requires forall r :: Lookup(a, r) == Lookup(b, r)
    ensures a == b
  {
    forall r ensures r in a <==> r in b { assert Lookup(a, r) == Lookup(b, r); }
    forall r | r in a ensures a[r] == b[r] { assert Lookup(a, r) == Lookup(b, r); }
  }

  // ------------------------------------------------------------------- totals

  /** The sum of a finite table of sizes. */
  ghost function Sum<K(!new)>(w: map<K, nat>): nat
    decreases |w|
  {
    if w == map[] then 0
    else
      var k :| k in w;
      assert |w - {k}| < |w| by { assert (w - {k}).Keys == w.Keys - {k}; }
      w[k] + Sum(w - {k})
  }

  /** Any entry can be taken out first. */
  lemma {:induction false} SumRemove<K(!new)>(w: map<K, nat>, k: K)
    requires k in w
    ensures Sum(w) == w[k] + Sum(w - {k})
    ensures |w| == 1 + |w - {k}|
    decreases |w|
  {
    assert (w - {k}).Keys == w.Keys - {k};
    var first :| first in w && Sum(w) == w[first] + Sum(w - {first});
    if first != k {
      assert (w - {first}).Keys == w.Keys - {first};
      SumRemove(w - {first}, k);
      SumRemove(w - {k}, first);
      assert w - {first} - {k} == w - {k} - {first};
    }
  }

  lemma SumInsert<K(!new)>(w: map<K, nat>, k: K, n: nat)
    requires k !in w
    ensures Sum(w[k := n]) == Sum(w) + n && |w[k := n]| == |w| + 1
  {
    SumRemove(w[k := n], k);
    assert w[k := n] - {k} == w;
  }

  lemma {:induction false} SumDisjoint<K(!new)>(a: map<K, nat>, b: map<K, nat>)
    requires a.Keys !! b.Keys
    ensures Sum(a + b) == Sum(a) + Sum(b) && |a + b| == |a| + |b|
    decreases |a|
  {
    if a == map[] {
      assert a + b == b;
    } else {
      var k :| k in a;
      var a' := a - {k};
      MoveKey(a, b, k);
      SumRemove(a, k);
      SumDisjoint(a', b);
      SumInsert(a' + b, k, a[k]);
    }
  }

  lemma MoveKey<K>(a: map<K, nat>, b: map<K, nat>, k: K)
    requires a.Keys !! b.Keys && k in a
    ensures var a' := a - {k};
            a'.Keys !! b.Keys && k !in a' + b && a + b == (a' + b)[k := a[k]]
  {}

  lemma SumSubset<K(!new)>(a: map<K, nat>, b: map<K, nat>)
    requires a.Keys <= b.Keys && forall k :: k in a ==> a[k] == b[k]
    ensures Sum(a) <= Sum(b) && |a| <= |b|
  {
    Complement(a, b);
    SumDisjoint(a, b - a.Keys);
  }

  lemma Complement<K>(a: map<K, nat>, b: map<K, nat>)
    requires a.Keys <= b.Keys && forall k :: k in a ==> a[k] == b[k]
    ensures a.Keys !! (b - a.Keys).Keys && a + (b - a.Keys) == b
  {
    assert (a + (b - a.Keys)).Keys == b.Keys;
  }
}
