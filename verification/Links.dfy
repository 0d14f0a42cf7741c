/** Symbolic links as the kernel follows them, and when following them cannot leave a directory. */
module Links {
  import opened Wrappers
  import opened Text
  import opened LexicalPath
  import opened SafePaths
  import opened Trees

  /** How many links one lookup follows before it gives up. */
  const MAX_HOPS: nat := 40

  /** Where the components `todo` lead from the directory `at`, every link on the way and at the end
      followed: an entry, or the free place of one; none when there is no way. */
  function Follow(t: Tree, at: Path, todo: seq<string>, hops: nat): Option<Path>
    decreases hops, |todo|
  {
    if todo == [] then Some(at)
    else
      var c, rest := todo[0], todo[1..];
      if c == "" || c == "." then Follow(t, at, rest, hops)
      else if c == ".." then Follow(t, Up(at), rest, hops)
      else
        var next := at + [c];
        if next !in t then if rest == [] then Some(next) else None
        else
          match t[next]
          case Dir(_) => Follow(t, next, rest, hops)
          case File(_, _) => if rest == [] then Some(next) else None
          case Other => if rest == [] then Some(next) else None
          case Link(target) =>
            if hops == 0 then None
            else Follow(t, if IsAbs(target) then [] else at, Split(target) + rest, hops - 1)
  }

  /** The parent of a directory; the root is its own. */
  function Up(at: Path): Path { if at == [] then [] else Parent(at) }

  /** Where a path leads: what `os.Stat` looks at and `os.OpenFile` opens or creates. */
  function LeadsTo(t: Tree, p: Path): Option<Path> { Follow(t, [], p, MAX_HOPS) }

  /** Where a path leads when a link at its end is not followed: what `os.Lstat` looks at. */
  function OwnPlace(t: Tree, p: Path): Option<Path> {
    if p == [] then Some([])
    else
      var parent := LeadsTo(t, Parent(p));
      if parent.Some? && parent.value in t && t[parent.value].Dir? then Some(parent.value + [p[|p| - 1]]) else None
  }

  /** `n` links in the directory `at`, each to the next, and a directory at the end of them. */
  ghost predicate LinkChain(t: Tree, at: Path, names: seq<string>) {
    && names != [] && Names(names) && IsDir(t, at + [names[|names| - 1]])
    && forall i :: 0 <= i < |names| - 1 ==> at + [names[i]] in t && t[at + [names[i]]] == Link(names[i + 1])
  }

  lemma {:induction false} ChainFollowed(t: Tree, at: Path, names: seq<string>, hops: nat)
    requires LinkChain(t, at, names)
    ensures Follow(t, at, [names[0]], hops) == if |names| - 1 <= hops then Some(at + [names[|names| - 1]]) else None
    decreases |names|
  {
    assert [names[0]][1..] == [] && IsName(names[0]);
    if |names| > 1 {
      assert IsName(names[1]);
      SplitNoSlash(names[1]);
      assert Split(names[1]) + [] == [names[1]] && !IsAbs(names[1]);
      if hops > 0 {
        assert names[1..][|names| - 2] == names[|names| - 1];
        ChainFollowed(t, at, names[1..], hops - 1);
      }
    }
  }

  /** A lookup follows forty links and no more. */
  lemma ChainLimit(t: Tree, at: Path, names: seq<string>)
    requires WellFormed(t) && IsDir(t, at) && LinkChain(t, at, names)
    ensures LeadsTo(t, at + [names[0]]) == if |names| <= 41 then Some(at + [names[|names| - 1]]) else None
  {
    PlaceBelow(t, at, [names[0]]);
    ChainFollowed(t, at, names, MAX_HOPS);
  }

  // ----------------------------------------------------------------- real directories

  /** Inside directories that are there, following goes by name. */
  lemma {:induction false} FollowReal(t: Tree, at: Path, ds: Path, rest: seq<string>, hops: nat)
    requires Names(ds) && forall k :: 0 < k <= |ds| ==> IsDir(t, at + ds[..k])
    ensures Follow(t, at, ds + rest, hops) == Follow(t, at + ds, rest, hops)
    decreases |ds|
  {
    if ds == [] {
      assert ds + rest == rest && at + ds == at;
    } else {
      var next := at + [ds[0]];
      assert ds[..1] == [ds[0]] && IsName(ds[0]);
      forall k | 0 < k <= |ds[1..]| ensures IsDir(t, next + ds[1..][..k]) {
        assert next + ds[1..][..k] == at + ds[..k + 1];
      }
      FollowReal(t, next, ds[1..], rest, hops);
      assert (ds + rest)[1..] == ds[1..] + rest && next + ds[1..] == at + ds;
    }
  }

  /** A lookup below a directory starts there. */
  lemma PlaceBelow(t: Tree, d: Path, rest: seq<string>)
    requires WellFormed(t) && IsDir(t, d)
    ensures LeadsTo(t, d + rest) == Follow(t, d, rest, MAX_HOPS)
  {
    forall k | 0 < k <= |d| ensures IsDir(t, [] + d[..k]) {
      assert [] + d[..k] == d[..k] && Under(d[..k], d);
    }
    FollowReal(t, [], d, rest, MAX_HOPS);
    assert [] + d == d;
  }

  /** An entry of a directory that is no link is where its path says; so is one that is not there. */
  lemma PlaceOfEntry(t: Tree, d: Path, c: string)
    requires WellFormed(t) && IsDir(t, d) && IsName(c) && (d + [c] in t ==> !t[d + [c]].Link?)
    ensures LeadsTo(t, d + [c]) == Some(d + [c])
  {
    PlaceBelow(t, d, [c]);
    assert [c][1..] == [];
  }

  /** Whether a link stands above the last component of a path. */
  ghost predicate PassesLink(t: Tree, p: Path) {
    exists q :: q in t && Under(q, p) && q != p && t[q].Link?
  }

  /** With no link among the components, a lookup ends, if anywhere, where the path says. */
  lemma {:induction false} FollowPlain(t: Tree, at: Path, ds: Path, hops: nat)
    requires Names(ds) && forall k :: 0 < k <= |ds| && at + ds[..k] in t ==> !t[at + ds[..k]].Link?
    ensures var r := Follow(t, at, ds, hops); r.Some? ==> r.value == at + ds
    decreases |ds|
  {
    if ds == [] {
      assert at + ds == at;
    } else {
      var next := at + [ds[0]];
      assert ds[..1] == [ds[0]] && IsName(ds[0]) && next + ds[1..] == at + ds;
      if next in t && t[next].Dir? {
        forall k | 0 < k <= |ds[1..]| && next + ds[1..][..k] in t ensures !t[next + ds[1..][..k]].Link? {
          assert next + ds[1..][..k] == at + ds[..k + 1];
        }
        FollowPlain(t, next, ds[1..], hops);
      }
    }
  }

  /** With no link above its last component, a path is looked at where it says. */
  lemma OwnPlacePlain(t: Tree, p: Path)
    requires WellFormed(t) && Names(p) && p != [] && !PassesLink(t, p)
    ensures OwnPlace(t, p) == if IsDir(t, Parent(p)) then Some(p) else None
  {
    var up := Parent(p);
    forall k | 0 < k <= |up| && [] + up[..k] in t ensures !t[[] + up[..k]].Link? {
      assert [] + up[..k] == p[..k] && Under(p[..k], p) && p[..k] != p;
    }
    FollowPlain(t, [], up, MAX_HOPS);
    assert [] + up == up && up + [p[|p| - 1]] == p;
    if IsDir(t, up) {
      PlaceBelow(t, up, []);
      assert up + [] == up;
    }
  }

  /** A path through a link to a sibling directory. */
  lemma ThroughSibling(t: Tree, root: Path, l: string, a: string, x: string)
    requires WellFormed(t) && IsDir(t, root) && IsName(l) && IsName(a)
    requires root + [l] in t && t[root + [l]] == Link(a) && IsDir(t, root + [a])
    ensures OwnPlace(t, root + [l, x]) == Some(root + [a, x])
  {
    PlaceBelow(t, root, [l]);
    SplitNoSlash(a);
    assert [a] + [] == [a] && [l][1..] == [] && [a][1..] == [];
    assert Follow(t, root, [l], MAX_HOPS) == Follow(t, root, [a], MAX_HOPS - 1);
    assert Follow(t, root, [a], MAX_HOPS - 1) == Some(root + [a]);
    var p := root + [l, x];
    assert Parent(p) == root + [l] && p[|p| - 1] == x && root + [a] + [x] == root + [a, x];
  }

  /** What a lookup ends at: an entry, or a free place in a directory. */
  lemma {:induction false} FollowLands(t: Tree, at: Path, todo: seq<string>, hops: nat)
    requires WellFormed(t) && IsDir(t, at) && NoSlashes(todo)
    ensures var r := Follow(t, at, todo, hops);
            r.Some? ==> Names(r.value) && (r.value in t || (r.value != [] && IsDir(t, Parent(r.value))))
    decreases hops, |todo|
  {
    if todo != [] {
      var c, rest := todo[0], todo[1..];
      if c == "" || c == "." {
        FollowLands(t, at, rest, hops);
      } else if c == ".." {
        assert Under(Up(at), at);
        FollowLands(t, Up(at), rest, hops);
      } else if at + [c] in t {
        match t[at + [c]] {
          case Dir(_) => FollowLands(t, at + [c], rest, hops);
          case File(_, _) =>
          case Other =>
          case Link(target) =>
            if hops > 0 { FollowLands(t, if IsAbs(target) then [] else at, Split(target) + rest, hops - 1); }
        }
      } else {
        assert Parent(at + [c]) == at;
      }
    }
  }

  /** Writing a file, or making one where nothing was, changes no lookup. */
  lemma {:induction false} FollowStable(t: Tree, l: Path, n: Node, at: Path, todo: seq<string>, hops: nat)
    requires n.File? && (l in t ==> t[l].File?)
    ensures Follow(t[l := n], at, todo, hops) == Follow(t, at, todo, hops)
    decreases hops, |todo|
  {
    if todo != [] {
      var c, rest := todo[0], todo[1..];
      if c == "" || c == "." {
        FollowStable(t, l, n, at, rest, hops);
      } else if c == ".." {
        FollowStable(t, l, n, Up(at), rest, hops);
      } else if at + [c] in t {
        match t[at + [c]] {
          case Dir(_) => FollowStable(t, l, n, at + [c], rest, hops);
          case File(_, _) =>
          case Other =>
          case Link(target) =>
            if hops > 0 { FollowStable(t, l, n, if IsAbs(target) then [] else at, Split(target) + rest, hops - 1); }
        }
      }
    }
  }

  // ---------------------------------------------------------------- making directories

  /** The directory that `os.MkdirAll` leaves a path leading to: one that is there, or one below a
      directory that is there or will be; none when something is in the way. */
  function MadeAt(t: Tree, p: Path): Option<Path>
    decreases |p|
  {
    var at := LeadsTo(t, p);
    if at.Some? && at.value in t then if t[at.value].Dir? then at else None
    else if p == [] then None
    else
      var up := MadeAt(t, Parent(p));
      if up.None? || up.value + [p[|p| - 1]] in t then None else Some(up.value + [p[|p| - 1]])
  }

  /** Where a new entry goes when its directories are made first. */
  function Landing(t: Tree, p: Path): Path {
    if p == [] || MadeAt(t, Parent(p)).None? then p else MadeAt(t, Parent(p)).value + [p[|p| - 1]]
  }

  /** Nothing that stands is changed. */
  ghost predicate Grows(t: Tree, t': Tree) { forall q :: q in t ==> q in t' && t'[q] == t[q] }

  /** A lookup that has found something finds it again when more is there. */
  lemma {:induction false} FollowGrows(t: Tree, t': Tree, at: Path, todo: seq<string>, hops: nat)
    requires Grows(t, t') && Follow(t, at, todo, hops).Some? && Follow(t, at, todo, hops).value in t
    ensures Follow(t', at, todo, hops) == Follow(t, at, todo, hops)
    decreases hops, |todo|
  {
    if todo != [] {
      var c, rest := todo[0], todo[1..];
      if c == "" || c == "." {
        FollowGrows(t, t', at, rest, hops);
      } else if c == ".." {
        FollowGrows(t, t', Up(at), rest, hops);
      } else if at + [c] in t {
        match t[at + [c]] {
          case Dir(_) => FollowGrows(t, t', at + [c], rest, hops);
          case File(_, _) =>
          case Other =>
          case Link(target) =>
            FollowGrows(t, t', if IsAbs(target) then [] else at, Split(target) + rest, hops - 1);
        }
      }
    }
  }

  /** A lookup that has come to a directory goes on from there. */
  lemma {:induction false} FollowOn(t: Tree, at: Path, todo: seq<string>, rest: seq<string>, hops: nat)
    returns (left: nat)
    requires Follow(t, at, todo, hops).Some? && IsDir(t, Follow(t, at, todo, hops).value)
    ensures Follow(t, at, todo + rest, hops) == Follow(t, Follow(t, at, todo, hops).value, rest, left)
    decreases hops, |todo|
  {
    left := hops;
    if todo == [] {
      assert todo + rest == rest;
    } else {
      var c, more := todo[0], todo[1..];
      assert (todo + rest)[0] == c && (todo + rest)[1..] == more + rest;
      if c == "" || c == "." {
        left := FollowOn(t, at, more, rest, hops);
      } else if c == ".." {
        left := FollowOn(t, Up(at), more, rest, hops);
      } else {
        match t[at + [c]] {
          case Dir(_) => left := FollowOn(t, at + [c], more, rest, hops);
          case Link(target) =>
            assert Split(target) + (more + rest) == Split(target) + more + rest;
            left := FollowOn(t, if IsAbs(target) then [] else at, Split(target) + more, rest, hops - 1);
          case _ => assert false;
        }
      }
    }
  }

  /** One name further, without a link there. */
  lemma FollowOne(t: Tree, p: Path, c: string)
    requires LeadsTo(t, p).Some? && IsDir(t, LeadsTo(t, p).value) && IsName(c)
    requires var x := LeadsTo(t, p).value + [c]; x in t ==> !t[x].Link?
    ensures LeadsTo(t, p + [c]) == Some(LeadsTo(t, p).value + [c])
  {
    var left := FollowOn(t, [], p, [c], MAX_HOPS);
    assert [c][1..] == [];
  }

  /** The directory can be made where it stands, and the path then leads there. */
  lemma {:induction false} MadeLeads(t: Tree, p: Path, perm: Perm)
    requires WellFormed(t) && Names(p) && MadeAt(t, p).Some?
    ensures var x := MadeAt(t, p).value;
            && Names(x) && CanMkdir(t, x) && x in WithDirs(t, x, perm) && IsDir(WithDirs(t, x, perm), x)
            && LeadsTo(WithDirs(t, x, perm), p) == Some(x)
    decreases |p|
  {
    var x := MadeAt(t, p).value;
    var at := LeadsTo(t, p);
    if at.Some? && at.value in t {
      assert x == at.value;
    } else {
      var up, c := MadeAt(t, Parent(p)).value, p[|p| - 1];
      MadeLeads(t, Parent(p), perm);
      assert Parent(x) == up && p == Parent(p) + [c];
      var made, after := WithDirs(t, up, perm), WithDirs(t, x, perm);
      assert after == made[x := Dir(perm)];
      MadeBelow(t, up, c, perm);
      FollowGrows(made, after, [], Parent(p), MAX_HOPS);
      FollowOne(after, Parent(p), c);
    }
  }

  /** What is free before directories are made on the way is free after. */
  lemma MadeBelow(t: Tree, up: Path, c: string, perm: Perm)
    requires [] in t
    ensures up + [c] in WithDirs(t, up, perm) <==> up + [c] in t
  {
    assert !Under(up + [c], up);
  }

  /** A directory that can be made where its path says is made there. */
  lemma {:induction false} MadePlain(t: Tree, p: Path)
    requires WellFormed(t) && Names(p) && CanMkdir(t, p)
    ensures MadeAt(t, p) == Some(p)
    decreases |p|
  {
    if p in t {
      PlaceBelow(t, p, []);
      assert p + [] == p;
    } else {
      MadePlain(t, Parent(p));
      assert p == Parent(p) + [p[|p| - 1]];
      MadeAround(t, p);
    }
  }

  lemma MadeAround(t: Tree, p: Path)
    requires WellFormed(t) && Names(p) && p !in t && CanMkdir(t, p)
    ensures LeadsTo(t, p).Some? ==> LeadsTo(t, p).value !in t
  {
    forall k | 0 < k <= |p| && [] + p[..k] in t ensures !t[[] + p[..k]].Link? {
      assert [] + p[..k] == p[..k] && Under(p[..k], p);
      CanMkdirMeaning(t, p, p[..k]);
    }
    FollowPlain(t, [], p, MAX_HOPS);
    assert [] + p == p;
  }

  /** No link stands at `p` or above it. */
  ghost predicate NoLinkAt(t: Tree, p: Path) { forall q :: q in t && Under(q, p) ==> !t[q].Link? }

  /** Without links on the way, it is made there or not at all. */
  lemma {:induction false} MadeOrNot(t: Tree, p: Path)
    requires WellFormed(t) && Names(p) && NoLinkAt(t, p)
    ensures MadeAt(t, p) == if CanMkdir(t, p) then Some(p) else None
    decreases |p|
  {
    if CanMkdir(t, p) {
      MadePlain(t, p);
    } else if p in t {
      assert p != [];
      assert Under(Parent(p), p);
      assert p == Parent(p) + [p[|p| - 1]];
      PlaceOfEntry(t, Parent(p), p[|p| - 1]);
    } else {
      forall q | q in t && Under(q, Parent(p)) ensures !t[q].Link? { UnderTransitive(q, Parent(p), p); }
      MadeOrNot(t, Parent(p));
      forall k | 0 < k <= |p| && [] + p[..k] in t ensures !t[[] + p[..k]].Link? {
        assert [] + p[..k] == p[..k] && Under(p[..k], p);
      }
      FollowPlain(t, [], p, MAX_HOPS);
      assert [] + p == p;
    }
  }

  /** A directory at an entry of a directory: one there does, and so does a link to one. */
  lemma MadeEntry(t: Tree, p: Path)
    requires WellFormed(t) && Names(p) && p != [] && IsDir(t, Parent(p))
    ensures MadeAt(t, p) ==
            if p !in t then Some(p)
            else if LeadsTo(t, p).Some? && IsDir(t, LeadsTo(t, p).value) then LeadsTo(t, p)
            else None
  {
    assert p == Parent(p) + [p[|p| - 1]];
    MadePlain(t, Parent(p));
    if p !in t { PlaceOfEntry(t, Parent(p), p[|p| - 1]); }
  }

  // -------------------------------------------------------------------- new entries

  /** Whether a new entry finds its place once its directories are made. */
  ghost predicate CanPlace(t: Tree, p: Path) {
    p != [] && MadeAt(t, Parent(p)).Some? && Landing(t, p) !in t
  }

  /** The tree with the entry in place. */
  ghost function PlacedAt(t: Tree, p: Path, n: Node): Tree
    requires [] in t && CanPlace(t, p)
  {
    WithDirs(t, MadeAt(t, Parent(p)).value, PUBLIC_DIR)[Landing(t, p) := n]
  }

  /** Where directories can be made as the path says, the entry goes where the path says. */
  lemma PlacePlain(t: Tree, p: Path, n: Node)
    requires WellFormed(t) && Names(p) && p != [] && CanMkdir(t, Parent(p))
    ensures Landing(t, p) == p && (CanPlace(t, p) <==> p !in t)
    ensures p !in t ==> PlacedAt(t, p, n) == WithDirs(t, Parent(p), PUBLIC_DIR)[p := n]
  {
    MadePlain(t, Parent(p));
    assert p == Parent(p) + [p[|p| - 1]];
  }

  // --------------------------------------------------------------------- containment

  /** Walking `cs` from the directory `at` never takes `..` after a component that is a link. */
  predicate Straight(t: Tree, at: Path, cs: seq<string>)
    decreases |cs|
  {
    if cs == [] then true
    else if cs[0] == "" || cs[0] == "." then Straight(t, at, cs[1..])
    else if cs[0] == ".." then Straight(t, Up(at), cs[1..])
    else if at + [cs[0]] in t && t[at + [cs[0]]].Link? then ".." !in cs[1..]
    else Straight(t, at + [cs[0]], cs[1..])
  }

  /** Every link below `root` is relative, never rises above `root`, and takes no `..` after a link. */
  ghost predicate Tame(t: Tree, root: Path) {
    forall q :: q in t && Under(root, q) && q != root && t[q].Link? ==> TameLink(t, root, q, t[q].target)
  }

  predicate TameLink(t: Tree, root: Path, q: Path, target: string)
    requires Under(root, q) && q != root
  {
    !IsAbs(target) && NeverRises(|q| - |root| - 1, Split(target)) && Straight(t, Parent(q), Split(target))
  }

  lemma NeverRisesRest(depth: nat, cs: seq<string>)
    requires cs != [] && NeverRises(depth, cs)
    ensures depth + Height(cs[..1]) >= 0 && NeverRises(depth + Height(cs[..1]), cs[1..])
  {
    var low := depth + Height(cs[..1]);
    forall k | 0 <= k <= |cs[1..]| ensures low + Height(cs[1..][..k]) >= 0 {
      HeightOfOne(cs);
      assert depth + Height(cs[..k + 1]) >= 0;
      assert cs[..k + 1][1..] == cs[1..][..k] && cs[..k + 1][0] == cs[0];
    }
  }

  lemma HeightOfOne(cs: seq<string>)
    requires cs != []
    ensures Height(cs[..1]) == if cs[0] == "" || cs[0] == "." then 0 else if cs[0] == ".." then -1 else 1
  {
    assert cs[..1][1..] == [];
  }

  lemma {:induction false} HeightConcat(a: seq<string>, b: seq<string>)
    ensures Height(a + b) == Height(a) + Height(b)
    decreases |a|
  {
    if a == [] {
      assert a + b == b;
    } else {
      HeightConcat(a[1..], b);
      assert (a + b)[1..] == a[1..] + b;
    }
  }

  lemma {:induction false} NoDotsRise(cs: seq<string>)
    requires ".." !in cs
    ensures Height(cs) >= 0
    decreases |cs|
  {
    if cs != [] { NoDotsRise(cs[1..]); }
  }

  /** Going on without `..` keeps a walk from rising. */
  lemma NeverRisesOn(depth: nat, a: seq<string>, b: seq<string>)
    requires NeverRises(depth, a) && ".." !in b
    ensures NeverRises(depth, a + b)
  {
    forall k | 0 <= k <= |a + b| ensures depth + Height((a + b)[..k]) >= 0 {
      if k <= |a| {
        assert (a + b)[..k] == a[..k];
      } else {
        assert (a + b)[..k] == a[..|a|] + b[..k - |a|];
        HeightConcat(a[..|a|], b[..k - |a|]);
        NoDotsRise(b[..k - |a|]);
      }
    }
  }

  lemma {:induction false} StraightOn(t: Tree, at: Path, a: seq<string>, b: seq<string>)
    requires Straight(t, at, a) && ".." !in b
    ensures Straight(t, at, a + b)
    decreases |a| + |b|
  {
    if a == [] {
      assert a + b == b;
      if b != [] {
        assert b[0] in b;
        if b[0] == "" || b[0] == "." { StraightOn(t, at, [], b[1..]); assert [] + b[1..] == b[1..]; }
        else { StraightOn(t, at + [b[0]], [], b[1..]); assert [] + b[1..] == b[1..]; }
      }
    } else {
      assert (a + b)[1..] == a[1..] + b;
      if a[0] == "" || a[0] == "." { StraightOn(t, at, a[1..], b); }
      else if a[0] == ".." { StraightOn(t, Up(at), a[1..], b); }
      else if !(at + [a[0]] in t && t[at + [a[0]]].Link?) { StraightOn(t, at + [a[0]], a[1..], b); }
    }
  }

  /** Straightness is a matter of the tree below the root alone, for walks that do not rise above it. */
  lemma {:induction false} StraightShift(t: Tree, root: Path, s: Tree, at: Path, cs: seq<string>)
    requires forall r :: Lookup(t, root + r) == Lookup(s, r)
    requires NeverRises(|at|, cs)
    ensures Straight(t, root + at, cs) <==> Straight(s, at, cs)
    decreases |cs|
  {
    if cs != [] {
      NeverRisesRest(|at|, cs);
      HeightOfOne(cs);
      if cs[0] == "" || cs[0] == "." {
        StraightShift(t, root, s, at, cs[1..]);
      } else if cs[0] == ".." {
        assert Up(root + at) == root + Up(at);
        StraightShift(t, root, s, Up(at), cs[1..]);
      } else {
        var next := at + [cs[0]];
        assert root + at + [cs[0]] == root + next && Lookup(t, root + next) == Lookup(s, next);
        StraightShift(t, root, s, next, cs[1..]);
      }
    }
  }

  /** So is tameness. */
  lemma TameShift(t: Tree, root: Path, s: Tree)
    requires (forall r :: Lookup(t, root + r) == Lookup(s, r)) && Tame(s, [])
    ensures Tame(t, root)
  {
    forall q | q in t && Under(root, q) && q != root && t[q].Link? ensures TameLink(t, root, q, t[q].target) {
      var r := q[|root|..];
      assert q == root + r && Lookup(t, root + r) == Lookup(s, r);
      assert TameLink(s, [], r, s[r].target);
      assert Parent(q) == root + Parent(r);
      StraightShift(t, root, s, Parent(r), Split(t[q].target));
    }
  }

  /** Names alone take no `..` at all. */
  lemma StraightNames(t: Tree, d: Path, way: seq<string>)
    requires ".." !in way
    ensures NeverRises(0, way) && Straight(t, d, way)
  {
    assert NeverRises(0, []) by { assert forall k :: 0 <= k <= 0 ==> Height([][..k]) == 0; }
    NeverRisesOn(0, [], way);
    StraightOn(t, d, [], way);
    assert [] + way == way;
  }

  /** Containment: below a root whose links are all tame, no straight walk that does not rise above
      the root is led out of it, whatever links it meets. */
  lemma {:induction false} Contained(t: Tree, root: Path, at: Path, todo: seq<string>, hops: nat)
    requires Tame(t, root) && Under(root, at)
    requires NeverRises(|at| - |root|, todo) && Straight(t, at, todo)
    ensures var r := Follow(t, at, todo, hops); r.Some? ==> Under(root, r.value)
    decreases hops, |todo|
  {
    if todo != [] {
      var c, rest := todo[0], todo[1..];
      NeverRisesRest(|at| - |root|, todo);
      HeightOfOne(todo);
      if c == "" || c == "." {
        Contained(t, root, at, rest, hops);
      } else if c == ".." {
        assert Under(root, Up(at));
        Contained(t, root, Up(at), rest, hops);
      } else if at + [c] in t && t[at + [c]].Link? {
        ContainedLink(t, root, at, c, rest, hops);
      } else if at + [c] in t && t[at + [c]].Dir? {
        Contained(t, root, at + [c], rest, hops);
      }
    }
  }

  lemma {:induction false} ContainedLink(t: Tree, root: Path, at: Path, c: string, rest: seq<string>, hops: nat)
    requires Tame(t, root) && Under(root, at)
    requires at + [c] in t && t[at + [c]].Link? && ".." !in rest
    ensures var target := t[at + [c]].target;
            hops > 0 ==>
              !IsAbs(target) && var r := Follow(t, at, Split(target) + rest, hops - 1); r.Some? ==> Under(root, r.value)
    decreases hops, 0
  {
    var target := t[at + [c]].target;
    assert Under(root, at + [c]) && at + [c] != root && Parent(at + [c]) == at;
    assert TameLink(t, root, at + [c], target);
    if hops > 0 {
      NeverRisesOn(|at| - |root|, Split(target), rest);
      StraightOn(t, at, Split(target), rest);
      Contained(t, root, at, Split(target) + rest, hops - 1);
    }
  }

  /** The lexical check alone does not contain: a link up one level inside a directory, and a link
      through it and up again, are both accepted at every root, and the second leads to the parent
      of the root. */
  lemma EscapingPair(t: Tree, root: Path, d: string, l: string, e: string)
    requires WellFormed(t) && root != [] && IsDir(t, root) && IsName(d) && IsName(l) && IsName(e)
    requires IsDir(t, root + [d])
    requires root + [d, l] in t && t[root + [d, l]] == Link("..")
    requires root + [e] in t && t[root + [e]] == Link(d + "/" + l + "/..")
    ensures LinkStays(root, [d], "..") && LinkStays(root, [], d + "/" + l + "/..")
    ensures LeadsTo(t, root + [e]) == Some(Parent(root))
    ensures forall c :: IsName(c) && (Parent(root) + [c] in t ==> t[Parent(root) + [c]].File?) ==>
              LeadsTo(t, root + [e, c]) == Some(Parent(root) + [c])
  {
    PairAccepted(root, d, l);
    PairFollow(t, root, d, l, e, []);
    PlaceBelow(t, root, [e]);
    assert [e] + [] == [e];
    forall c | IsName(c) && (Parent(root) + [c] in t ==> t[Parent(root) + [c]].File?)
      ensures LeadsTo(t, root + [e, c]) == Some(Parent(root) + [c])
    {
      PairFollow(t, root, d, l, e, [c]);
      PlaceBelow(t, root, [e, c]);
      assert [e] + [c] == [e, c] && [c][1..] == [];
    }
  }

  lemma PairAccepted(root: Path, d: string, l: string)
    requires IsName(d) && IsName(l)
    ensures LinkStays(root, [d], "..") && LinkStays(root, [], d + "/" + l + "/..")
  {
    PairTargets(d, l);
  }

  lemma PairTargets(d: string, l: string)
    requires IsName(d) && IsName(l)
    ensures Split("..") == [".."] && !IsAbs("..")
    ensures Split(d + "/" + l + "/..") == [d, l, ".."] && !IsAbs(d + "/" + l + "/..")
    ensures NeverRises(1, [".."]) && NeverRises(0, [d, l, ".."])
  {
    PairHeights(d, l);
    SplitNoSlash("..");
    SplitNoSlash(d);
    SplitNoSlash(l);
    var tail := l + "/" + "..";
    SplitConcat(l, "..");
    SplitConcat(d, tail);
    assert d + "/" + l + "/.." == d + "/" + tail;
    assert [d] + ([l] + [".."]) == [d, l, ".."];
    assert (d + "/" + tail)[0] == d[0];
  }

  lemma PairHeights(d: string, l: string)
    requires IsName(d) && IsName(l)
    ensures NeverRises(1, [".."]) && NeverRises(0, [d, l, ".."])
  {
    HeightOfOne([".."]);
    assert [".."][..1] == [".."] && [".."][..0] == [];
    HeightOfOne([d]);
    HeightOfOne([l]);
    var cs := [d, l, ".."];
    assert [d][..1] == [d] && [l][..1] == [l];
    HeightConcat([d], [l]);
    HeightConcat([d] + [l], [".."]);
    assert cs[..0] == [] && cs[..1] == [d] && cs[..2] == [d] + [l] && cs[..3] == [d] + [l] + [".."];
  }

  lemma PairFollow(t: Tree, root: Path, d: string, l: string, e: string, rest: seq<string>)
    requires root != [] && IsName(d) && IsName(l) && IsName(e) && IsDir(t, root + [d])
    requires root + [d, l] in t && t[root + [d, l]] == Link("..")
    requires root + [e] in t && t[root + [e]] == Link(d + "/" + l + "/..")
    ensures Follow(t, root, [e] + rest, MAX_HOPS) == Follow(t, Parent(root), rest, MAX_HOPS - 2)
  {
    PairTargets(d, l);
    FollowLink(t, root, e, rest, MAX_HOPS);
    var a, b := [d, l, ".."] + rest, [l, ".."] + rest;
    assert a[1..] == b;
    assert Follow(t, root, a, MAX_HOPS - 1) == Follow(t, root + [d], b, MAX_HOPS - 1);
    assert root + [d] + [l] == root + [d, l] && b == [l] + ([".."] + rest);
    FollowLink(t, root + [d], l, [".."] + rest, MAX_HOPS - 1);
    FollowUp(t, root + [d], [".."] + rest, MAX_HOPS - 2);
    FollowUp(t, root, rest, MAX_HOPS - 2);
    assert Up(root + [d]) == root;
  }

  /** One link followed. */
  lemma FollowLink(t: Tree, at: Path, c: string, rest: seq<string>, hops: nat)
    requires IsName(c) && at + [c] in t && t[at + [c]].Link? && hops > 0
    ensures var target := t[at + [c]].target;
            Follow(t, at, [c] + rest, hops)
            == Follow(t, if IsAbs(target) then [] else at, Split(target) + rest, hops - 1)
  {
    assert ([c] + rest)[1..] == rest;
  }

  /** One step up. */
  lemma FollowUp(t: Tree, at: Path, rest: seq<string>, hops: nat)
    ensures Follow(t, at, [".."] + rest, hops) == Follow(t, Up(at), rest, hops)
  {
    assert ([".."] + rest)[1..] == rest;
  }
}
