/** The node-local cache: surveying its entries and evicting from them. */
module Cache {
  import opened Wrappers
  import opened LexicalPath
  import opened Links
  import opened Trees
  import opened FileSystems
  import opened Publishing
  import opened Eviction

  datatype Config = Config(rootDir: string, maxSize: int, maxAge: int)

  const DAY: int := 86_400_000_000_000

  /** The limits of a manager: positive ones are kept, the others have defaults. */
  function WithLimits(cfg: Config): (r: Config)
    ensures r.maxSize > 0 && r.maxAge > 0 && r.rootDir == cfg.rootDir
    ensures cfg.maxSize > 0 ==> r.maxSize == cfg.maxSize
    ensures cfg.maxAge > 0 ==> r.maxAge == cfg.maxAge
    ensures cfg.maxSize <= 0 ==> r.maxSize == 10_737_418_240
    ensures cfg.maxAge <= 0 ==> r.maxAge == 24 * 3600 * 1_000_000_000
  {
    Config(cfg.rootDir,
           if cfg.maxSize <= 0 then 10 * 1024 * 1024 * 1024 else cfg.maxSize,
           if cfg.maxAge <= 0 then DAY else cfg.maxAge)
  }

  /** `New`: a root is required, and made. */
  method New(fs: FileSystem, cfg: Config) returns (r: Result<Config>)
    requires fs.Valid() && (cfg.rootDir != "" ==> IsAbs(cfg.rootDir))
    modifies fs
    ensures fs.Valid() && old(fs.now) <= fs.now
    ensures r.Ok? <==> cfg.rootDir != "" && MadeAt(old(fs.nodes), Loc(cfg.rootDir)).Some?
    ensures r.Ok? ==> r.value == WithLimits(cfg)
                      && LeadsTo(fs.nodes, Loc(cfg.rootDir)) == MadeAt(old(fs.nodes), Loc(cfg.rootDir))
                      && fs.nodes == WithDirs(old(fs.nodes), MadeAt(old(fs.nodes), Loc(cfg.rootDir)).value, PRIVATE_DIR)
    ensures r.Ok? ==> var root := MadeAt(old(fs.nodes), Loc(cfg.rootDir)).value;
                      root in fs.nodes && (root !in old(fs.nodes) ==> fs.nodes[root] == Dir(0x1E8))
    ensures r.Err? ==> fs.nodes == old(fs.nodes)
  {
    if cfg.rootDir == "" { return Err; }
    var limited := cfg;
    if limited.maxSize <= 0 { limited := limited.(maxSize := 10 * 1024 * 1024 * 1024); }
    if limited.maxAge <= 0 { limited := limited.(maxAge := DAY); }
    var ok := fs.MkdirAll(Loc(cfg.rootDir), PRIVATE_DIR);
    r := if ok then Ok(limited) else Err;
  }

  // --------------------------------------------------------------------- survey

  /** The sizes of all entries, directories included. */
  ghost function AllSizes(t: Tree, dirSize: nat): map<Path, nat> {
    map r | r in t :: NodeSize(t[r], dirSize)
  }

  /** `item` is what a survey of the entry `name` of `d` yields. */
  ghost predicate IsInfo(t: Tree, m: map<Path, int>, dirSize: nat, d: Path, item: Item) {
    var p := d + [item.name];
    && p in t
    && item.size == Sum(AllSizes(Subtree(t, p), dirSize))
    && (forall q :: q in m && Under(p, q) ==> item.modTime <= m[q])
    && (exists q :: q in m && Under(p, q) && item.modTime == m[q])
  }

  /** A survey does not depend on what happens outside the entry. */
  lemma InfoElsewhere(t: Tree, m: map<Path, int>, t': Tree, m': map<Path, int>, dirSize: nat, d: Path, item: Item)
    requires IsInfo(t, m, dirSize, d, item)
    requires forall q :: Under(d + [item.name], q) ==> Lookup(t', q) == Lookup(t, q) && Lookup(m', q) == Lookup(m, q)
    ensures IsInfo(t', m', dirSize, d, item)
  {
    var p := d + [item.name];
    forall r ensures Lookup(Subtree(t', p), r) == Lookup(Subtree(t, p), r) {
      assert Under(p, p + r);
      assert Lookup(t', p + r) == Lookup(t, p + r);
    }
    SameTree(Subtree(t', p), Subtree(t, p));
    assert Under(p, p) && Lookup(t', p) == Lookup(t, p);
    forall q | q in m' && Under(p, q) ensures item.modTime <= m'[q] { assert Lookup(m', q) == Lookup(m, q); }
    var q :| q in m && Under(p, q) && item.modTime == m[q];
    assert Lookup(m', q) == Lookup(m, q);
  }

  /** `dirInfo`: the walk that adds up sizes and keeps the oldest modification time. */
  method DirInfo(fs: FileSystem, d: Path, name: string) returns (item: Item)
    requires fs.Valid() && d + [name] in fs.nodes
    ensures item.name == name && IsInfo(fs.nodes, fs.mtime, fs.dirSize, d, item)
  {
    var p := d + [name];
    var visits := fs.WalkDir(p);
    ghost var full := AllSizes(Subtree(fs.nodes, p), fs.dirSize);
    ghost var counted, w;
    var size, modTime;
    forall q | q in visits ensures InSizes(q, fs.nodes, p, fs.dirSize, full) { assert q == p + q[|p|..]; }
    size, modTime, counted, w := SurveyVisits(fs, p, visits, full);
    TableComplete(counted, full, fs.nodes, p, visits);
    item := Item(name, size, modTime);
    InfoMade(fs.nodes, fs.mtime, fs.dirSize, d, item, visits, w);
  }

  lemma InfoMade(t: Tree, m: map<Path, int>, dirSize: nat, d: Path, item: Item, visits: seq<Path>, w: nat)
    requires var p := d + [item.name]; p in t && Preorder(visits, t, p) && m.Keys == t.Keys
    requires item.size == Sum(AllSizes(Subtree(t, d + [item.name]), dirSize))
    requires forall j :: 0 <= j < |visits| ==> visits[j] in m && item.modTime <= m[visits[j]]
    requires w < |visits| && item.modTime == m[visits[w]]
    ensures IsInfo(t, m, dirSize, d, item)
  {
    assert visits[w] in visits;
    forall q | q in m && Under(d + [item.name], q) ensures item.modTime <= m[q] {
      assert q in visits;
      var j :| 0 <= j < |visits| && visits[j] == q;
    }
  }

  ghost predicate InSizes(q: Path, t: Tree, p: Path, dirSize: nat, full: map<Path, nat>) {
    q in t && Under(p, q) && q == p + q[|p|..]
    && q[|p|..] in full && full[q[|p|..]] == NodeSize(t[q], dirSize)
  }

  method SurveyVisits(fs: FileSystem, p: Path, visits: seq<Path>, ghost full: map<Path, nat>)
    returns (size: nat, modTime: int, ghost counted: map<Path, nat>, ghost w: nat)
    requires fs.Valid() && Distinct(visits) && visits != []
    requires forall q :: q in visits ==> InSizes(q, fs.nodes, p, fs.dirSize, full)
    ensures Tabled(counted, full, p, visits) && size == Sum(counted)
    ensures forall j :: 0 <= j < |visits| ==> visits[j] in fs.mtime && modTime <= fs.mtime[visits[j]]
    ensures w < |visits| && modTime == fs.mtime[visits[w]]
  {
    size, modTime, counted, w := 0, fs.now, map[], 0;
    forall j | 0 <= j < |visits| ensures visits[j] in fs.mtime && fs.mtime[visits[j]] < fs.now {
      assert InSizes(visits[j], fs.nodes, p, fs.dirSize, full);
    }
    for i := 0 to |visits|
      invariant Tabled(counted, full, p, visits[..i]) && size == Sum(counted)
      invariant forall j :: 0 <= j < i ==> modTime <= fs.mtime[visits[j]]
      invariant w < |visits| && (modTime == fs.mtime[visits[w]] || (i == 0 && modTime == fs.now))
    {
      var q := visits[i];
      assert InSizes(q, fs.nodes, p, fs.dirSize, full);
      counted := TableVisit(counted, full, p, visits, i, q[|p|..]);
      size := size + NodeSize(fs.nodes[q], fs.dirSize);
      if fs.mtime[q] < modTime { modTime, w := fs.mtime[q], i; }
    }
    assert visits[..|visits|] == visits;
  }

  // ------------------------------------------------------------------- eviction

  /** Whether `p` lies in the entry of `d` named by one of `names`. */
  predicate InEntries(d: Path, names: set<string>, p: Path) {
    Under(d, p) && |p| > |d| && p[|d|] in names
  }

  lemma InOneMore(d: Path, names: set<string>, n: string, p: Path)
    ensures InEntries(d, names + {n}, p) <==> InEntries(d, names, p) || Under(d + [n], p)
  {
    if Under(d, p) && |p| > |d| { ChildOnTheWay(d, p); }
    if Under(d + [n], p) { UnderTransitive(d, d + [n], p); ChildOnTheWay(d, p); }
  }

  /** `items` surveys, as they were at the start, the directories of `d` among `names`. */
  ghost predicate Surveyed(t: Tree, m: map<Path, int>, dirSize: nat, d: Path, names: seq<string>, items: seq<Item>) {
    && (forall i :: i in items ==> i.name in names && IsDir(t, d + [i.name]) && IsInfo(t, m, dirSize, d, i))
    && DistinctNames(items)
    && (forall n :: n in names && IsDir(t, d + [n]) ==> exists i :: i in items && i.name == n)
  }

  /** The names of the expired items. */
  function ExpiredNames(items: seq<Item>, now: int, maxAge: int): set<string> {
    set i | i in items && Expired(i, now, maxAge) :: i.name
  }

  /** The cache after some entries have been removed: everything else stands as at the start. */
  ghost predicate Standing(after: Snapshot, start: Snapshot, d: Path, gone: set<string>) {
    match after
    case Snapshot(t, m) =>
      && (forall q :: Lookup(t, q) == if InEntries(d, gone, q) then None else Lookup(start.nodes, q))
      && (forall q :: Under(d, q) && |q| > |d| && !InEntries(d, gone, q) ==>
            Lookup(m, q) == Lookup(start.mtime, q))
  }

  /** An entry that has not been removed can still be surveyed as it was. */
  lemma StillInfo(t: Tree, m: map<Path, int>, t0: Tree, m0: map<Path, int>, d: Path, gone: set<string>,
                  dirSize: nat, item: Item)
    requires Standing(Snapshot(t, m), Snapshot(t0, m0), d, gone) && item.name !in gone && IsInfo(t, m, dirSize, d, item)
    ensures IsInfo(t0, m0, dirSize, d, item)
  {
    var p := d + [item.name];
    forall q | Under(p, q) ensures Lookup(t0, q) == Lookup(t, q) && Lookup(m0, q) == Lookup(m, q) {
      UnderTransitive(d, p, q);
      ChildOnTheWay(d, q);
      assert !InEntries(d, gone, q);
    }
    InfoElsewhere(t, m, t0, m0, dirSize, d, item);
  }

  /** Removing one more entry leaves the rest standing. */
  lemma StandingLess(t: Tree, m: map<Path, int>, m': map<Path, int>, n: int, t0: Tree, m0: map<Path, int>, d: Path,
                     gone: set<string>, name: string)
    requires Standing(Snapshot(t, m), Snapshot(t0, m0), d, gone)
    requires Stamped(m, m', n, d + [name]) && m'.Keys == Without(t, d + [name]).Keys && m.Keys == t.Keys
    ensures Standing(Snapshot(Without(t, d + [name]), m'), Snapshot(t0, m0), d, gone + {name})
  {
    var t' := Without(t, d + [name]);
    forall q ensures Lookup(t', q) == if InEntries(d, gone + {name}, q) then None else Lookup(t0, q) {
      InOneMore(d, gone, name, q);
      assert Lookup(t, q) == if InEntries(d, gone, q) then None else Lookup(t0, q);
    }
    forall q | Under(d, q) && |q| > |d| && !InEntries(d, gone + {name}, q) ensures Lookup(m', q) == Lookup(m0, q) {
      InOneMore(d, gone, name, q);
      assert Under(q, d + [name]) ==> q == d + [name];
      assert Lookup(m, q) == Lookup(m0, q);
    }
  }

  /** How far the first loop has come: `names` have been seen. */
  ghost predicate SurveyState(fs: FileSystem, t0: Tree, m0: map<Path, int>, d: Path, names: seq<string>,
                              items: seq<Item>, total: int, now: int, maxAge: int)
    reads fs
  {
    && Surveyed(t0, m0, fs.dirSize, d, names, items)
    && total == LiveTotal(items, now, maxAge)
    && Standing(Snapshot(fs.nodes, fs.mtime), Snapshot(t0, m0), d, ExpiredNames(items, now, maxAge))
  }

  /** One entry of the first loop: surveyed, counted, and removed when expired. */
  method EvictEntry(fs: FileSystem, d: Path, names: seq<string>, i: nat, now: int, maxAge: int, items: seq<Item>,
                    total: int, ghost t0: Tree, ghost m0: map<Path, int>)
    returns (items': seq<Item>, total': int)
    requires fs.Valid() && WellFormed(t0) && i < |names| && d + [names[i]] in t0 && names[i] !in names[..i]
    requires SurveyState(fs, t0, m0, d, names[..i], items, total, now, maxAge)
    modifies fs
    ensures fs.Valid() && old(fs.now) <= fs.now
    ensures SurveyState(fs, t0, m0, d, names[..i + 1], items', total', now, maxAge)
    ensures Confined(old(fs.nodes), fs.nodes, d)
    ensures Restamped(old(fs.mtime), fs.mtime, old(fs.now), d)
  {
    var name := names[i];
    ghost var gone := ExpiredNames(items, now, maxAge);
    assert names[..i + 1] == names[..i] + [name];
    StandsYet(fs.nodes, fs.mtime, t0, m0, d, gone, name);
    NotGone(t0, m0, fs.dirSize, d, names[..i], items, now, maxAge, name);
    if fs.nodes[d + [name]].Dir? {
      items', total' := EvictDirectory(fs, d, names[..i], name, now, maxAge, items, total, t0, m0);
    } else {
      items', total' := items, total;
      SurveyedFile(t0, m0, fs.dirSize, d, names[..i], name, items);
    }
  }

  /** An entry not seen yet has not been removed. */
  lemma NotGone(t: Tree, m: map<Path, int>, dirSize: nat, d: Path, names: seq<string>, items: seq<Item>, now: int,
                maxAge: int, name: string)
    requires Surveyed(t, m, dirSize, d, names, items) && name !in names
    ensures name !in ExpiredNames(items, now, maxAge)
  {}

  lemma DirectorySurveyed(at: Snapshot, start: Snapshot, dirSize: nat, d: Path, seen: seq<string>, items: seq<Item>,
                          item: Item, now: int, maxAge: int)
    requires Surveyed(start.nodes, start.mtime, dirSize, d, seen, items) && item.name !in seen
    requires Standing(at, start, d, ExpiredNames(items, now, maxAge))
    requires IsDir(start.nodes, d + [item.name]) && IsInfo(at.nodes, at.mtime, dirSize, d, item)
    ensures Surveyed(start.nodes, start.mtime, dirSize, d, seen + [item.name], items + [item])
    ensures LiveTotal(items + [item], now, maxAge) ==
            LiveTotal(items, now, maxAge) + if Expired(item, now, maxAge) then 0 else item.size
    ensures ExpiredNames(items + [item], now, maxAge) ==
            if Expired(item, now, maxAge) then ExpiredNames(items, now, maxAge) + {item.name}
            else ExpiredNames(items, now, maxAge)
  {
    NotGone(start.nodes, start.mtime, dirSize, d, seen, items, now, maxAge, item.name);
    StillInfo(at.nodes, at.mtime, start.nodes, start.mtime, d, ExpiredNames(items, now, maxAge), dirSize, item);
    SurveyedNext(start.nodes, start.mtime, dirSize, d, seen, items, item);
    LiveTotalNext(items, item, now, maxAge);
    ExpiredNext(items, item, now, maxAge);
  }

  method EvictDirectory(fs: FileSystem, d: Path, seen: seq<string>, name: string, now: int, maxAge: int,
                        items: seq<Item>, total: int, ghost t0: Tree, ghost m0: map<Path, int>)
    returns (items': seq<Item>, total': int)
    requires fs.Valid() && WellFormed(t0) && IsDir(t0, d + [name]) && IsDir(fs.nodes, d + [name]) && name !in seen
    requires SurveyState(fs, t0, m0, d, seen, items, total, now, maxAge)
    modifies fs
    ensures fs.Valid() && old(fs.now) <= fs.now
    ensures SurveyState(fs, t0, m0, d, seen + [name], items', total', now, maxAge)
    ensures Confined(old(fs.nodes), fs.nodes, d)
    ensures Restamped(old(fs.mtime), fs.mtime, old(fs.now), d)
  {
    ghost var gone := ExpiredNames(items, now, maxAge);
    var item := DirInfo(fs, d, name);
    DirectorySurveyed(Snapshot(fs.nodes, fs.mtime), Snapshot(t0, m0), fs.dirSize, d, seen, items, item, now, maxAge);
    total' := total + item.size;
    items' := items + [item];
    if now - item.modTime > maxAge {
      RemoveStanding(fs, d, name, t0, m0, gone);
      total' := total' - item.size;
    }
  }

  method RemoveStanding(fs: FileSystem, d: Path, name: string, ghost t0: Tree, ghost m0: map<Path, int>,
                        ghost gone: set<string>)
    requires fs.Valid() && Standing(Snapshot(fs.nodes, fs.mtime), Snapshot(t0, m0), d, gone)
    requires WellFormed(t0) && d + [name] in t0
    modifies fs
    ensures fs.Valid() && old(fs.now) <= fs.now
    ensures Standing(Snapshot(fs.nodes, fs.mtime), Snapshot(t0, m0), d, gone + {name})
    ensures Confined(old(fs.nodes), fs.nodes, d)
    ensures Restamped(old(fs.mtime), fs.mtime, old(fs.now), d)
  {
    assert Parent(d + [name]) == d && Under(d, d + [name]);
    assert Lookup(fs.nodes, d) == Lookup(t0, d);
    NoneAbove(fs.nodes, d + [name]);
    fs.RemoveAll(d + [name]);
    StandingLess(old(fs.nodes), old(fs.mtime), fs.mtime, old(fs.now), t0, m0, d, gone, name);
    ConfinedWider(old(fs.nodes), fs.nodes, d, d + [name]);
    RestampedStep(old(fs.mtime), old(fs.mtime), fs.mtime, old(fs.now), old(fs.now), d, d + [name]);
  }

  /** The first loop: survey every directory entry, remove the expired ones, total the others. */
  method Survey(fs: FileSystem, d: Path, names: seq<string>, maxAge: int)
    returns (items: seq<Item>, total: int)
    requires fs.Valid() && d in fs.nodes
    requires Distinct(names) && forall n :: n in names <==> d + [n] in fs.nodes
    modifies fs
    ensures fs.Valid() && old(fs.now) <= fs.now
    ensures Surveyed(old(fs.nodes), old(fs.mtime), fs.dirSize, d, names, items)
    ensures total == LiveTotal(items, old(fs.now), maxAge)
    ensures Standing(Snapshot(fs.nodes, fs.mtime), Snapshot(old(fs.nodes), old(fs.mtime)), d,
                     ExpiredNames(items, old(fs.now), maxAge))
    ensures Confined(old(fs.nodes), fs.nodes, d)
    ensures Restamped(old(fs.mtime), fs.mtime, old(fs.now), d)
  {
    var now := fs.now;
    ghost var t0, m0 := fs.nodes, fs.mtime;
    items, total := [], 0;
    for i := 0 to |names|
      invariant fs.Valid() && now <= fs.now
      invariant SurveyState(fs, t0, m0, d, names[..i], items, total, now, maxAge)
      invariant Confined(t0, fs.nodes, d)
      invariant Restamped(m0, fs.mtime, now, d)
    {
      assert names[i] !in names[..i] && names[i] in names;
      ghost var t, m, n := fs.nodes, fs.mtime, fs.now;
      items, total := EvictEntry(fs, d, names, i, now, maxAge, items, total, t0, m0);
      ConfinedTransitive(t0, t, fs.nodes, d);
      RestampedOn(m0, m, fs.mtime, now, n, d);
    }
    assert names[..|names|] == names;
  }

  lemma StandsYet(t: Tree, m: map<Path, int>, t0: Tree, m0: map<Path, int>, d: Path, gone: set<string>, name: string)
    requires Standing(Snapshot(t, m), Snapshot(t0, m0), d, gone) && d + [name] in t0
    ensures name !in gone ==> d + [name] in t && t[d + [name]] == t0[d + [name]]
  {
    assert (d + [name])[|d|] == name;
    assert Lookup(t, d + [name]) == if InEntries(d, gone, d + [name]) then None else Lookup(t0, d + [name]);
  }

  lemma SurveyedFile(t: Tree, m: map<Path, int>, dirSize: nat, d: Path, names: seq<string>, name: string,
                     items: seq<Item>)
    requires Surveyed(t, m, dirSize, d, names, items) && !IsDir(t, d + [name])
    ensures Surveyed(t, m, dirSize, d, names + [name], items)
  {}

  lemma SurveyedNext(t: Tree, m: map<Path, int>, dirSize: nat, d: Path, names: seq<string>, items: seq<Item>,
                     item: Item)
    requires Surveyed(t, m, dirSize, d, names, items) && item.name !in names
    requires IsDir(t, d + [item.name]) && IsInfo(t, m, dirSize, d, item)
    ensures Surveyed(t, m, dirSize, d, names + [item.name], items + [item])
  {
    var all := items + [item];
    assert item in all && forall x :: x in items ==> x in all;
    forall n | n in names + [item.name] && IsDir(t, d + [n]) ensures exists x :: x in all && x.name == n {
      if n in names {
        var x :| x in items && x.name == n;
        assert x in all;
      }
    }
  }

  lemma {:induction false} LiveTotalNext(items: seq<Item>, item: Item, now: int, maxAge: int)
    ensures LiveTotal(items + [item], now, maxAge) ==
            LiveTotal(items, now, maxAge) + if Expired(item, now, maxAge) then 0 else item.size
    decreases |items|
  {
    if items == [] {
      assert items + [item] == [item] && [item][1..] == [];
    } else {
      LiveTotalNext(items[1..], item, now, maxAge);
      assert (items + [item])[1..] == items[1..] + [item];
    }
  }

  lemma ExpiredNext(items: seq<Item>, item: Item, now: int, maxAge: int)
    ensures ExpiredNames(items + [item], now, maxAge) ==
            if Expired(item, now, maxAge) then ExpiredNames(items, now, maxAge) + {item.name}
            else ExpiredNames(items, now, maxAge)
  {
    forall x ensures x in items + [item] <==> x in items || x == item {}
  }

  /** The removed names when `n` of the sorted entries have been gone through. */
  ghost function RemovedUpTo(gone: set<string>, sorted: seq<Item>, n: nat): set<string>
    requires n <= |sorted|
  {
    if n == 0 then gone else RemovedUpTo(gone, sorted, n - 1) + {sorted[n - 1].name}
  }

  lemma {:induction false} RemovedUpToNames(gone: set<string>, sorted: seq<Item>, n: nat)
    requires n <= |sorted|
    ensures RemovedUpTo(gone, sorted, n) == gone + NamesOf(sorted[..n])
    decreases n
  {
    if n > 0 {
      RemovedUpToNames(gone, sorted, n - 1);
      assert sorted[..n] == sorted[..n - 1] + [sorted[n - 1]];
    }
  }

  /** How far the second loop has come: the file system `after`, against the one the loop began with
      and the one at the start of the pass. */
  ghost predicate Trimmed(after: Snapshot, now: int, before: Snapshot, n: int, start: Snapshot, d: Path,
                          gone: set<string>)
  {
    match after
    case Snapshot(t, m) =>
      && n <= now && Standing(after, start, d, gone)
      && Confined(before.nodes, t, d) && Restamped(before.mtime, m, n, d)
  }

  /** The items are entries of `d`. */
  ghost predicate Listed(items: seq<Item>, t: Tree, d: Path) {
    WellFormed(t) && forall i :: 0 <= i < |items| ==> d + [items[i].name] in t
  }

  /** One entry of the second loop, and where the loop then stands. */
  method TrimEntry(fs: FileSystem, d: Path, sorted: seq<Item>, i: nat, left: int, max: int, ghost before: Snapshot,
                   ghost n: int, ghost start: Snapshot, ghost gone: set<string>)
    returns (next: nat, left': int)
    requires fs.Valid() && Listed(sorted, start.nodes, d) && i < |sorted| && left > max
    requires Trimmed(Snapshot(fs.nodes, fs.mtime), fs.now, before, n, start, d, RemovedUpTo(gone, sorted, i))
    modifies fs
    ensures fs.Valid() && next == i + 1 && LeftToTrim(sorted, i, left, max) == LeftToTrim(sorted, next, left', max)
    ensures Trimmed(Snapshot(fs.nodes, fs.mtime), fs.now, before, n, start, d, RemovedUpTo(gone, sorted, next))
  {
    next, left' := i + 1, left - sorted[i].size;
    TrimNext(sorted, i, next, left, left', max);
    RemoveSorted(fs, d, sorted, i, next, before, n, start, gone);
  }

  method RemoveSorted(fs: FileSystem, d: Path, sorted: seq<Item>, i: nat, next: nat, ghost before: Snapshot,
                      ghost n: int, ghost start: Snapshot, ghost gone: set<string>)
    requires fs.Valid() && Listed(sorted, start.nodes, d) && i < |sorted| && next == i + 1
    requires Trimmed(Snapshot(fs.nodes, fs.mtime), fs.now, before, n, start, d, RemovedUpTo(gone, sorted, i))
    modifies fs
    ensures fs.Valid()
    ensures Trimmed(Snapshot(fs.nodes, fs.mtime), fs.now, before, n, start, d, RemovedUpTo(gone, sorted, next))
  {
    ghost var t1, m1, n1 := fs.nodes, fs.mtime, fs.now;
    RemoveStanding(fs, d, sorted[i].name, start.nodes, start.mtime, RemovedUpTo(gone, sorted, i));
    ConfinedTransitive(before.nodes, t1, fs.nodes, d);
    RestampedOn(before.mtime, m1, fs.mtime, n, n1, d);
  }

  lemma TrimNext(sorted: seq<Item>, i: nat, next: nat, left: int, left': int, max: int)
    requires i < |sorted| && next == i + 1 && left > max && left' == left - sorted[i].size
    ensures i + Trim(sorted[i..], left, max) == next + Trim(sorted[next..], left', max)
  {
    assert sorted[i..][1..] == sorted[next..];
  }

  /** The second loop: over all surveyed entries again, oldest first, until the total fits. */
  method TrimEntries(fs: FileSystem, d: Path, sorted: seq<Item>, total: int, max: int,
                     ghost before: Snapshot, ghost start: Snapshot, ghost gone: set<string>)
    requires fs.Valid() && Listed(sorted, start.nodes, d)
    requires Trimmed(Snapshot(fs.nodes, fs.mtime), fs.now, before, fs.now, start, d, gone)
    modifies fs
    ensures fs.Valid()
    ensures Trimmed(Snapshot(fs.nodes, fs.mtime), fs.now, before, old(fs.now), start, d,
                    RemovedUpTo(gone, sorted, Trim(sorted, total, max)))
  {
    ghost var n := fs.now;
    var i, left := 0, total;
    assert sorted[0..] == sorted;
    ghost var all := Trim(sorted, total, max);
    while i < |sorted| && left > max
      invariant 0 <= i <= |sorted| && fs.Valid()
      invariant Trimmed(Snapshot(fs.nodes, fs.mtime), fs.now, before, n, start, d, RemovedUpTo(gone, sorted, i))
      invariant LeftToTrim(sorted, i, left, max) == all
    {
      i, left := TrimEntry(fs, d, sorted, i, left, max, before, n, start, gone);
    }
    assert i == all;
  }

  /** How far the loop gets from where it stands. */
  ghost function LeftToTrim(sorted: seq<Item>, i: nat, left: int, max: int): nat
    requires i <= |sorted|
  {
    i + Trim(sorted[i..], left, max)
  }

  method TrimCache(fs: FileSystem, d: Path, sorted: seq<Item>, total: int, max: int,
                   ghost t0: Tree, ghost m0: map<Path, int>, ghost gone: set<string>)
    requires fs.Valid() && Standing(Snapshot(fs.nodes, fs.mtime), Snapshot(t0, m0), d, gone)
    requires Listed(sorted, t0, d)
    modifies fs
    ensures fs.Valid() && old(fs.now) <= fs.now
    ensures Standing(Snapshot(fs.nodes, fs.mtime), Snapshot(t0, m0), d,
                     RemovedUpTo(gone, sorted, Trim(sorted, total, max)))
    ensures Confined(old(fs.nodes), fs.nodes, d)
    ensures Restamped(old(fs.mtime), fs.mtime, old(fs.now), d)
  {
    TrimEntries(fs, d, sorted, total, max, Snapshot(fs.nodes, fs.mtime), Snapshot(t0, m0), gone);
  }

  /** What a pass of eviction did: the survey split by age, the live entries oldest first. */
  ghost predicate Swept(t0: Tree, m0: map<Path, int>, now: int, dirSize: nat, d: Path, cfg: Config,
                       expired: seq<Item>, live: seq<Item>)
  {
    && (forall i :: i in expired + live ==> IsDir(t0, d + [i.name]) && IsInfo(t0, m0, dirSize, d, i))
    && (forall n :: IsDir(t0, d + [n]) ==> exists i :: i in expired + live && i.name == n)
    && DistinctNames(expired + live)
    && (forall i :: i in expired ==> Expired(i, now, cfg.maxAge))
    && (forall i :: i in live ==> !Expired(i, now, cfg.maxAge))
    && OldestFirst(live)
  }

  /** `Evict`: every expired entry goes, and of the live ones the shortest oldest-first prefix that
      brings them to the size limit plus the bytes expired in this pass; the entries that stay
      are untouched, and so is everything outside the cache root. */
  method Evict(fs: FileSystem, root: string, cfg: Config, ghost d: Path)
    returns (ok: bool, ghost expired: seq<Item>, ghost live: seq<Item>)
    requires fs.Valid() && Names(d) && root == Abs(d) && NoLinkAt(fs.nodes, d)
    modifies fs
    ensures fs.Valid() && old(fs.now) <= fs.now
    ensures ok <==> IsDir(old(fs.nodes), d)
    ensures Confined(old(fs.nodes), fs.nodes, d)
    ensures Restamped(old(fs.mtime), fs.mtime, old(fs.now), d)
    ensures !ok ==> fs.nodes == old(fs.nodes) && fs.mtime == old(fs.mtime)
    ensures ok ==> Swept(old(fs.nodes), old(fs.mtime), old(fs.now), fs.dirSize, d, cfg, expired, live)
    ensures ok ==> Standing(Snapshot(fs.nodes, fs.mtime), Snapshot(old(fs.nodes), old(fs.mtime)), d,
                            NamesOf(expired) + NamesOf(live[..LiveRemoved(expired, live, cfg.maxSize)]))
  {
    expired, live := [], [];
    AbsLoc(d);
    if Loc(root) !in fs.nodes || !fs.nodes[Loc(root)].Dir? { return false, [], []; }
    ok := true;
    ghost var t0, m0, now := fs.nodes, fs.mtime, fs.now;
    var names := fs.ReadDir(Loc(root));
    var items, total := Survey(fs, Loc(root), names, cfg.maxAge);
    var sorted := SortByTime(items);
    SortKeeps(items, now, cfg.maxAge);
    SortDistinct(items);
    ghost var k := ExpiredPrefix(sorted, now, cfg.maxAge);
    expired, live := sorted[..k], sorted[k..];
    LiveSplit(sorted, k, now, cfg.maxAge);
    SweptMade(t0, m0, now, fs.dirSize, d, cfg, names, items, sorted, k);
    ghost var gone := ExpiredNames(items, now, cfg.maxAge);
    RemovedNames(sorted, k, total, cfg.maxSize, items, now, cfg.maxAge);
    if total <= cfg.maxSize { return; }
    ghost var t1, m1, n1 := fs.nodes, fs.mtime, fs.now;
    forall i | 0 <= i < |sorted| ensures d + [sorted[i].name] in t0 {
      assert sorted[i] in multiset(sorted);
      assert sorted[i] in items;
    }
    TrimCache(fs, Loc(root), sorted, total, cfg.maxSize, t0, m0, gone);
    ConfinedTransitive(t0, t1, fs.nodes, d);
    RestampedOn(m0, m1, fs.mtime, now, n1, d);
  }

  lemma SweptMade(t0: Tree, m0: map<Path, int>, now: int, dirSize: nat, d: Path, cfg: Config, names: seq<string>,
                 items: seq<Item>, sorted: seq<Item>, k: nat)
    requires Surveyed(t0, m0, dirSize, d, names, items) && forall n :: n in names <==> d + [n] in t0
    requires multiset(sorted) == multiset(items) && OldestFirst(sorted) && DistinctNames(sorted) && k <= |sorted|
    requires forall i :: 0 <= i < k ==> Expired(sorted[i], now, cfg.maxAge)
    requires forall i :: k <= i < |sorted| ==> !Expired(sorted[i], now, cfg.maxAge)
    ensures Swept(t0, m0, now, dirSize, d, cfg, sorted[..k], sorted[k..])
  {
    var expired, live := sorted[..k], sorted[k..];
    forall i ensures i in expired + live <==> i in items {
      assert expired + live == sorted;
      assert i in multiset(sorted) <==> i in multiset(items);
    }
    forall n | IsDir(t0, d + [n]) ensures exists i: Item :: i in expired + live && i.name == n {
      var i :| i in items && i.name == n;
      assert i in expired + live;
    }
  }

  /** The removed names, in terms of the split. */
  lemma RemovedNames(sorted: seq<Item>, k: nat, total: int, max: int, items: seq<Item>, now: int, maxAge: int)
    requires multiset(sorted) == multiset(items) && k <= |sorted| && total == Total(sorted[k..])
    requires forall i :: 0 <= i < k ==> Expired(sorted[i], now, maxAge)
    requires forall i :: k <= i < |sorted| ==> !Expired(sorted[i], now, maxAge)
    ensures var expired, live, gone := sorted[..k], sorted[k..], ExpiredNames(items, now, maxAge);
            var removed := NamesOf(expired) + NamesOf(live[..LiveRemoved(expired, live, max)]);
            (total <= max ==> gone == removed)
            && (total > max ==> RemovedUpTo(gone, sorted, Trim(sorted, total, max)) == removed)
  {
    var expired, live := sorted[..k], sorted[k..];
    assert expired + live == sorted;
    AsWritten(expired, live, max);
    ExpiredAre(sorted, k, items, now, maxAge);
    if total > max {
      RemovedUpToNames(ExpiredNames(items, now, maxAge), sorted, Trim(sorted, total, max));
      PrefixNames(sorted, k, Trim(sorted, total, max));
    }
  }

  lemma PrefixNames(sorted: seq<Item>, k: nat, n: nat)
    requires k <= |sorted| && n <= |sorted|
    ensures NamesOf(sorted[..k]) + NamesOf(sorted[..n]) ==
            NamesOf(sorted[..k]) + NamesOf(sorted[k..][..if n <= k then 0 else n - k])
  {
    if n <= k {
      assert sorted[..n] == sorted[..k][..n];
      assert sorted[k..][..0] == [];
    } else {
      assert sorted[..n] == sorted[..k] + sorted[k..][..n - k];
    }
  }

  lemma ExpiredAre(sorted: seq<Item>, k: nat, items: seq<Item>, now: int, maxAge: int)
    requires multiset(sorted) == multiset(items) && k <= |sorted|
    requires forall i :: 0 <= i < k ==> Expired(sorted[i], now, maxAge)
    requires forall i :: k <= i < |sorted| ==> !Expired(sorted[i], now, maxAge)
    ensures ExpiredNames(items, now, maxAge) == NamesOf(sorted[..k])
  {
    forall i ensures i in items && Expired(i, now, maxAge) <==> i in sorted[..k] {
      assert i in multiset(sorted) <==> i in multiset(items);
      if i in sorted {
        var j :| 0 <= j < |sorted| && sorted[j] == i;
        if j < k { assert sorted[..k][j] == i; }
      }
    }
  }

  // ----------------------------------------------------------------- cache keys

  /** What `Key` feeds to the hash: every part followed by a newline. */
  function Encode(parts: seq<string>): string {
    if parts == [] then "" else parts[0] + "\n" + Encode(parts[1..])
  }

  function Flag(name: string, on: bool): string { name + (if on then "true" else "false") }

  /** The six parts of a cache key. */
  function KeyParts(repo: string, revision: string, path: string, submodules: bool, lfs: bool,
                    profile: string): seq<string> {
    [repo, revision, path, Flag("submodules=", submodules), Flag("lfs=", lfs), profile]
  }

  /** The text that is hashed: six lines, the path's own line ends aside. */
  lemma KeyText(repo: string, revision: string, path: string, submodules: bool, lfs: bool, profile: string)
    ensures Encode(KeyParts(repo, revision, path, submodules, lfs, profile)) ==
            repo + "\n" + (revision + "\n" + (path + "\n"
            + (if submodules then "submodules=true" else "submodules=false") + "\n"
            + (if lfs then "lfs=true" else "lfs=false") + "\n" + profile + "\n"))
  {
    EncodeKey(repo, revision, path, Flag("submodules=", submodules), Flag("lfs=", lfs), profile);
    assert "submodules=" + "true" == "submodules=true" && "submodules=" + "false" == "submodules=false";
    assert "lfs=" + "true" == "lfs=true" && "lfs=" + "false" == "lfs=false";
  }

  lemma FrontCancel(a: string, b: string, x: string, y: string)
    requires '\n' !in a && '\n' !in b && a + "\n" + x == b + "\n" + y
    ensures a == b && x == y
  {
    var s, t := a + "\n" + x, b + "\n" + y;
    assert s[|a|] == '\n' && t[|b|] == '\n';
    forall k | 0 <= k < |a| ensures s[k] != '\n' { assert s[k] == a[k]; }
    forall k | 0 <= k < |b| ensures t[k] != '\n' { assert t[k] == b[k]; }
    assert |a| == |b|;
    assert a == s[..|a|] && b == t[..|b|] && x == s[|a| + 1..] && y == t[|b| + 1..];
  }

  lemma BackCancel(x: string, y: string, p: string, q: string)
    requires '\n' !in p && '\n' !in q && x + "\n" + p == y + "\n" + q
    ensures x == y && p == q
  {
    var s, t := x + "\n" + p, y + "\n" + q;
    assert s[|x|] == '\n' && t[|y|] == '\n';
    forall k | |x| < k < |s| ensures s[k] != '\n' { assert s[k] == p[k - |x| - 1]; }
    forall k | |y| < k < |t| ensures t[k] != '\n' { assert t[k] == q[k - |y| - 1]; }
    assert |x| == |y|;
    assert x == s[..|x|] && y == t[..|y|] && p == s[|x| + 1..] && q == t[|y| + 1..];
  }

  /** The encoding of a key, as text before and after the path. */
  lemma EncodeKey(repo: string, revision: string, path: string, s: string, l: string, profile: string)
    ensures Encode([repo, revision, path, s, l, profile])
            == repo + "\n" + (revision + "\n" + (path + "\n" + s + "\n" + l + "\n" + profile + "\n"))
  {
    assert [profile][1..] == [];
    assert [l, profile][1..] == [profile];
    assert [s, l, profile][1..] == [l, profile];
    assert [path, s, l, profile][1..] == [s, l, profile];
    assert [revision, path, s, l, profile][1..] == [path, s, l, profile];
    assert [repo, revision, path, s, l, profile][1..] == [revision, path, s, l, profile];
    assert Encode([profile]) == profile + "\n";
    assert Encode([l, profile]) == l + "\n" + profile + "\n";
    assert Encode([s, l, profile]) == s + "\n" + l + "\n" + profile + "\n";
    assert Encode([path, s, l, profile]) == path + "\n" + s + "\n" + l + "\n" + profile + "\n";
  }

  lemma FlagsApart(name: string, on: bool, on': bool)
    requires '\n' !in name
    ensures '\n' !in Flag(name, on) && (Flag(name, on) == Flag(name, on') ==> on == on')
  {
    assert Flag(name, true)[|name|..] == "true" && Flag(name, false)[|name|..] == "false";
  }

  /** The encoding fed to the hash tells requests apart, even when a path holds newlines: only the
      other five parts must be free of them. */
  lemma KeyInjective(repo: string, revision: string, path: string, submodules: bool, lfs: bool, profile: string,
                     repo': string, revision': string, path': string, submodules': bool, lfs': bool, profile': string)
    requires '\n' !in repo && '\n' !in revision && '\n' !in profile
    requires '\n' !in repo' && '\n' !in revision' && '\n' !in profile'
    requires Encode(KeyParts(repo, revision, path, submodules, lfs, profile))
             == Encode(KeyParts(repo', revision', path', submodules', lfs', profile'))
    ensures repo == repo' && revision == revision' && path == path' && submodules == submodules' && lfs == lfs'
            && profile == profile'
  {
    var s, l := Flag("submodules=", submodules), Flag("lfs=", lfs);
    var s', l' := Flag("submodules=", submodules'), Flag("lfs=", lfs');
    EncodeKey(repo, revision, path, s, l, profile);
    EncodeKey(repo', revision', path', s', l', profile');
    FlagsApart("submodules=", submodules, submodules');
    FlagsApart("submodules=", submodules', submodules);
    FlagsApart("lfs=", lfs, lfs');
    FlagsApart("lfs=", lfs', lfs);
    var back, back' := path + "\n" + s + "\n" + l + "\n" + profile, path' + "\n" + s' + "\n" + l' + "\n" + profile';
    FrontCancel(repo, repo', revision + "\n" + (back + "\n"), revision' + "\n" + (back' + "\n"));
    FrontCancel(revision, revision', back + "\n", back' + "\n");
    assert back == back' by { assert back == (back + "\n")[..|back|]; assert back' == (back' + "\n")[..|back'|]; }
    BackCancel(path + "\n" + s + "\n" + l, path' + "\n" + s' + "\n" + l', profile, profile');
    BackCancel(path + "\n" + s, path' + "\n" + s', l, l');
    BackCancel(path, path', s, s');
  }
}
