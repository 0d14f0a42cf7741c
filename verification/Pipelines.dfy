/** The mount pipeline: from a volume context to content with its provenance in the cache. */
module Pipelines {
  import opened Wrappers
  import opened LexicalPath
  import opened Links
  import opened SafePaths
  import opened Trees
  import opened FileSystems
  import opened ContentTrees
  import opened Publishing
  import opened Commits
  import opened Submodules
  import opened Backends
  import opened Metadata
  import opened Eviction
  import opened Cache
  import opened Survival
  import opened Volume
  import opened Policies
  import opened Admission
  import opened Entries
  import Revisions

  /** The configuration of the node plugin: its backend, and `digest`, the hex SHA-256. */
  datatype Settings = Settings(lib: Library, policies: seq<Policy>, digest: string -> string, cfg: Config,
                               gitBinary: bool)

  ghost predicate GoodSettings(s: Settings, cache: Path) {
    match s
    case Settings(_, _, digest, cfg, _) =>
      && Names(cache) && cfg.rootDir == Abs(cache)
      && cfg.maxSize > 0 && cfg.maxAge > 0
      && forall text :: IsName(digest(text))
  }

  // ------------------------------------------------------------------------- keys

  /** The key of a granted request. */
  function EntryKey(s: Settings, g: Grant): string {
    s.digest(Encode(KeyParts(g.attrs.repo, g.attrs.revision, g.attrs.path, g.attrs.submodules, g.attrs.lfs, g.profile)))
  }

  /** What is hashed for a grant, line by line: the attributes as they were asked for, and the profile it
      was given. */
  lemma EntryKeyText(s: Settings, g: Grant)
    ensures EntryKey(s, g) ==
            s.digest(g.attrs.repo + "\n" + (g.attrs.revision + "\n" + (g.attrs.path + "\n"
                     + (if g.attrs.submodules then "submodules=true" else "submodules=false") + "\n"
                     + (if g.attrs.lfs then "lfs=true" else "lfs=false") + "\n" + g.profile + "\n")))
  {
    KeyText(g.attrs.repo, g.attrs.revision, g.attrs.path, g.attrs.submodules, g.attrs.lfs, g.profile);
  }

  /** Agreement on the six parts of a key. */
  predicate SameParts(g: Grant, g': Grant) {
    g.attrs.repo == g'.attrs.repo && g.attrs.revision == g'.attrs.revision && g.attrs.path == g'.attrs.path
    && g.attrs.submodules == g'.attrs.submodules && g.attrs.lfs == g'.attrs.lfs && g.profile == g'.profile
  }

  predicate OneLineProfiles(g: Grant, g': Grant) { '\n' !in g.profile && '\n' !in g'.profile }

  /** Two admitted requests share a cache entry exactly when they agree on the six parts of the key. */
  lemma KeysTellApart(s: Settings, ns: string, raw: Raw, ns': string, raw': Raw)
    requires forall x, y :: s.digest(x) == s.digest(y) ==> x == y
    ensures var gate, gate' := Gate(s.lib, s.policies, ns, raw), Gate(s.lib, s.policies, ns', raw');
            gate.Some? && gate'.Some? && OneLineProfiles(gate.value, gate'.value) ==>
              (EntryKey(s, gate.value) == EntryKey(s, gate'.value) <==> SameParts(gate.value, gate'.value))
  {
    var gate, gate' := Gate(s.lib, s.policies, ns, raw), Gate(s.lib, s.policies, ns', raw');
    if gate.Some? && gate'.Some? && OneLineProfiles(gate.value, gate'.value)
       && EntryKey(s, gate.value) == EntryKey(s, gate'.value) {
      ParsedShape(s.lib, raw);
      ParsedShape(s.lib, raw');
      SameKeyParts(s, gate.value, gate'.value);
    }
  }

  lemma SameKeyParts(s: Settings, g: Grant, g': Grant)
    requires forall x, y :: s.digest(x) == s.digest(y) ==> x == y
    requires '\n' !in g.attrs.repo && '\n' !in g.attrs.revision && '\n' !in g.profile
    requires '\n' !in g'.attrs.repo && '\n' !in g'.attrs.revision && '\n' !in g'.profile
    requires EntryKey(s, g) == EntryKey(s, g')
    ensures SameParts(g, g')
  {
    KeyInjective(g.attrs.repo, g.attrs.revision, g.attrs.path, g.attrs.submodules, g.attrs.lfs, g.profile,
                 g'.attrs.repo, g'.attrs.revision, g'.attrs.path, g'.attrs.submodules, g'.attrs.lfs, g'.profile);
  }

  /** The kind of a revision is not among the parts: two requests that share an entry select the same
      ref exactly when their kinds are alike for the revision. */
  lemma SharedEntryRef(g: Grant, g': Grant)
    requires SameParts(g, g') && Revisions.AcceptsRevision(g.attrs.revision)
    ensures Revisions.ResolveHash(g.attrs.revisionKind, g.attrs.revision)
            == Revisions.ResolveHash(g'.attrs.revisionKind, g'.attrs.revision) <==>
            Revisions.KindsAlike(g.attrs.revisionKind, g'.attrs.revisionKind, g.attrs.revision)
  {
    Revisions.KindSelects(g.attrs.revisionKind, g'.attrs.revisionKind, g.attrs.revision);
  }

  // ------------------------------------------------------------- the form of the cache

  /** No link stands in or above the cache root: entries are directories. */
  ghost predicate PlainCache(t: Tree, cache: Path) {
    NoLinkAt(t, cache) && forall n :: cache + [n] in t ==> !t[cache + [n]].Link?
  }

  lemma PlainEntry(t: Tree, cache: Path, key: string)
    requires PlainCache(t, cache)
    ensures NoLinkAt(t, cache + [key])
  {
    forall q | q in t && Under(q, cache + [key]) ensures !t[q].Link? {
      if q != cache + [key] {
        UnderParent(q, cache + [key]);
        assert Parent(cache + [key]) == cache;
      }
    }
  }

  /** Work in an entry keeps it so. */
  lemma PlainKept(t: Tree, t': Tree, cache: Path, key: string, places: set<Path>)
    requires PlainCache(t, cache) && StrayedIn(t, t', cache + [key], places) && NoLinkAt(t', cache + [key])
    ensures PlainCache(t', cache)
  {
    var w := cache + [key];
    assert Under(cache, w) && Under(w, w);
    forall q | q in t' && Under(q, cache) ensures !t'[q].Link? { UnderTransitive(q, cache, w); }
    forall n | cache + [n] in t' ensures !t'[cache + [n]].Link? {
      if n != key {
        assert (cache + [n])[|cache|] == n && w[|cache|] == key;
        assert !Under(w, cache + [n]) && !Under(cache + [n], w);
      }
    }
  }

  lemma ConfinedStrays(t: Tree, t': Tree, w: Path)
    requires Confined(t, t', w)
    ensures StrayedIn(t, t', w, {})
  {}

  /** Every cache entry holds its content directory and nothing else, as the in-memory backend
      leaves it. */
  ghost predicate OnlyContent(t: Tree, cache: Path) {
    forall q :: q in t && Under(cache, q) && |q| > |cache| + 1 ==> q[|cache| + 1] == "content"
  }

  lemma InContent(cache: Path, key: string, q: Path)
    requires Under(cache + [key], q) && |q| > |cache| + 1
    ensures q[|cache| + 1] == "content" <==> Under(ContentOf(cache + [key]), q)
  {
    var w := cache + [key];
    assert q == w + q[|w|..];
    PrefixSplit(w, ["content"], q[|w|..]);
  }

  /** Materialising an entry in memory keeps the cache in that form, and the entry is then its directory
      and the content. */
  lemma EntryKeepsForm(start: Snapshot, after: Snapshot, cache: Path, key: string, a: Answer, since: int)
    requires [] in start.nodes && a.Objects? && OnlyContent(start.nodes, cache)
    requires WorkKept(start, after, cache + [key], a, since)
    ensures OnlyContent(after.nodes, cache)
    ensures forall q :: q in after.nodes && Under(cache + [key], q) && q != cache + [key] ==>
              Under(ContentOf(cache + [key]), q)
  {
    var w, t0, t := cache + [key], start.nodes, after.nodes;
    forall q | q in t && Under(w, q) && q != w ensures Under(ContentOf(w), q) && q[|cache| + 1] == "content" {
      UnderTransitive(cache, w, q);
      InContent(cache, key, q);
      assert !Under(ContentOf(w), q) ==> Lookup(t, q) == Lookup(t0, q);
    }
    forall q | q in t && Under(cache, q) && |q| > |cache| + 1 ensures q[|cache| + 1] == "content" {
      if !Under(w, q) { assert q in t0; }
    }
  }

  /** The size of an entry, from that of its content. */
  lemma EntrySize(t: Tree, w: Path, dirSize: nat)
    requires IsDir(t, w)
    requires forall q :: q in t && Under(w, q) && q != w ==> Under(ContentOf(w), q)
    ensures Sum(AllSizes(Subtree(t, w), dirSize)) == dirSize + Sum(AllSizes(Subtree(t, ContentOf(w)), dirSize))
  {
    var inner := AllSizes(Subtree(t, ContentOf(w)), dirSize);
    EntrySizesShift(t, w, dirSize);
    SumShift(["content"], inner);
    SumInsert(Shift(["content"], inner), [], dirSize);
  }

  lemma EntrySizesShift(t: Tree, w: Path, dirSize: nat)
    requires IsDir(t, w)
    requires forall q :: q in t && Under(w, q) && q != w ==> Under(ContentOf(w), q)
    ensures [] !in Shift(["content"], AllSizes(Subtree(t, ContentOf(w)), dirSize))
    ensures AllSizes(Subtree(t, w), dirSize) ==
              Shift(["content"], AllSizes(Subtree(t, ContentOf(w)), dirSize))[[] := dirSize]
  {
    var whole := AllSizes(Subtree(t, w), dirSize);
    var moved := Shift(["content"], AllSizes(Subtree(t, ContentOf(w)), dirSize));
    forall r ensures Lookup(whole, r) == Lookup(moved[[] := dirSize], r) {
      if r == [] {
        assert w + r == w;
      } else {
        PrefixSplit(w, ["content"], r);
        assert Under(w, w + r);
        if Under(["content"], r) {
          assert ContentOf(w) + r[1..] == w + r;
        }
      }
    }
    SameTree(whole, moved[[] := dirSize]);
  }

  /** Materialising an entry leaves the others as they were. */
  lemma EntryOthersSame(start: Snapshot, after: Snapshot, since: int, cache: Path, key: string, a: Answer)
    requires [] in start.nodes && WorkKept(start, after, cache + [key], a, since)
    requires start.mtime.Keys == start.nodes.Keys && after.mtime.Keys == after.nodes.Keys
    ensures OthersSame(start.nodes, start.mtime, after.nodes, after.mtime, cache, key)
  {
    var w := cache + [key];
    forall q | Under(cache, q) && |q| > |cache| && !Under(w, q)
      ensures Lookup(after.nodes, q) == Lookup(start.nodes, q) && Lookup(after.mtime, q) == Lookup(start.mtime, q)
    {
      assert Under(q, w) ==> q == w;
    }
  }

  /** And it is then the youngest: all of it is as new as the request, and the rest is older. */
  lemma EntryYoungest(start: Snapshot, after: Snapshot, since: int, cache: Path, key: string, a: Answer, marked: Tree)
    requires [] in start.nodes && a.Objects? && OnlyContent(start.nodes, cache)
    requires WorkKept(start, after, cache + [key], a, since)
    requires start.mtime.Keys == start.nodes.Keys && after.mtime.Keys == after.nodes.Keys
    requires forall q :: q in start.mtime ==> start.mtime[q] < since
    requires EntryMade(after.nodes, after.mtime, cache + [key], marked, since)
    ensures YoungestEntry(after.mtime, cache, key, since)
  {
    var w := cache + [key];
    EntryKeepsForm(start, after, cache, key, a, since);
    EntryOthersSame(start, after, since, cache, key, a);
    forall q | q in after.mtime && Under(cache, q) && |q| > |cache| && !Under(w, q) ensures after.mtime[q] < since {
      assert Lookup(after.mtime, q) == Lookup(start.mtime, q);
    }
  }

  lemma AfterEviction(t: Tree, m: map<Path, int>, t': Tree, m': map<Path, int>, cache: Path, gone: set<string>,
                      key: string)
    requires Standing(Snapshot(t', m'), Snapshot(t, m), cache, gone)
    ensures OnlyContent(t, cache) ==> OnlyContent(t', cache)
    ensures key in gone ==> ContentOf(cache + [key]) !in t'
    ensures key !in gone ==> Subtree(t', ContentOf(cache + [key])) == Subtree(t, ContentOf(cache + [key]))
  {
    var content := ContentOf(cache + [key]);
    forall q | q in t' ensures q in t && t'[q] == t[q] {
      assert Lookup(t', q) == if InEntries(cache, gone, q) then None else Lookup(t, q);
    }
    forall r ensures Lookup(t', content + r) == if key in gone then None else Lookup(t, content + r) {
      assert (content + r)[|cache|] == key;
      assert Lookup(t', content + r) == if InEntries(cache, gone, content + r) then None else Lookup(t, content + r);
    }
    assert content + [] == content && Lookup(t', content + []) == Lookup(t', content);
    if key !in gone {
      forall r ensures Lookup(Subtree(t', content), r) == Lookup(Subtree(t, content), r) {
        assert Lookup(t', content + r) == Lookup(t, content + r);
      }
      SameTree(Subtree(t', content), Subtree(t, content));
    }
  }

  // ------------------------------------------------------------------ the eviction

  /** What the eviction inside a request depends on beside the request: its time, the oldest stamp of what
      the request has made, and the marked content. */
  datatype Trace = Trace(evictedAt: int, oldest: int, marked: Tree)

  /** Something in the entry beside its content, as the backend found it, is older than the age limit. */
  ghost predicate AgedBeside(start: Snapshot, w: Path, a: Answer, at: int, maxAge: int) {
    exists q :: q in GroundTimes(start, w, a) && Under(w, q) && q != w && !Under(ContentOf(w), q)
                && at - GroundTimes(start, w, a)[q] > maxAge
  }

  /** Whether the entry just made counts as expired: for what stands beside its content, or because the
      request has taken longer than the age limit. */
  ghost predicate Aged(start: Snapshot, w: Path, a: Answer, trace: Trace, maxAge: int) {
    AgedBeside(start, w, a, trace.evictedAt, maxAge) || trace.evictedAt - trace.oldest > maxAge
  }

  lemma {:induction false} OldestOf(m: map<Path, int>, s: set<Path>) returns (q: Path)
    requires s != {} && s <= m.Keys
    ensures q in s && forall p :: p in s ==> m[q] <= m[p]
    decreases s
  {
    var first :| first in s;
    q := first;
    if s != {first} {
      var p := OldestOf(m, s - {first});
      assert forall x :: x in s <==> x == first || x in s - {first};
      if m[p] < m[first] { q := p; }
    }
  }

  /** The entry just made holds something too old exactly then. */
  lemma EntryExpiry(start: Snapshot, mid: Snapshot, w: Path, a: Answer, since: int, at: int, maxAge: int)
    returns (oldest: int)
    requires [] in start.nodes && WorkKept(start, mid, w, a, since) && FreshContent(mid.mtime, w, since)
    requires forall q :: q in mid.mtime ==> mid.mtime[q] < at
    ensures since <= oldest < at
    ensures (exists q :: q in mid.mtime && Under(w, q) && at - mid.mtime[q] > maxAge)
            <==> AgedBeside(start, w, a, at, maxAge) || at - oldest > maxAge
  {
    var made := set q | q in mid.mtime && (q == w || Under(ContentOf(w), q));
    assert w in made;
    var first := OldestOf(mid.mtime, made);
    oldest := mid.mtime[first];
    if Under(ContentOf(w), first) { UnderTransitive(w, ContentOf(w), first); }
    assert Under(w, first);
    if q :| q in mid.mtime && Under(w, q) && at - mid.mtime[q] > maxAge {
      if q !in made { assert Lookup(mid.mtime, q) == Lookup(GroundTimes(start, w, a), q); }
    }
    if AgedBeside(start, w, a, at, maxAge) {
      var q :| q in GroundTimes(start, w, a) && Under(w, q) && q != w && !Under(ContentOf(w), q)
               && at - GroundTimes(start, w, a)[q] > maxAge;
      assert Lookup(mid.mtime, q) == Lookup(GroundTimes(start, w, a), q);
    }
  }

  /** With the git binary backend the repository directory decides: in an entry of repository and content
      alone, what stands beside the content is too old exactly when something that Git left is. */
  lemma GitExpiry(start: Snapshot, w: Path, co: Checkout, at: int, maxAge: int)
    requires CanMkdir(start.nodes, w)
    requires forall q :: q in start.mtime && Under(w, q) && q != w ==> Under(ContentOf(w), q) || Under(RepoOf(w), q)
    ensures AgedBeside(start, w, Working(co), at, maxAge) <==> exists r :: r in co.stamps && at - co.stamps[r] > maxAge
  {
    var times, repo := GroundTimes(start, w, Working(co)), RepoOf(w);
    if AgedBeside(start, w, Working(co), at, maxAge) {
      var q :| q in times && Under(w, q) && q != w && !Under(ContentOf(w), q) && at - times[q] > maxAge;
      ReplacedAt(start.mtime, repo, co.stamps, q);
      assert Lookup(times, q) == Some(times[q]);
      assert Under(repo, q);
      assert q[|repo|..] in co.stamps;
    }
    if r :| r in co.stamps && at - co.stamps[r] > maxAge {
      var q := repo + r;
      assert q[|repo|..] == r && Under(repo, q) && q[|w|] == "repo";
      ReplacedAt(start.mtime, repo, co.stamps, q);
      InRepo(w, q);
      assert Lookup(times, q) == Some(co.stamps[r]);
    }
  }

  /** Whether the eviction inside a request spares the content made in memory: the request has taken no
      longer than the age limit, and with its two directories the content fits the size limit plus
      what has expired of the other entries, as they were when the request came. */
  ghost predicate Spares(cfg: Config, start: Snapshot, cache: Path, key: string, dirSize: nat, trace: Trace) {
    && trace.evictedAt - trace.oldest <= cfg.maxAge
    && dirSize + Sum(AllSizes(trace.marked, dirSize))
       <= cfg.maxSize + ExpiredBytes(start.nodes, start.mtime, trace.evictedAt, dirSize, cache, cfg.maxAge, key)
  }

  /** The eviction inside a request, after some time has passed. */
  method EvictOnce(fs: FileSystem, s: Settings, elapsed: nat, ghost cache: Path)
    returns (ghost at: int, ghost expired: seq<Item>, ghost live: seq<Item>)
    requires fs.Valid() && GoodSettings(s, cache) && IsDir(fs.nodes, cache) && NoLinkAt(fs.nodes, cache)
    modifies fs
    ensures fs.Valid() && old(fs.now) + elapsed == at <= fs.now
    ensures Confined(old(fs.nodes), fs.nodes, cache)
    ensures Swept(old(fs.nodes), old(fs.mtime), at, fs.dirSize, cache, s.cfg, expired, live)
    ensures Standing(Snapshot(fs.nodes, fs.mtime), Snapshot(old(fs.nodes), old(fs.mtime)), cache,
                     GoneNames(expired, live, s.cfg))
  {
    fs.Wait(elapsed);
    at := fs.now;
    ghost var ok;
    ok, expired, live := Evict(fs, s.cfg.rootDir, s.cfg, cache);
  }

  /** Eviction puts no link anywhere. */
  lemma PlainEvicted(t: Tree, m: map<Path, int>, t': Tree, m': map<Path, int>, cache: Path, gone: set<string>)
    requires PlainCache(t, cache) && Standing(Snapshot(t', m'), Snapshot(t, m), cache, gone)
    ensures PlainCache(t', cache)
  {
    forall q | q in t' ensures q in t && t'[q] == t[q] {
      assert Lookup(t', q) == if InEntries(cache, gone, q) then None else Lookup(t, q);
    }
  }

  /** The entry made and marked, and nothing outside it changed. */
  ghost predicate Entered(start: Snapshot, mid: Snapshot, w: Path, a: Answer, marked: Tree, since: int)
    requires [] in start.nodes
  {
    WorkKept(start, mid, w, a, since) && EntryMade(mid.nodes, mid.mtime, w, marked, since)
  }

  /** A pass of eviction over the cache with the entry made has taken it for expired, or not, and has
      spared it, or not. */
  ghost predicate Passed(start: Snapshot, cache: Path, key: string, a: Answer, marked: Tree, since: int, dirSize: nat,
                         cfg: Config, at: int, aged: bool, spared: bool)
    requires [] in start.nodes
  {
    exists mid: Snapshot, expired: seq<Item>, live: seq<Item> ::
      && Entered(start, mid, cache + [key], a, marked, since)
      && Swept(mid.nodes, mid.mtime, at, dirSize, cache, cfg, expired, live)
      && (aged <==> key in NamesOf(expired))
      && (spared <==> key !in GoneNames(expired, live, cfg))
  }

  /** What a successful materialisation leaves in the entry of a grant: the marked content, if the eviction
      has spared it. It never does when the entry counts as expired; in memory, and in a cache that
      holds content only, it is settled when it does. */
  ghost predicate Stored(t: Tree, cache: Path, key: string, cfg: Config, a: Answer, start: Snapshot, since: int,
                         elapsed: nat, now: int, dirSize: nat, trace: Trace)
    requires [] in start.nodes
  {
    var w := cache + [key];
    var held := ContentOf(w);
    var aged := Aged(start, w, a, trace, cfg.maxAge);
    && (held in t ==> Subtree(t, held) == trace.marked)
    && since + elapsed <= trace.evictedAt <= now && since <= trace.oldest < trace.evictedAt
    && Passed(start, cache, key, a, trace.marked, since, dirSize, cfg, trace.evictedAt, aged, held in t)
    && (aged ==> held !in t)
    && (a.Objects? && OnlyContent(start.nodes, cache) ==>
        (held in t <==> Spares(cfg, start, cache, key, dirSize, trace)))
  }

  lemma StandsWhole(t: Tree, t': Tree, w: Path)
    requires ContentOf(w) in t
    ensures Subtree(t', ContentOf(w)) == Subtree(t, ContentOf(w)) ==> ContentOf(w) in t'
  {
    assert ContentOf(w) + [] == ContentOf(w);
    assert [] in Subtree(t, ContentOf(w));
  }

  lemma EntryDirs(t: Tree, cache: Path, key: string)
    requires WellFormed(t) && ContentOf(cache + [key]) in t
    ensures IsDir(t, cache) && IsDir(t, cache + [key])
  {
    assert Under(cache, ContentOf(cache + [key])) && Under(cache + [key], ContentOf(cache + [key]));
  }

  /** The entry of a grant after the eviction. */
  lemma EntryStored(start: Snapshot, since: int, mid: Snapshot, after: Snapshot, at: int, now: int, dirSize: nat,
                    cache: Path, key: string, cfg: Config, a: Answer, elapsed: nat, marked: Tree, expired: seq<Item>,
                    live: seq<Item>)
    returns (trace: Trace)
    requires [] in start.nodes && start.mtime.Keys == start.nodes.Keys && cfg.maxSize >= 0
    requires forall q :: q in start.mtime ==> start.mtime[q] < since
    requires WellFormed(mid.nodes) && mid.mtime.Keys == mid.nodes.Keys
    requires forall q :: q in mid.mtime ==> mid.mtime[q] < at
    requires since + elapsed <= at <= now
    requires Entered(start, mid, cache + [key], a, marked, since)
    requires Swept(mid.nodes, mid.mtime, at, dirSize, cache, cfg, expired, live)
    requires Standing(after, mid, cache, GoneNames(expired, live, cfg))
    ensures trace.marked == marked
            && Stored(after.nodes, cache, key, cfg, a, start, since, elapsed, now, dirSize, trace)
  {
    var w := cache + [key];
    var oldest := EntryExpiry(start, mid, w, a, since, at, cfg.maxAge);
    trace := Trace(at, oldest, marked);
    EntryDirs(mid.nodes, cache, key);
    ExpiryMeaning(mid.nodes, mid.mtime, at, dirSize, cache, cfg, expired, live, key);
    AfterEviction(mid.nodes, mid.mtime, after.nodes, after.mtime, cache, GoneNames(expired, live, cfg), key);
    StandsWhole(mid.nodes, after.nodes, w);
    if a.Objects? && OnlyContent(start.nodes, cache) {
      FreshSpared(start, since, mid, at, dirSize, cache, key, cfg, a, trace, expired, live);
    }
  }

  /** Survival of what is made in memory, exactly. */
  lemma FreshSpared(start: Snapshot, since: int, mid: Snapshot, at: int, dirSize: nat, cache: Path, key: string,
                    cfg: Config, a: Answer, trace: Trace, expired: seq<Item>, live: seq<Item>)
    requires [] in start.nodes && start.mtime.Keys == start.nodes.Keys && cfg.maxSize >= 0
    requires forall q :: q in start.mtime ==> start.mtime[q] < since
    requires WellFormed(mid.nodes) && mid.mtime.Keys == mid.nodes.Keys && a.Objects? && OnlyContent(start.nodes, cache)
    requires Entered(start, mid, cache + [key], a, trace.marked, since)
    requires Swept(mid.nodes, mid.mtime, at, dirSize, cache, cfg, expired, live) && at == trace.evictedAt
    requires HoldsExpired(mid.mtime, at, cache, cfg.maxAge, key) <==> Aged(start, cache + [key], a, trace, cfg.maxAge)
    ensures key !in GoneNames(expired, live, cfg) <==> Spares(cfg, start, cache, key, dirSize, trace)
  {
    EntryDirs(mid.nodes, cache, key);
    EntryKeepsForm(start, mid, cache, key, a, since);
    EntryOthersSame(start, mid, since, cache, key, a);
    EntryYoungest(start, mid, since, cache, key, a, trace.marked);
    NoneBeside(start, cache, key, a, at, cfg.maxAge);
    FreshEntrySurvives(mid.nodes, mid.mtime, at, dirSize, cache, cfg, expired, live, key, since);
    EntrySize(mid.nodes, cache + [key], dirSize);
    ExpiredElsewhere(start.nodes, start.mtime, mid.nodes, mid.mtime, at, dirSize, cache, cfg.maxAge, key);
  }

  lemma NoneBeside(start: Snapshot, cache: Path, key: string, a: Answer, at: int, maxAge: int)
    requires start.mtime.Keys == start.nodes.Keys && a.Objects? && OnlyContent(start.nodes, cache)
    ensures !AgedBeside(start, cache + [key], a, at, maxAge)
  {
    var w := cache + [key];
    forall q | q in start.mtime && Under(w, q) && q != w ensures Under(ContentOf(w), q) {
      UnderTransitive(cache, w, q);
      InContent(cache, key, q);
    }
  }

  // ------------------------------------------------------------------- the pipeline

  /** The entry of a grant. */
  function EntryOf(s: Settings, cache: Path, g: Grant): Path { cache + [EntryKey(s, g)] }

  /** What comes of content laid out as `laid` in the entry `key`. Where its provenance stays inside it,
      the request succeeds exactly when that can be written, only the cache changes, and the entry
      then holds the marked content unless the eviction has not spared it. Where links lead it out,
      nothing else outside the cache changes. */
  ghost predicate MarkOutcome(t: Tree, cache: Path, key: string, cfg: Config, laid: Tree, a: Answer,
                              fields: map<string, string>, start: Snapshot, since: int, elapsed: nat, now: int,
                              dirSize: nat, trace: Trace, ok: bool)
    requires [] in start.nodes
  {
    var held := ContentOf(cache + [key]);
    if Settled(laid, held) then
      && Confined(start.nodes, t, cache)
      && (a.Objects? && OnlyContent(start.nodes, cache) ==> OnlyContent(t, cache))
      && (ok <==> CanMark(laid, held))
      && (ok ==> Marks(laid, held, fields, trace.marked)
                 && Stored(t, cache, key, cfg, a, start, since, elapsed, now, dirSize, trace))
    else
      && (ok <==> AllLead(laid, held))
      && StrayedIn(start.nodes, t, cache, MetaPlaces(laid, held, FIELD_SET))
  }

  /** What comes of a granted request in the cache: it fails without content. */
  ghost predicate EntryOutcome(t: Tree, s: Settings, cache: Path, g: Grant, a: Answer, mods: Modules, at: string,
                               start: Snapshot, since: int, elapsed: nat, now: int, dirSize: nat, trace: Trace,
                               r: Result<string>)
    requires [] in start.nodes
  {
    var w := EntryOf(s, cache, g);
    && (r.Ok? ==> r.value == Abs(ContentOf(w)))
    && if Supplied(start.nodes, w, g, a, mods).None? then
         && r.Err? && Confined(start.nodes, t, cache)
         && (a.Objects? && OnlyContent(start.nodes, cache) ==> OnlyContent(t, cache))
       else
         MarkOutcome(t, cache, EntryKey(s, g), s.cfg, LaidFor(start.nodes, w, g, a, mods), a, FieldsOf(g, a, at),
                     start, since, elapsed, now, dirSize, trace, r.Ok?)
  }

  lemma WorkWider(start: Snapshot, after: Snapshot, cache: Path, key: string, a: Answer, since: int)
    requires [] in start.nodes && WorkKept(start, after, cache + [key], a, since)
    ensures Confined(start.nodes, after.nodes, cache)
    ensures a.Objects? && OnlyContent(start.nodes, cache) ==> OnlyContent(after.nodes, cache)
    ensures PlainCache(start.nodes, cache) ==> PlainCache(after.nodes, cache)
  {
    assert Under(cache, cache + [key]);
    ConfinedWider(start.nodes, after.nodes, cache, cache + [key]);
    if a.Objects? && OnlyContent(start.nodes, cache) { EntryKeepsForm(start, after, cache, key, a, since); }
    if PlainCache(start.nodes, cache) {
      ConfinedStrays(start.nodes, after.nodes, cache + [key]);
      PlainKept(start.nodes, after.nodes, cache, key, {});
    }
  }

  lemma StrayedWider(t: Tree, t': Tree, cache: Path, key: string, places: set<Path>)
    requires StrayedIn(t, t', cache + [key], places)
    ensures StrayedIn(t, t', cache, places)
  {
    var w := cache + [key];
    forall q | Under(w, q) ensures Under(cache, q) { UnderTransitive(cache, w, q); }
    forall q | Under(q, w) ensures Under(cache, q) || Under(q, cache) { PrefixesCompare(cache, q, w); }
  }

  lemma StrayedThen(t0: Tree, t1: Tree, t2: Tree, cache: Path, places: set<Path>)
    requires StrayedIn(t0, t1, cache, places) && forall q :: !Under(cache, q) ==> Lookup(t2, q) == Lookup(t1, q)
    ensures StrayedIn(t0, t2, cache, places)
  {
    forall q | !Under(cache, q)
      ensures Lookup(t2, q) == Lookup(t0, q) || (q !in t0 && q in t2 && t2[q].Dir? && Under(q, cache))
              || (q in places && q in t2 && t2[q].File?)
    {
      assert Lookup(t2, q) == Lookup(t1, q);
    }
  }

  /** A request that fails evicts nothing. */
  lemma EntryFailed(start: Snapshot, after: Snapshot, s: Settings, cache: Path, g: Grant, a: Answer, mods: Modules,
                    at: string, since: int, elapsed: nat, now: int, dirSize: nat, trace: Trace, marked: Tree)
    requires [] in start.nodes && PlainCache(start.nodes, cache)
    requires EntryResult(start, after, EntryOf(s, cache, g), g, a, mods, at, since, marked, Err)
    ensures EntryOutcome(after.nodes, s, cache, g, a, mods, at, start, since, elapsed, now, dirSize, trace, Err)
    ensures PlainCache(after.nodes, cache)
  {
    var w, key := EntryOf(s, cache, g), EntryKey(s, g);
    if Supplied(start.nodes, w, g, a, mods).None? {
      WorkWider(start, after, cache, key, a, since);
    } else {
      MarkFailed(start, after, LaidFor(start.nodes, w, g, a, mods), cache, key, s.cfg, a, FieldsOf(g, a, at), since,
                 elapsed, now, dirSize, trace, marked);
    }
  }

  lemma MarkFailed(start: Snapshot, after: Snapshot, laid: Tree, cache: Path, key: string, cfg: Config, a: Answer,
                   fields: map<string, string>, since: int, elapsed: nat, now: int, dirSize: nat, trace: Trace,
                   marked: Tree)
    requires [] in start.nodes && PlainCache(start.nodes, cache)
    requires MarkResult(start, after, laid, cache + [key], a, fields, since, marked, false)
    ensures MarkOutcome(after.nodes, cache, key, cfg, laid, a, fields, start, since, elapsed, now, dirSize, trace,
                        false)
    ensures PlainCache(after.nodes, cache)
  {
    var held := ContentOf(cache + [key]);
    if Settled(laid, held) {
      WorkWider(start, after, cache, key, a, since);
    } else {
      StrayedWider(start.nodes, after.nodes, cache, key, MetaPlaces(laid, held, FIELD_SET));
      PlainKept(start.nodes, after.nodes, cache, key, MetaPlaces(laid, held, FIELD_SET));
    }
  }

  /** A request that succeeds evicts. */
  method EvictAfter(fs: FileSystem, s: Settings, elapsed: nat, ghost cache: Path, ghost key: string, ghost laid: Tree,
                    ghost a: Answer, ghost fields: map<string, string>, ghost start: Snapshot, ghost since: int,
                    ghost marked: Tree)
    returns (ghost trace: Trace)
    requires fs.Valid() && GoodSettings(s, cache) && IsDir(fs.nodes, ContentOf(cache + [key])) && since <= fs.now
    requires [] in start.nodes && start.mtime.Keys == start.nodes.Keys && PlainCache(start.nodes, cache)
    requires forall q :: q in start.mtime ==> start.mtime[q] < since
    requires MarkResult(start, Snapshot(fs.nodes, fs.mtime), laid, cache + [key], a, fields, since, marked, true)
    modifies fs
    ensures fs.Valid() && old(fs.now) <= fs.now && PlainCache(fs.nodes, cache)
    ensures MarkOutcome(fs.nodes, cache, key, s.cfg, laid, a, fields, start, since, elapsed, fs.now, fs.dirSize, trace,
                        true)
  {
    ghost var mid, places := Snapshot(fs.nodes, fs.mtime), MetaPlaces(laid, ContentOf(cache + [key]), FIELD_SET);
    ghost var settled := Settled(laid, ContentOf(cache + [key]));
    trace := Trace(0, 0, marked);
    EntryDirs(fs.nodes, cache, key);
    if settled {
      WorkWider(start, mid, cache, key, a, since);
    } else {
      PlainKept(start.nodes, fs.nodes, cache, key, places);
      StrayedWider(start.nodes, fs.nodes, cache, key, places);
    }
    ghost var at, expired, live;
    at, expired, live := EvictOnce(fs, s, elapsed, cache);
    ghost var gone := GoneNames(expired, live, s.cfg);
    PlainEvicted(mid.nodes, mid.mtime, fs.nodes, fs.mtime, cache, gone);
    AfterEviction(mid.nodes, mid.mtime, fs.nodes, fs.mtime, cache, gone, key);
    if settled {
      ConfinedTransitive(start.nodes, mid.nodes, fs.nodes, cache);
      trace := EntryStored(start, since, mid, Snapshot(fs.nodes, fs.mtime), at, fs.now, fs.dirSize, cache, key, s.cfg,
                           a, elapsed, marked, expired, live);
    } else {
      StandsOutside(mid, Snapshot(fs.nodes, fs.mtime), cache, gone);
      StrayedThen(start.nodes, mid.nodes, fs.nodes, cache, places);
    }
  }

  lemma StandsOutside(before: Snapshot, after: Snapshot, cache: Path, gone: set<string>)
    requires Standing(after, before, cache, gone)
    ensures forall q :: !Under(cache, q) ==> Lookup(after.nodes, q) == Lookup(before.nodes, q)
  {
    forall q | !Under(cache, q) ensures Lookup(after.nodes, q) == Lookup(before.nodes, q) {
      assert Lookup(after.nodes, q) == if InEntries(cache, gone, q) then None else Lookup(before.nodes, q);
    }
  }

  /** `mountPipeline.materialize` once the request is granted. */
  method MaterializeGranted(fs: FileSystem, s: Settings, g: Grant, a: Answer, mountedAt: string, elapsed: nat,
                            ghost cache: Path, ghost mods: Modules)
    returns (r: Result<string>, ghost trace: Trace)
    requires fs.Valid() && GoodSettings(s, cache) && PlainCache(fs.nodes, cache)
             && Serves(a, g.attrs.path, mods, fs.now)
    modifies fs
    ensures fs.Valid() && old(fs.now) <= fs.now && PlainCache(fs.nodes, cache)
    ensures EntryOutcome(fs.nodes, s, cache, g, a, mods, mountedAt, Snapshot(old(fs.nodes), old(fs.mtime)), old(fs.now),
                         elapsed, fs.now, fs.dirSize, trace, r)
  {
    ghost var start, n0, w := Snapshot(fs.nodes, fs.mtime), fs.now, EntryOf(s, cache, g);
    var key := EntryKey(s, g);
    var cachePath := Join(s.cfg.rootDir, key);
    JoinName(cache, key);
    PlainEntry(fs.nodes, cache, key);
    ghost var marked;
    r, marked := MaterializeEntry(fs, cachePath, g, a, mountedAt, w, mods);
    trace := Trace(0, 0, marked);
    if r.Err? {
      EntryFailed(start, Snapshot(fs.nodes, fs.mtime), s, cache, g, a, mods, mountedAt, n0, elapsed, fs.now,
                  fs.dirSize, trace, marked);
      return;
    }
    trace := EvictAfter(fs, s, elapsed, cache, key, LaidFor(start.nodes, w, g, a, mods), a, FieldsOf(g, a, mountedAt),
                        start, n0, marked);
  }

  /** `mountPipeline.materialize`, without the target that the HTTP endpoint may ask for: nothing changes
      when the request does not pass the gate. `elapsed` is the time that passes before the
      eviction besides the file system calls. */
  method Materialize(fs: FileSystem, s: Settings, ns: string, raw: Raw, a: Answer, mountedAt: string, elapsed: nat,
                     ghost cache: Path, ghost mods: Modules)
    returns (r: Result<string>, ghost trace: Trace)
    requires fs.Valid() && GoodSettings(s, cache) && PlainCache(fs.nodes, cache)
    requires Parsed(s.lib, raw).Ok? ==> Serves(a, Parsed(s.lib, raw).value.path, mods, fs.now)
    modifies fs
    ensures fs.Valid() && old(fs.now) <= fs.now && PlainCache(fs.nodes, cache)
    ensures Gate(s.lib, s.policies, ns, raw).None? ==> r.Err? && fs.nodes == old(fs.nodes)
    ensures Gate(s.lib, s.policies, ns, raw).Some? ==>
              EntryOutcome(fs.nodes, s, cache, Gate(s.lib, s.policies, ns, raw).value, a, mods, mountedAt,
                           Snapshot(old(fs.nodes), old(fs.mtime)), old(fs.now), elapsed, fs.now, fs.dirSize, trace, r)
  {
    trace := Trace(0, 0, map[]);
    var attrs := Volume.Parse(s.lib, raw);
    if attrs.Err? { return Err, trace; }
    var (res, pol) := Evaluate(s.lib, s.policies, RequestFor(ns, attrs.value), attrs.value.policy);
    if !res.Allowed? { return Err, trace; }
    var g := Grant(attrs.value, pol.value, res.profile);
    r, trace := MaterializeGranted(fs, s, g, a, mountedAt, elapsed, cache, mods);
  }

  // --------------------------------------------------------- what the pipeline makes

  /** What the in-memory backend has written passes the link checks of the publishing copy: links
      that stay inside a submodule stay inside the content directory. */
  lemma ContentPublishes(content: Tree, c: Commit, submodules: bool, mods: Modules, root: Path)
    requires IsContent(content, c, submodules, mods) && Apart(c, mods)
    requires LinksStay(c, root) && (submodules ==> ModulesOk(mods, root))
    ensures LinksAccepted(content, root)
  {
    forall r | r in content && r != [] && content[r].Link? && ".git" !in r
      ensures LinkStays(root, Parent(r), content[r].target)
    {
      ContentLink(content, c, submodules, mods, root, r);
    }
  }

  lemma ContentLink(content: Tree, c: Commit, submodules: bool, mods: Modules, root: Path, r: Path)
    requires IsContent(content, c, submodules, mods)
    requires LinksStay(c, root) && (submodules ==> ModulesOk(mods, root))
    requires r in content && r != [] && content[r].Link? && ".git" !in r
    ensures LinkStays(root, Parent(r), content[r].target)
  {
    if submodules && !Clear(FetchedOf(mods), r) {
      var p :| p in FetchedOf(mods) && Under(p, r);
      assert r == p + r[|p|..];
      ModuleLink(content, mods, root, p, r[|p|..]);
    } else {
      OwnLink(content, c, submodules, mods, r);
    }
  }

  lemma OwnLink(content: Tree, c: Commit, submodules: bool, mods: Modules, r: Path)
    requires IsContent(content, c, submodules, mods) && (submodules ==> Clear(FetchedOf(mods), r))
    requires r in content && content[r].Link?
    ensures r in c && c[r] == SymLink(content[r].target)
  {
    var dirs := if submodules then FetchedOf(mods).Keys else {};
    assert Lookup(content, r) == Lookup(LayOut(ExportLeaves(c), dirs), r);
    assert r in ExportLeaves(c);
  }

  lemma ModuleLink(content: Tree, mods: Modules, root: Path, p: Path, q: Path)
    requires p in mods && mods[p].Some? && Subtree(content, p) == Exported(mods[p].value) && ModulesOk(mods, root)
    requires p + q in content && content[p + q].Link?
    ensures p + q != [] && LinkStays(root, Parent(p + q), content[p + q].target)
  {
    InModule(content, p, q, mods[p].value);
    StaysInModule(mods, root, p, q, content[p + q].target);
    LinkStaysWider(root, p, Parent(q), content[p + q].target);
    assert p + Parent(q) == Parent(p + q);
  }

  /** A link of an export is a link of the commit. */
  lemma InModule(content: Tree, p: Path, q: Path, m: Commit)
    requires Subtree(content, p) == Exported(m) && p + q in content && content[p + q].Link?
    ensures q in m && m[q] == SymLink(content[p + q].target) && ".git" !in q
  {
    assert q in Subtree(content, p) && Subtree(content, p)[q] == content[p + q];
    assert q in ExportLeaves(m);
  }

  lemma StaysInModule(mods: Modules, root: Path, p: Path, q: Path, target: string)
    requires ModulesOk(mods, root) && p in mods && q in mods[p].value && mods[p].value[q] == SymLink(target)
             && ".git" !in q
    ensures q != [] && LinkStays(root + p, Parent(q), target)
  {
    assert LinksStay(mods[p].value, root + p);
  }

  /** A link that stays inside a subdirectory stays inside the directory. */
  lemma LinkStaysWider(root: Path, p: Path, dir: Path, target: string)
    requires LinkStays(root + p, dir, target)
    ensures LinkStays(root, p + dir, target)
  {
    var l := LexicalPath.Parse(target);
    ClimbMeaning(target, |dir|);
    ClimbMeaning(target, |p + dir|);
    StaysMeaning(root + p, dir, l);
    StaysMeaning(root, p + dir, l);
    assert root + p + dir == root + (p + dir);
    assert Under(root, root + p);
    UnderTransitive(root, root + p, From(root + p + dir, l));
  }

  /** Links of marked content are links of the content. */
  lemma MarkedLinks(laid: Tree, d: Path, fields: map<string, string>, marked: Tree, root: Path)
    requires Marks(laid, d, fields, marked) && LinksAccepted(Subtree(laid, d), root)
    ensures LinksAccepted(marked, root)
  {
    forall r | r in marked && r != [] && marked[r].Link? && ".git" !in r
      ensures LinkStays(root, Parent(r), marked[r].target)
    {
      assert Lookup(marked, r) == Some(marked[r]);
      if ProvenanceClear(Subtree(laid, d), FIELD_SET) {
        assert Lookup(marked, r) == MetaEntry(Subtree(laid, d), fields, r);
      } else {
        assert Lookup(marked, r) == Lookup(laid, d + r);
      }
      assert r in Subtree(laid, d);
    }
  }

  /** What the in-memory backend makes always passes the link checks of the publishing copy. */
  lemma MadePublishes(t: Tree, w: Path, g: Grant, remote: Remote, mods: Modules, at: string, marked: Tree, now: int)
    requires [] in t && CanMake(t, w, g, remote, mods) && Serves(Objects(remote), g.attrs.path, mods, now)
    requires Marks(LaidFor(t, w, g, Objects(remote), mods), ContentOf(w), FieldsOf(g, Objects(remote), at), marked)
    ensures LinksAccepted(marked, ContentOf(w))
  {
    MadeAccepted(t, w, g, remote, mods, now);
    LaidContent(t, w, Made(g, remote, mods));
    MarkedLinks(LaidFor(t, w, g, Objects(remote), mods), ContentOf(w), FieldsOf(g, Objects(remote), at), marked,
                ContentOf(w));
  }

  lemma MadeAccepted(t: Tree, w: Path, g: Grant, remote: Remote, mods: Modules, now: int)
    requires CanMake(t, w, g, remote, mods) && Serves(Objects(remote), g.attrs.path, mods, now)
    ensures LinksAccepted(Made(g, remote, mods), ContentOf(w))
  {
    var c := Wanted(g, remote).value;
    ContentExact(Made(g, remote, mods), c, g.attrs.submodules, mods);
    ContentPublishes(Made(g, remote, mods), c, g.attrs.submodules, mods, ContentOf(w));
  }

  /** What the git binary backend copies passes them exactly when the links of its source stay inside as
      seen from the content directory. */
  lemma CopyPublishes(t: Tree, src: Path, root: Path)
    requires GitReady(t, src)
    ensures LinksAccepted(GitCopied(t, src), root) <==> LinksAccepted(Subtree(t, OwnPlace(t, src).value), root)
  {
    var s, copied := Subtree(t, OwnPlace(t, src).value), GitCopied(t, src);
    forall r | r != [] && ".git" !in r
      ensures (r in s && s[r].Link?) <==> (r in copied && copied[r].Link?)
      ensures r in s && s[r].Link? ==> copied[r] == s[r]
    {}
    if LinksAccepted(copied, root) {
      forall r | r in s && r != [] && s[r].Link? && ".git" !in r ensures LinkStays(root, Parent(r), s[r].target) {
        assert copied[r] == s[r];
      }
    }
  }

  /** Under loaded policies the limits are always on, so what is published holds at most the file
      limit and the seven provenance files. */
  lemma PublishedWithinLimits(lib: Library, policies: seq<Policy>, ns: string, raw: Raw, t: Tree, w: Path,
                              remote: Remote, mods: Modules, at: string, marked: Tree)
    requires [] in t
    ensures var gate, a := Gate(lib, Loaded(policies), ns, raw), Objects(remote);
            gate.Some? && CanMake(t, w, gate.value, remote, mods)
            && Marks(LaidFor(t, w, gate.value, a, mods), ContentOf(w), FieldsOf(gate.value, a, at), marked) ==>
              var clone := gate.value.policy.clone;
              && clone.maxFileCount > 0
              && |FileSizes(PublishedTree(marked))| <= clone.maxFileCount + 7
              && Sum(FileSizes(Made(gate.value, remote, mods))) <= clone.maxRepositorySize
  {
    var gate, a := Gate(lib, Loaded(policies), ns, raw), Objects(remote);
    if gate.Some? && CanMake(t, w, gate.value, remote, mods)
       && Marks(LaidFor(t, w, gate.value, a, mods), ContentOf(w), FieldsOf(gate.value, a, at), marked) {
      LoadedLimits(policies, ns, gate.value.attrs.policy);
      LaidContent(t, w, Made(gate.value, remote, mods));
      PublishedFileCount(LaidFor(t, w, gate.value, a, mods), ContentOf(w), InputsOf(gate.value, HashOf(a)), at, marked);
    }
  }

  /** So is what the git binary backend makes, which counts its links as well: files and links, and the
      files published of them. */
  lemma GitPublishedWithinLimits(policies: seq<Policy>, ns: string, name: string, t: Tree, src: Path, laid: Tree,
                                 d: Path, inputs: Inputs, at: string, marked: Tree)
    ensures var p := SelectPolicy(Loaded(policies), ns, name);
            p.Some? && GitSucceeds(t, src, LimitsOf(p.value)) && Subtree(laid, d) == GitCopied(t, src)
            && Marks(laid, d, Fields(inputs, at), marked) ==>
              && |EntrySizes(GitCopied(t, src))| <= p.value.clone.maxFileCount
              && Sum(EntrySizes(GitCopied(t, src))) <= p.value.clone.maxRepositorySize
              && |FileSizes(PublishedTree(marked))| <= p.value.clone.maxFileCount + 7
  {
    var p := SelectPolicy(Loaded(policies), ns, name);
    if p.Some? && GitSucceeds(t, src, LimitsOf(p.value)) && Subtree(laid, d) == GitCopied(t, src)
       && Marks(laid, d, Fields(inputs, at), marked) {
      LoadedLimits(policies, ns, name);
      var copied := GitCopied(t, src);
      SumSubset(FileSizes(copied), EntrySizes(copied));
      PublishedFileCount(laid, d, inputs, at, marked);
    }
  }

  /** `text` and a newline are published in the file `name` of `.gitcontent`. */
  ghost predicate Tells(published: Tree, name: string, text: string) {
    var q := [".gitcontent", name];
    q in published && published[q].File? && published[q].bytes == text + "\n"
  }

  /** What a workload reads of where its content is from, in terms of the request and the answer. */
  lemma ProvenancePublished(laid: Tree, d: Path, g: Grant, a: Answer, at: string, marked: Tree)
    requires Marks(laid, d, FieldsOf(g, a, at), marked) && ProvenanceClear(Subtree(laid, d), FIELD_SET)
    ensures var published := PublishedTree(marked);
            && Tells(published, "repo", g.attrs.repo)
            && Tells(published, "requested-revision", g.attrs.revision)
            && Tells(published, "resolved-revision",
                     match a
                     case Objects(remote) => remote.hash
                     case Working(checkout) => checkout.hash)
            && Tells(published, "mounted-at", at)
            && Tells(published, "policy", g.policy.name)
            && Tells(published, "submodules-enabled", if g.attrs.submodules then "true" else "false")
            && Tells(published, "credential-profile", g.profile)
  {
    var content, fields := Subtree(laid, d), FieldsOf(g, a, at);
    FieldTexts(InputsOf(g, HashOf(a)), at);
    TellsField(content, fields, "repo");
    TellsField(content, fields, "requested-revision");
    TellsField(content, fields, "resolved-revision");
    TellsField(content, fields, "mounted-at");
    TellsField(content, fields, "policy");
    TellsField(content, fields, "submodules-enabled");
    TellsField(content, fields, "credential-profile");
  }

  lemma TellsField(content: Tree, fields: map<string, string>, n: string)
    requires n in fields && n != ".git"
    ensures Tells(PublishedTree(WithMetadata(content, fields)), n, fields[n])
  {
    RecordOf(content, fields, n);
    PublishedShape(WithMetadata(content, fields), [".gitcontent", n]);
  }

  /** Publishing the same resolved commit again, whatever happened between, gives the same tree but for
      the mount time, where no link stands in the way of the provenance. */
  lemma RepublishIdempotent(t: Tree, t': Tree, w: Path, g: Grant, remote: Remote, mods: Modules, at: string,
                            at': string, marked: Tree, marked': Tree, q: Path)
    requires [] in t && [] in t' && CanMake(t, w, g, remote, mods) && CanMake(t', w, g, remote, mods)
    requires ProvenanceClear(Made(g, remote, mods), FIELD_SET) && q != [META, MOUNTED_AT]
    requires Marks(LaidFor(t, w, g, Objects(remote), mods), ContentOf(w), FieldsOf(g, Objects(remote), at), marked)
    requires Marks(LaidFor(t', w, g, Objects(remote), mods), ContentOf(w), FieldsOf(g, Objects(remote), at'), marked')
    ensures Lookup(PublishedTree(marked), q) == Lookup(PublishedTree(marked'), q)
  {
    LaidContent(t, w, Made(g, remote, mods));
    LaidContent(t', w, Made(g, remote, mods));
    RepublishSame(Made(g, remote, mods), InputsOf(g, remote.hash), at, at', q);
  }

  /** When every link of the content is tame, its provenance stays inside it. */
  lemma TameSettles(t: Tree, w: Path, g: Grant, a: Answer, mods: Modules, now: int)
    requires [] in t && Supplied(t, w, g, a, mods).Some? && Tame(Supplied(t, w, g, a, mods).value, [])
    requires WellFormed(LaidFor(t, w, g, a, mods)) && Serves(a, g.attrs.path, mods, now)
    ensures Settled(LaidFor(t, w, g, a, mods), ContentOf(w))
  {
    var laid, content := LaidFor(t, w, g, a, mods), Supplied(t, w, g, a, mods).value;
    GroundRoot(t, w, a);
    LaidContent(GroundOf(t, w, a), w, content);
    ContentIsDir(t, w, g, a, mods, now);
    forall r ensures Lookup(laid, ContentOf(w) + r) == Lookup(content, r) {
      assert Lookup(Subtree(laid, ContentOf(w)), r) == Lookup(content, r);
    }
    TameShift(laid, ContentOf(w), content);
    ProvenanceStays(laid, ContentOf(w));
  }
}
