/** The CSI node service: publishing and unpublishing volumes, and what their targets hold over
    every run of requests, evictions and remote changes. */
module NodePlugins {
  import opened Wrappers
  import opened LexicalPath
  import opened Links
  import opened Trees
  import opened FileSystems
  import opened ContentTrees
  import opened Publishing
  import opened Commits
  import opened Submodules
  import opened Backends
  import opened Metadata
  import opened Cache
  import opened Volume
  import opened Admission
  import opened Entries
  import opened Pipelines

  // ------------------------------------------------------------------------- runs

  /** What one call does to the node: a publish that succeeded leaves `tree` at its target, one that
      failed while publishing leaves anything there, and everything else stays in the cache. A
      publish whose provenance strayed may also have written `places`, where links led it. What the
      remote holds is a parameter of each call, so it may move at any time. */
  datatype Event =
    | Published(target: Path, tree: Tree)
    | PublishFailed(target: Path)
    | Unpublished(target: Path)
    | CacheOnly
    | Strayed(target: Path, places: set<Path>)

  /** Only the trees at `a` and `b` change, missing ancestors of them may appear, and `places` may be
      written. */
  ghost predicate ConfinedToBoth(t: Tree, t': Tree, a: Path, b: Path, places: set<Path>) {
    forall q :: q !in places && !Under(a, q) && !Under(b, q) ==>
      if q in t then q in t' && t'[q] == t[q] else q in t' ==> t'[q].Dir? && (Under(q, a) || Under(q, b))
  }

  ghost predicate Step(t: Tree, t': Tree, cache: Path, e: Event) {
    match e
    case Published(target, tree) =>
      ConfinedToBoth(t, t', cache, target, {}) && target in t' && Subtree(t', target) == tree
    case PublishFailed(target) => ConfinedToBoth(t, t', cache, target, {})
    case Unpublished(target) => t' == Without(t, target)
    case CacheOnly => Confined(t, t', cache)
    case Strayed(target, places) => ConfinedToBoth(t, t', cache, target, places)
  }

  /** `p` is not inside the cache or around it, and is the target of the event or away from it. */
  predicate Suits(e: Event, cache: Path, p: Path) {
    Away(p, cache) && (e.CacheOnly? || e.target == p || Away(p, e.target))
  }

  /** An event concerns a target when it is its own, or when provenance has strayed into it. */
  ghost predicate Concerns(e: Event, p: Path) {
    !e.CacheOnly? && (e.target == p || (e.Strayed? && exists l :: l in e.places && Under(p, l)))
  }

  /** Every step leaves the targets it does not concern alone. */
  lemma StepSpares(t: Tree, t': Tree, cache: Path, e: Event, p: Path)
    requires Step(t, t', cache, e) && Suits(e, cache, p) && !Concerns(e, p)
    ensures Subtree(t', p) == Subtree(t, p) && (p in t' <==> p in t)
  {
    var target := if e.CacheOnly? then cache else e.target;
    forall r ensures Lookup(t', p + r) == Lookup(t, p + r) {
      Outside(p, cache, r);
      Outside(p, target, r);
      assert Under(p, p + r);
      assert e.Strayed? ==> p + r !in e.places;
      assert !Under(cache, p + r) && !Under(target, p + r) && !Under(p + r, cache) && !Under(p + r, target);
    }
    assert p + [] == p && Lookup(t', p + []) == Lookup(t, p + []);
    forall r ensures Lookup(Subtree(t', p), r) == Lookup(Subtree(t, p), r) {
      assert Lookup(t', p + r) == Lookup(t, p + r);
    }
    SameTree(Subtree(t', p), Subtree(t, p));
  }

  lemma Outside(p: Path, a: Path, r: Path)
    requires Away(p, a)
    ensures Away(p + r, a)
  {
    assert Under(p, p + r);
    if Under(a, p + r) { PrefixesCompare(a, p, p + r); }
    if Under(p + r, a) { UnderTransitive(p, p + r, a); }
  }

  /** What a run says of a target. */
  datatype Slot = Untouched | Unknown | Holds(tree: Tree) | Gone

  function SlotOf(e: Event): Slot {
    match e
    case Published(_, tree) => Holds(tree)
    case PublishFailed(_) => Unknown
    case Unpublished(_) => Gone
    case CacheOnly => Untouched
    case Strayed(_, _) => Unknown
  }

  /** A run: the file system it starts from, and the one each event leaves. */
  datatype Run = Start(tree: Tree) | After(before: Run, event: Event, tree: Tree)

  ghost predicate IsRun(run: Run, cache: Path) {
    match run
    case Start(_) => true
    case After(before, e, t) => IsRun(before, cache) && Step(before.tree, t, cache, e)
  }

  function Origin(run: Run): Tree {
    match run
    case Start(t) => t
    case After(before, _, _) => Origin(before)
  }

  /** The last event that concerns `p` decides. */
  ghost function SlotAfter(run: Run, p: Path): Slot {
    match run
    case Start(_) => Untouched
    case After(before, e, _) => if Concerns(e, p) then SlotOf(e) else SlotAfter(before, p)
  }

  /** Targets do not nest in each other, in the cache, or around it. */
  predicate Separate(run: Run, cache: Path, p: Path) {
    match run
    case Start(_) => Away(p, cache)
    case After(before, e, _) => Suits(e, cache, p) && Separate(before, cache, p)
  }

  /** No provenance has strayed. */
  predicate Orderly(run: Run) {
    match run
    case Start(_) => true
    case After(before, e, _) => !e.Strayed? && Orderly(before)
  }

  /** Whether the tree at `p` is what the slot says; `start` is the file system before the run. */
  ghost predicate Agrees(t: Tree, start: Tree, p: Path, slot: Slot) {
    match slot
    case Untouched => Subtree(t, p) == Subtree(start, p) && (p in t <==> p in start)
    case Unknown => true
    case Holds(tree) => p in t && Subtree(t, p) == tree
    case Gone => p !in t && Subtree(t, p) == map[]
  }

  /** One step takes what the slot says to what the next slot says. */
  lemma StepAgrees(t: Tree, t': Tree, start: Tree, cache: Path, e: Event, p: Path, slot: Slot)
    requires Step(t, t', cache, e) && Suits(e, cache, p) && Agrees(t, start, p, slot)
    ensures Agrees(t', start, p, if Concerns(e, p) then SlotOf(e) else slot)
  {
    if !Concerns(e, p) {
      StepSpares(t, t', cache, e, p);
    } else if e.Unpublished? {
      RemovedAll(t, p);
    }
  }

  /** Run isolation: over every run of publishes, unpublishes, evictions and materialisations, the
      tree at a target is exactly what its last successful publish put there, and nothing is there
      after its last unpublish, unless provenance has strayed into it since. Every stage of a run is
      a run, so this holds at every moment. */
  lemma {:induction false} RunIsolation(run: Run, cache: Path, p: Path)
    requires IsRun(run, cache) && Separate(run, cache, p)
    ensures Agrees(run.tree, Origin(run), p, SlotAfter(run, p))
    decreases run
  {
    match run
    case Start(_) =>
    case After(before, e, t) =>
      RunIsolation(before, cache, p);
      StepAgrees(before.tree, t, Origin(run), cache, e, p, SlotAfter(before, p));
  }

  /** In an orderly run only a target's own events count for it. */
  lemma {:induction false} OrderlySlots(run: Run, p: Path)
    requires Orderly(run)
    ensures SlotAfter(run, p) == OwnSlot(run, p)
    decreases run
  {
    match run
    case Start(_) =>
    case After(before, _, _) => OrderlySlots(before, p);
  }

  /** What the last event of its own makes of a target. */
  function OwnSlot(run: Run, p: Path): Slot {
    match run
    case Start(_) => Untouched
    case After(before, e, _) => if !e.CacheOnly? && e.target == p then SlotOf(e) else OwnSlot(before, p)
  }

  lemma RemovedAll(t: Tree, p: Path)
    ensures p !in Without(t, p) && Subtree(Without(t, p), p) == map[]
  {
    forall r ensures p + r !in Without(t, p) { assert Under(p, p + r); }
    assert Under(p, p);
    assert Subtree(Without(t, p), p).Keys == {};
  }

  // ---------------------------------------------------------------- step lemmas

  lemma BothOf(t0: Tree, t1: Tree, t2: Tree, a: Path, b: Path, places: set<Path>)
    requires Confined(t1, t2, b)
    ensures Confined(t0, t1, a) ==> ConfinedToBoth(t0, t2, a, b, {})
    ensures StrayedIn(t0, t1, a, places) ==> ConfinedToBoth(t0, t2, a, b, places)
  {
    if StrayedIn(t0, t1, a, places) {
      forall q | q !in places && !Under(a, q) && !Under(b, q)
        ensures if q in t0 then q in t2 && t2[q] == t0[q] else q in t2 ==> t2[q].Dir? && (Under(q, a) || Under(q, b))
      {
        assert Lookup(t1, q) == Lookup(t0, q) || (q !in t0 && q in t1 && t1[q].Dir? && Under(q, a));
      }
    }
  }

  /** A change at a target leaves the cache in form. */
  lemma FormKept(t: Tree, t': Tree, cache: Path, target: Path)
    requires OnlyContent(t, cache) && Confined(t, t', target) && Away(target, cache)
    ensures OnlyContent(t', cache)
  {
    forall q | q in t' && Under(cache, q) && |q| > |cache| + 1 ensures q[|cache| + 1] == "content" {
      if q !in t {
        if Under(target, q) { PrefixesCompare(target, cache, q); }
        if Under(q, target) { UnderTransitive(cache, q, target); }
      }
    }
  }

  /** Whether a target's directories can be made does not depend on work in the cache. */
  lemma TargetReachable(t: Tree, t': Tree, cache: Path, target: Path)
    requires WellFormed(t) && WellFormed(t') && Confined(t, t', cache) && Away(target, cache) && target != []
    ensures CanMkdir(Without(t', target), target) <==> CanMkdir(Without(t, target), target)
  {
    WithoutWellFormed(t, target);
    WithoutWellFormed(t', target);
    var u, u' := Without(t, target), Without(t', target);
    forall q | Under(q, target) && q != target ensures !Under(cache, q) {
      if Under(cache, q) { UnderTransitive(cache, q, target); }
    }
    if CanMkdir(u, target) {
      forall q | q in u' && Under(q, target) ensures u'[q].Dir? {
        if q in u { CanMkdirMeaning(u, target, q); }
      }
      ClearWay(u', target);
    }
    if CanMkdir(u', target) {
      forall q | q in u && Under(q, target) ensures u[q].Dir? {
        CanMkdirMeaning(u', target, q);
      }
      ClearWay(u, target);
    }
  }

  // -------------------------------------------------------------------- the service

  /** The parts of a publish request that the driver looks at. */
  datatype PublishRequest = PublishRequest(volumeId: string, targetPath: string, mountCapability: bool, readonly: bool,
                                           context: Raw)

  /** The checks before anything happens. */
  method CheckRequest(req: PublishRequest) returns (ok: bool)
    ensures ok <==> req.volumeId != "" && req.targetPath != "" && req.mountCapability && req.readonly
  {
    if req.volumeId == "" { return false; }
    if req.targetPath == "" { return false; }
    if !req.mountCapability { return false; }
    if !req.readonly { return false; }
    return true;
  }

  /** One publish request and what it met: the grant it has, what its backend got, the time it was
      mounted, and the time that passed before its eviction besides the file system calls. */
  datatype Attempt = Attempt(gate: Option<Grant>, answer: Answer, mods: Modules, at: string, elapsed: nat)

  /** What comes of content laid out as `laid` in the entry `key`, for an attempt at `target` from `start` to
      `t`. Where links lead the provenance out of the content, it may be written there. Otherwise
      the attempt succeeds exactly when the provenance can be written, the eviction spares the
      content, its links stay inside it and the target's directories can be made; the target then
      holds the marked content, read-only. Without provenance no target is touched. */
  ghost predicate LaidOutcome(cache: Path, key: string, cfg: Config, laid: Tree, fields: map<string, string>,
                              start: Snapshot, t: Tree, a: Attempt, target: Path, dirSize: nat, since: int, now: int,
                              trace: Trace, ok: bool,
                              e: Event)
    requires [] in start.nodes
  {
    var held := ContentOf(cache + [key]);
    if !Settled(laid, held) then
      e == Strayed(target, MetaPlaces(laid, held, FIELD_SET)) && (ok ==> AllLead(laid, held))
    else if !CanMark(laid, held) then !ok && e == CacheOnly
    else
      && Marks(laid, held, fields, trace.marked)
      && Stored(t, cache, key, cfg, a.answer, start, since, a.elapsed, now, dirSize, trace)
      && (ok <==> held in t && LinksAccepted(trace.marked, held) && CanMkdir(Without(start.nodes, target), target))
      && e == if ok then Published(target, PublishedTree(trace.marked)) else PublishFailed(target)
  }

  /** What comes of an attempt: nothing happens without a grant, and no target is touched without content. */
  ghost predicate Outcome(s: Settings, cache: Path, start: Snapshot, t: Tree, a: Attempt, target: Path, dirSize: nat,
                          since: int, now: int, trace: Trace, ok: bool, e: Event)
    requires [] in start.nodes
  {
    match a.gate
    case None => !ok && e == CacheOnly && t == start.nodes
    case Some(g) =>
      var w := EntryOf(s, cache, g);
      if Supplied(start.nodes, w, g, a.answer, a.mods).None? then !ok && e == CacheOnly
      else
        LaidOutcome(cache, EntryKey(s, g), s.cfg, LaidFor(start.nodes, w, g, a.answer, a.mods),
                    FieldsOf(g, a.answer, a.at), start, t, a, target, dirSize, since, now, trace, ok, e)
  }

  /** With the git binary backend a publish fails whenever something that Git left beside the content is
      older than the age limit, however new the content is. */
  lemma AgedFails(s: Settings, cache: Path, start: Snapshot, t: Tree, a: Attempt, target: Path, dirSize: nat,
                  since: int, now: int, trace: Trace, ok: bool, e: Event)
    requires [] in start.nodes && Outcome(s, cache, start, t, a, target, dirSize, since, now, trace, ok, e)
    requires a.gate.Some? && AgedBeside(start, EntryOf(s, cache, a.gate.value), a.answer, trace.evictedAt, s.cfg.maxAge)
    ensures e.Strayed? || !ok
  {}

  lemma PublishedRoot(t: Tree, p: Path, marked: Tree)
    requires Subtree(t, p) == PublishedTree(marked)
    ensures p in t
  {
    assert [] in PublishedTree(marked);
    assert p + [] == p;
  }

  lemma EntryNamed(s: Settings, cache: Path, g: Grant)
    requires GoodSettings(s, cache)
    ensures Names(ContentOf(EntryOf(s, cache, g))) && Under(cache, ContentOf(EntryOf(s, cache, g)))
  {
    assert IsName(EntryKey(s, g)) && IsName("content");
  }

  /** A link above a target is not made by work in the cache. */
  lemma StillReachable(t: Tree, t': Tree, cache: Path, target: Path, places: set<Path>)
    requires !PassesLink(t, target) && StrayedIn(t, t', cache, places) && Away(target, cache)
    ensures !PassesLink(t', target)
  {
    forall q | q in t' && Under(q, target) && q != target ensures !t'[q].Link? {
      if Under(cache, q) { UnderTransitive(cache, q, target); }
      assert Lookup(t', q) == Lookup(t, q) || t'[q].Dir? || t'[q].File?;
    }
  }

  /** No link stands above the content of an entry. */
  lemma HeldPlain(t: Tree, cache: Path, key: string)
    requires PlainCache(t, cache)
    ensures !PassesLink(t, ContentOf(cache + [key]))
  {
    PlainEntry(t, cache, key);
    forall q | q in t && Under(q, ContentOf(cache + [key])) && q != ContentOf(cache + [key]) ensures !t[q].Link? {
      UnderParent(q, ContentOf(cache + [key]));
      assert Parent(ContentOf(cache + [key])) == cache + [key];
    }
  }

  /** What the copy out of the cache comes to, where the provenance is in place. */
  lemma CopiedOutcome(cache: Path, key: string, cfg: Config, laid: Tree, fields: map<string, string>, start: Snapshot,
                      t1: Tree, t2: Tree, a: Attempt, target: Path, dirSize: nat, since: int, made: int, now: int,
                      trace: Trace, ok: bool)
    requires WellFormed(start.nodes) && WellFormed(t1) && Away(target, cache) && target != [] && made <= now
    requires Settled(laid, ContentOf(cache + [key]))
    requires MarkOutcome(t1, cache, key, cfg, laid, a.answer, fields, start, since, a.elapsed, made, dirSize, trace,
                         true)
    requires Confined(t1, t2, target) && (ok <==> PublishSucceeds(t1, ContentOf(cache + [key]), target))
    requires ok ==> Subtree(t2, target) == PublishedTree(Subtree(t1, ContentOf(cache + [key])))
    ensures var e := if ok then Published(target, PublishedTree(trace.marked)) else PublishFailed(target);
            && LaidOutcome(cache, key, cfg, laid, fields, start, t2, a, target, dirSize, since, now, trace, ok, e)
            && Step(start.nodes, t2, cache, e)
  {
    var held := ContentOf(cache + [key]);
    TargetReachable(start.nodes, t1, cache, target);
    assert Under(cache, held);
    HeldSame(t1, t2, cache, held, target);
    BothOf(start.nodes, t1, t2, cache, target, {});
    if ok { PublishedRoot(t2, target, trace.marked); }
  }

  /** What comes of a request whose content is not made, or not marked. */
  lemma FailedOutcome(s: Settings, cache: Path, start: Snapshot, t: Tree, a: Attempt, target: Path, dirSize: nat,
                      since: int, now: int, trace: Trace)
    returns (e: Event)
    requires [] in start.nodes && (a.gate.None? ==> t == start.nodes)
    requires a.gate.Some? ==>
               EntryOutcome(t, s, cache, a.gate.value, a.answer, a.mods, a.at, start, since, a.elapsed, now,
                                           dirSize, trace, Err)
    ensures Outcome(s, cache, start, t, a, target, dirSize, since, now, trace, false, e)
    ensures Step(start.nodes, t, cache, e) && FormStep(start.nodes, t, cache, a.answer, e)
  {
    e := CacheOnly;
    if a.gate.Some? {
      var g := a.gate.value;
      var w := EntryOf(s, cache, g);
      if Supplied(start.nodes, w, g, a.answer, a.mods).Some? {
        var laid := LaidFor(start.nodes, w, g, a.answer, a.mods);
        if !Settled(laid, ContentOf(w)) {
          e := Strayed(target, MetaPlaces(laid, ContentOf(w), FIELD_SET));
          BothOf(start.nodes, t, t, cache, target, MetaPlaces(laid, ContentOf(w), FIELD_SET));
        }
      }
    }
  }

  /** A request answered from memory leaves a cache that holds content only as it should be, unless its
      provenance strays. */
  ghost predicate FormStep(t: Tree, t': Tree, cache: Path, a: Answer, e: Event) {
    a.Objects? && OnlyContent(t, cache) && !e.Strayed? ==> OnlyContent(t', cache)
  }

  lemma HeldSame(t1: Tree, t2: Tree, cache: Path, held: Path, target: Path)
    requires Confined(t1, t2, target) && Away(target, cache) && Under(cache, held)
    ensures (held in t2 <==> held in t1) && Subtree(t2, held) == Subtree(t1, held)
  {
    assert cache + held[|cache|..] == held;
    forall r ensures Lookup(t2, held + r) == Lookup(t1, held + r) {
      Outside(cache, target, held[|cache|..] + r);
      assert cache + (held[|cache|..] + r) == held + r;
    }
    assert held + [] == held && Lookup(t2, held + []) == Lookup(t1, held + []);
    forall r ensures Lookup(Subtree(t2, held), r) == Lookup(Subtree(t1, held), r) {
      assert Lookup(t2, held + r) == Lookup(t1, held + r);
    }
    SameTree(Subtree(t2, held), Subtree(t1, held));
  }

  lemma HeldAway(cache: Path, held: Path, target: Path)
    requires Under(cache, held) && Away(target, cache)
    ensures Away(held, target)
  {
    Outside(cache, target, held[|cache|..]);
    assert cache + held[|cache|..] == held;
  }

  lemma FormKeptIf(t: Tree, t': Tree, cache: Path, target: Path)
    requires Confined(t, t', target) && Away(target, cache)
    ensures OnlyContent(t, cache) ==> OnlyContent(t', cache)
    ensures PlainCache(t, cache) ==> PlainCache(t', cache)
  {
    if OnlyContent(t, cache) { FormKept(t, t', cache, target); }
    if PlainCache(t, cache) { PlainBeside(t, t', cache, target); }
  }

  lemma PlainBeside(t: Tree, t': Tree, cache: Path, target: Path)
    requires PlainCache(t, cache) && Confined(t, t', target) && Away(target, cache)
    ensures PlainCache(t', cache)
  {
    forall q | q in t' && Under(q, cache) ensures !t'[q].Link? {
      if Under(target, q) { UnderTransitive(target, q, cache); }
    }
    forall n | cache + [n] in t' ensures !t'[cache + [n]].Link? {
      Outside(cache, target, [n]);
    }
  }

  /** `NodePublishVolume` once the pipeline has answered: publish what it returned. */
  method PublishSource(fs: FileSystem, s: Settings, source: Result<string>, target: string, ghost cache: Path,
                       ghost start: Snapshot, ghost since: int, ghost a: Attempt, ghost trace: Trace)
    returns (ok: bool, ghost e: Event)
    requires fs.Valid() && GoodSettings(s, cache) && PlainCache(fs.nodes, cache)
    requires IsAbs(target) && Away(Loc(target), cache) && WellFormed(start.nodes)
             && !PassesLink(start.nodes, Loc(target))
    requires a.gate.None? ==> source.Err? && fs.nodes == start.nodes
    requires a.gate.Some? ==>
               EntryOutcome(fs.nodes, s, cache, a.gate.value, a.answer, a.mods, a.at, start, since, a.elapsed, fs.now,
                            fs.dirSize, trace, source)
    modifies fs
    ensures fs.Valid() && old(fs.now) <= fs.now && PlainCache(fs.nodes, cache)
    ensures Step(start.nodes, fs.nodes, cache, e) && FormStep(start.nodes, fs.nodes, cache, a.answer, e)
    ensures Outcome(s, cache, start, fs.nodes, a, Loc(target), fs.dirSize, since, fs.now, trace, ok, e)
  {
    if source.Err? {
      e := FailedOutcome(s, cache, start, fs.nodes, a, Loc(target), fs.dirSize, since, fs.now, trace);
      return false, e;
    }
    ghost var g := a.gate.value;
    EntryNamed(s, cache, g);
    ok, e := PublishHeld(fs, source.value, target, cache, EntryKey(s, g), s.cfg,
                         LaidFor(start.nodes, EntryOf(s, cache, g), g, a.answer, a.mods), FieldsOf(g, a.answer, a.at),
                         start, since, a, trace);
  }

  /** Publishing what an entry holds. */
  method PublishHeld(fs: FileSystem, source: string, target: string, ghost cache: Path, ghost key: string,
                     ghost cfg: Config, ghost laid: Tree, ghost fields: map<string, string>, ghost start: Snapshot,
                         ghost since: int,
                     ghost a: Attempt, ghost trace: Trace)
    returns (ok: bool, ghost e: Event)
    requires fs.Valid() && PlainCache(fs.nodes, cache) && WellFormed(start.nodes)
    requires Names(ContentOf(cache + [key])) && source == Abs(ContentOf(cache + [key]))
    requires IsAbs(target) && Away(Loc(target), cache) && !PassesLink(start.nodes, Loc(target))
    requires MarkOutcome(fs.nodes, cache, key, cfg, laid, a.answer, fields, start, since, a.elapsed, fs.now,
                         fs.dirSize, trace, true)
    modifies fs
    ensures fs.Valid() && old(fs.now) <= fs.now && PlainCache(fs.nodes, cache)
    ensures Step(start.nodes, fs.nodes, cache, e) && FormStep(start.nodes, fs.nodes, cache, a.answer, e)
    ensures LaidOutcome(cache, key, cfg, laid, fields, start, fs.nodes, a, Loc(target), fs.dirSize, since, fs.now,
                        trace, ok, e)
  {
    ghost var t1, n1, p, held := fs.nodes, fs.now, Loc(target), ContentOf(cache + [key]);
    ghost var settled, places := Settled(laid, held), MetaPlaces(laid, held, FIELD_SET);
    AbsLoc(held);
    assert Under(cache, held);
    HeldAway(cache, held, p);
    HeldPlain(t1, cache, key);
    if settled { ConfinedStrays(start.nodes, t1, cache); }
    StillReachable(start.nodes, t1, cache, p, if settled then {} else places);
    ok := PublishReadOnly(fs, source, target);
    FormKeptIf(t1, fs.nodes, cache, p);
    if settled {
      e := if ok then Published(p, PublishedTree(trace.marked)) else PublishFailed(p);
      CopiedOutcome(cache, key, cfg, laid, fields, start, t1, fs.nodes, a, p, fs.dirSize, since, n1, fs.now, trace, ok);
    } else {
      e := Strayed(p, places);
      BothOf(start.nodes, t1, fs.nodes, cache, p, places);
    }
  }

  /** `NodePublishVolume` after its checks: materialise, then publish. */
  method PublishVolume(fs: FileSystem, s: Settings, context: Raw, target: string, answer: Answer, mountedAt: string,
                       elapsed: nat, ghost cache: Path, ghost mods: Modules)
    returns (ok: bool, ghost e: Event, ghost trace: Trace)
    requires fs.Valid() && GoodSettings(s, cache) && PlainCache(fs.nodes, cache)
    requires IsAbs(target) && Away(Loc(target), cache) && !PassesLink(fs.nodes, Loc(target))
    requires Parsed(s.lib, context).Ok? ==> Serves(answer, Parsed(s.lib, context).value.path, mods, fs.now)
    modifies fs
    ensures fs.Valid() && old(fs.now) <= fs.now && PlainCache(fs.nodes, cache)
    ensures Step(old(fs.nodes), fs.nodes, cache, e) && FormStep(old(fs.nodes), fs.nodes, cache, answer, e)
    ensures Outcome(s, cache, Snapshot(old(fs.nodes), old(fs.mtime)), fs.nodes,
                    Attempt(NodeGate(s.lib, s.policies, context), answer, mods, mountedAt, elapsed), Loc(target),
                    fs.dirSize, old(fs.now), fs.now, trace, ok, e)
  {
    var source;
    source, trace := Materialize(fs, s, ContextNamespace(context), context, answer, mountedAt, elapsed, cache, mods);
    ok, e := PublishSource(fs, s, source, target, cache, Snapshot(old(fs.nodes), old(fs.mtime)), old(fs.now),
                           Attempt(NodeGate(s.lib, s.policies, context), answer, mods, mountedAt, elapsed), trace);
  }

  /** A run of the service: every event is a step, and a node with the in-memory backend keeps a cache that
      holds content only, as long as no provenance strays. */
  ghost predicate Recorded(run: Run, cache: Path, inMemory: bool) {
    match run
    case Start(_) => true
    case After(before, e, t) =>
      && Recorded(before, cache, inMemory) && Step(before.tree, t, cache, e)
      && (inMemory && OnlyContent(before.tree, cache) && !e.Strayed? ==> OnlyContent(t, cache))
  }

  lemma {:induction false} RecordedMeaning(run: Run, cache: Path, inMemory: bool)
    requires Recorded(run, cache, inMemory)
    ensures IsRun(run, cache)
    ensures inMemory && OnlyContent(Origin(run), cache) && Orderly(run) ==> OnlyContent(run.tree, cache)
    decreases run
  {
    match run
    case Start(_) =>
    case After(before, _, _) => RecordedMeaning(before, cache, inMemory);
  }

  /** The node service, with the run it has been through. */
  class Node {
    const fs: FileSystem
    const settings: Settings
    ghost const cache: Path
    ghost var run: Run

    ghost predicate Valid()
      reads this, fs
    {
      && fs.Valid() && GoodSettings(settings, cache) && PlainCache(fs.nodes, cache)
      && Recorded(run, cache, !settings.gitBinary) && run.tree == fs.nodes
    }

    constructor (fs: FileSystem, settings: Settings, ghost cache: Path)
      requires fs.Valid() && GoodSettings(settings, cache) && PlainCache(fs.nodes, cache)
      ensures Valid() && this.fs == fs && this.settings == settings && this.cache == cache
      ensures run == Start(fs.nodes)
    {
      this.fs, this.settings, this.cache := fs, settings, cache;
      this.run := Start(fs.nodes);
    }

    /** A place the driver may publish at: away from the cache and the other targets, with no link above it. */
    ghost predicate Target(p: Path)
      reads this, fs
    {
      Separate(run, cache, p) && !PassesLink(fs.nodes, p)
    }

    /** `NodePublishVolume`. An incomplete request changes nothing; otherwise the outcome of the
        attempt is the next event of the run. */
    method NodePublishVolume(req: PublishRequest, answer: Answer, mountedAt: string, elapsed: nat, ghost mods: Modules)
      returns (ok: bool, ghost e: Event, ghost trace: Trace)
      requires Valid() && (answer.Working? <==> settings.gitBinary)
      requires req.targetPath != "" ==> IsAbs(req.targetPath) && Target(Loc(req.targetPath))
      requires Parsed(settings.lib, req.context).Ok? ==>
                 Serves(answer, Parsed(settings.lib, req.context).value.path, mods, fs.now)
      modifies this, fs
      ensures Valid()
      ensures req.volumeId == "" || req.targetPath == "" || !req.mountCapability || !req.readonly ==>
                !ok && run == old(run) && fs.nodes == old(fs.nodes)
      ensures req.volumeId != "" && req.targetPath != "" && req.mountCapability && req.readonly ==>
                && run == After(old(run), e, fs.nodes)
                && Outcome(settings, cache, Snapshot(old(fs.nodes), old(fs.mtime)), fs.nodes,
                           Attempt(NodeGate(settings.lib, settings.policies, req.context), answer, mods, mountedAt,
                                   elapsed),
                           Loc(req.targetPath), fs.dirSize, old(fs.now), fs.now, trace, ok, e)
    {
      ok, e, trace := false, CacheOnly, Trace(0, 0, map[]);
      var complete := CheckRequest(req);
      if !complete { return; }
      SeparateAway(run, cache, Loc(req.targetPath));
      ok, e, trace := PublishVolume(fs, settings, req.context, req.targetPath, answer, mountedAt, elapsed, cache, mods);
      run := After(run, e, fs.nodes);
    }

    /** `NodeUnpublishVolume`: exactly the target's tree is removed. */
    method NodeUnpublishVolume(targetPath: string) returns (ok: bool)
      requires Valid()
      requires targetPath != "" ==> IsAbs(targetPath) && Target(Loc(targetPath))
      modifies this, fs
      ensures Valid()
      ensures ok <==> targetPath != ""
      ensures !ok ==> run == old(run) && fs.nodes == old(fs.nodes)
      ensures ok ==> run == After(old(run), Unpublished(Loc(targetPath)), fs.nodes)
                     && fs.nodes == Without(old(fs.nodes), Loc(targetPath))
    {
      if targetPath == "" { return false; }
      SeparateAway(run, cache, Loc(targetPath));
      Unpublish(fs, targetPath);
      FormKeptIf(old(fs.nodes), fs.nodes, cache, Loc(targetPath));
      run := After(run, Unpublished(Loc(targetPath)), fs.nodes);
      ok := true;
    }

    /** The HTTP endpoint when no target is asked for: the cache alone changes, but for provenance that
        strays. */
    method Mount(ns: string, raw: Raw, answer: Answer, mountedAt: string, elapsed: nat, ghost mods: Modules)
      returns (r: Result<string>, ghost e: Event, ghost trace: Trace)
      requires Valid() && (answer.Working? <==> settings.gitBinary)
      requires Parsed(settings.lib, raw).Ok? ==> Serves(answer, Parsed(settings.lib, raw).value.path, mods, fs.now)
      modifies this, fs
      ensures Valid() && run == After(old(run), e, fs.nodes)
      ensures MountOutcome(settings, cache, Snapshot(old(fs.nodes), old(fs.mtime)), fs.nodes,
                           Attempt(Gate(settings.lib, settings.policies, ns, raw), answer, mods, mountedAt, elapsed),
                           fs.dirSize, old(fs.now), fs.now, trace, r, e)
    {
      r, trace := Materialize(fs, settings, ns, raw, answer, mountedAt, elapsed, cache, mods);
      e := MountEvent(settings, cache, Snapshot(old(fs.nodes), old(fs.mtime)), fs.nodes,
                      Attempt(Gate(settings.lib, settings.policies, ns, raw), answer, mods, mountedAt, elapsed),
                      fs.dirSize, old(fs.now), fs.now, trace, r);
      run := After(run, e, fs.nodes);
    }

    /** At every moment, every target separate from the others holds what the run says. */
    lemma Isolation(p: Path)
      requires Valid() && Separate(run, cache, p)
      ensures Agrees(fs.nodes, Origin(run), p, SlotAfter(run, p))
    {
      RecordedMeaning(run, cache, !settings.gitBinary);
      RunIsolation(run, cache, p);
    }

    /** In an orderly run with the in-memory backend, from a cache that holds content only, it always does,
        so the outcome of every publish is settled by the request, the remote's answer and the clock. */
    lemma KeepsForm()
      requires Valid() && !settings.gitBinary && OnlyContent(Origin(run), cache) && Orderly(run)
      ensures OnlyContent(fs.nodes, cache)
    {
      RecordedMeaning(run, cache, !settings.gitBinary);
    }
  }

  /** What comes of a request for content alone. */
  ghost predicate MountOutcome(s: Settings, cache: Path, start: Snapshot, t: Tree, a: Attempt, dirSize: nat,
                               since: int, now: int, trace: Trace, r: Result<string>, e: Event)
    requires [] in start.nodes
  {
    match a.gate
    case None => r.Err? && e == CacheOnly && t == start.nodes
    case Some(g) =>
      && EntryOutcome(t, s, cache, g, a.answer, a.mods, a.at, start, since, a.elapsed, now, dirSize, trace, r)
      && var w := EntryOf(s, cache, g);
         if Supplied(start.nodes, w, g, a.answer, a.mods).Some?
            && !Settled(LaidFor(start.nodes, w, g, a.answer, a.mods), ContentOf(w))
         then e == Strayed(cache, MetaPlaces(LaidFor(start.nodes, w, g, a.answer, a.mods), ContentOf(w), FIELD_SET))
         else e == CacheOnly
  }

  lemma MountEvent(s: Settings, cache: Path, start: Snapshot, t: Tree, a: Attempt, dirSize: nat, since: int, now: int,
                   trace: Trace, r: Result<string>)
    returns (e: Event)
    requires [] in start.nodes && (a.gate.None? ==> r.Err? && t == start.nodes)
    requires a.gate.Some? ==>
               EntryOutcome(t, s, cache, a.gate.value, a.answer, a.mods, a.at, start, since, a.elapsed, now,
                                           dirSize, trace, r)
    ensures MountOutcome(s, cache, start, t, a, dirSize, since, now, trace, r, e)
    ensures Step(start.nodes, t, cache, e) && FormStep(start.nodes, t, cache, a.answer, e)
  {
    e := CacheOnly;
    if a.gate.Some? {
      var g := a.gate.value;
      var w := EntryOf(s, cache, g);
      if Supplied(start.nodes, w, g, a.answer, a.mods).Some? {
        var laid := LaidFor(start.nodes, w, g, a.answer, a.mods);
        if !Settled(laid, ContentOf(w)) {
          e := Strayed(cache, MetaPlaces(laid, ContentOf(w), FIELD_SET));
          BothOf(start.nodes, t, t, cache, cache, MetaPlaces(laid, ContentOf(w), FIELD_SET));
        }
      }
    }
  }

  lemma {:induction false} SeparateAway(run: Run, cache: Path, p: Path)
    requires Separate(run, cache, p)
    ensures Away(p, cache)
    decreases run
  {
    match run
    case Start(_) =>
    case After(before, e, _) => SeparateAway(before, cache, p);
  }
}
