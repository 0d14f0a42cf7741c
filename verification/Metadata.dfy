/** The provenance files written into the content directory. */
module Metadata {
  import opened Wrappers
  import opened LexicalPath
  import opened Links
  import opened Trees
  import opened FileSystems
  import opened Publishing
  import opened Commits
  import opened Backends

  datatype Inputs = Inputs(repo: string, requestedRev: string, resolvedRev: string, policy: string,
                           submodules: bool, credentialProfile: string)

  const META := ".gitcontent"

  const MOUNTED_AT := "mounted-at"

  /** The names of the provenance files. */
  const FIELD_NAMES: seq<string> :=
    ["repo", "requested-revision", "resolved-revision", MOUNTED_AT, "policy", "submodules-enabled",
     "credential-profile"]

  /** The same names, as a set. */
  const FIELD_SET: set<string> := set n | n in FIELD_NAMES

  /** The value of a provenance file; the clock is a parameter. */
  function FieldValue(inputs: Inputs, mountedAt: string, name: string): string {
    if name == "repo" then inputs.repo
    else if name == "requested-revision" then inputs.requestedRev
    else if name == "resolved-revision" then inputs.resolvedRev
    else if name == MOUNTED_AT then mountedAt
    else if name == "policy" then inputs.policy
    else if name == "submodules-enabled" then (if inputs.submodules then "true" else "false")
    else inputs.credentialProfile
  }

  function Fields(inputs: Inputs, mountedAt: string): map<string, string> {
    map n | n in FIELD_NAMES :: FieldValue(inputs, mountedAt, n)
  }

  /** Which text belongs in which file. */
  lemma FieldTexts(inputs: Inputs, mountedAt: string)
    ensures Fields(inputs, mountedAt) ==
            map["repo" := inputs.repo, "requested-revision" := inputs.requestedRev,
                "resolved-revision" := inputs.resolvedRev, "mounted-at" := mountedAt, "policy" := inputs.policy,
                "submodules-enabled" := if inputs.submodules then "true" else "false",
                "credential-profile" := inputs.credentialProfile]
  {}

  /** `text` and a newline are in the file `name` of the directory `.gitcontent`, and one that was not there
      before has mode 0644. */
  ghost predicate Records(before: Tree, marked: Tree, name: string, text: string) {
    var q := [".gitcontent", name];
    && q in marked && marked[q].File? && marked[q].bytes == text + "\n"
    && (q !in before ==> marked[q].perm == 0x1A4)
  }

  /** The seven files, each by its name. */
  ghost predicate RecordsAll(before: Tree, marked: Tree, inputs: Inputs, mountedAt: string) {
    && [".gitcontent"] in marked
    && ([".gitcontent"] !in before ==> marked[[".gitcontent"]] == Dir(0x1ED))
    && Records(before, marked, "repo", inputs.repo)
    && Records(before, marked, "requested-revision", inputs.requestedRev)
    && Records(before, marked, "resolved-revision", inputs.resolvedRev)
    && Records(before, marked, "mounted-at", mountedAt)
    && Records(before, marked, "policy", inputs.policy)
    && Records(before, marked, "submodules-enabled", if inputs.submodules then "true" else "false")
    && Records(before, marked, "credential-profile", inputs.credentialProfile)
  }

  lemma RecordOf(content: Tree, fields: map<string, string>, n: string)
    requires n in fields
    ensures Records(content, WithMetadata(content, fields), n, fields[n])
  {
    var marked := WithMetadata(content, fields);
    assert IsMeta([META, n], fields.Keys);
    assert Lookup(marked, [META, n]) == Some(MetaFile(Lookup(content, [META, n]), fields[n]));
  }

  lemma MetaDirectory(content: Tree, fields: map<string, string>)
    ensures [META] in WithMetadata(content, fields)
    ensures [META] !in content ==> WithMetadata(content, fields)[[META]] == Dir(0x1ED)
  {
    assert Lookup(WithMetadata(content, fields), [META]) == MetaEntry(content, fields, [META]);
  }

  lemma WithMetadataRecords(content: Tree, inputs: Inputs, mountedAt: string)
    ensures RecordsAll(content, WithMetadata(content, Fields(inputs, mountedAt)), inputs, mountedAt)
  {
    FieldTexts(inputs, mountedAt);
    var fields := Fields(inputs, mountedAt);
    MetaDirectory(content, fields);
    RecordOf(content, fields, "repo");
    RecordOf(content, fields, "requested-revision");
    RecordOf(content, fields, "resolved-revision");
    RecordOf(content, fields, "mounted-at");
    RecordOf(content, fields, "policy");
    RecordOf(content, fields, "submodules-enabled");
    RecordOf(content, fields, "credential-profile");
  }

  /** The seven names are directory entry names, none of them `.git`. */
  lemma FieldNames()
    ensures forall n :: n in FIELD_NAMES ==> IsName(n) && n != ".git"
  {}

  /** One provenance file in a content tree: a present file keeps its mode. */
  function MetaFile(present: Option<Node>, value: string): Node {
    File(value + "\n", if present.Some? && present.value.File? then present.value.perm else METADATA_FILE)
  }

  /** Whether the files can be written: what the repository holds in their places is of the right kind. */
  predicate MetadataFits(t: Tree, names: set<string>) {
    && ([META] in t ==> t[[META]].Dir?)
    && forall n :: n in names && [META, n] in t ==> t[[META, n]].File?
  }

  /** No link stands where the provenance goes. */
  predicate ProvenanceClear(t: Tree, names: set<string>) {
    && ([META] in t ==> !t[[META]].Link?)
    && forall n :: n in names && [META, n] in t ==> !t[[META, n]].Link?
  }

  /** Where the provenance of the content directory `d` is really written, its links followed. */
  ghost function MetaPlaces(t: Tree, d: Path, names: set<string>): set<Path> {
    set n | n in names && LeadsTo(t, d + [META, n]).Some? :: LeadsTo(t, d + [META, n]).value
  }

  /** `n` is the file at `q` with one of the texts whose path leads there: a present file keeps its mode. */
  ghost predicate RewrittenAs(t: Tree, d: Path, fields: map<string, string>, q: Path, n: Option<Node>) {
    && n.Some? && n.value.File?
    && (if q in t then t[q].File? && n.value.perm == t[q].perm else n.value.perm == METADATA_FILE)
    && exists f :: f in fields && LeadsTo(t, d + [META, f]) == Some(q) && n.value.bytes == fields[f] + "\n"
  }

  /** Only the places of the provenance change, and only by being written. */
  ghost predicate Through(t: Tree, t': Tree, d: Path, fields: map<string, string>) {
    forall q :: Lookup(t', q) == Lookup(t, q)
                || (q in MetaPlaces(t, d, fields.Keys) && RewrittenAs(t, d, fields, q, Lookup(t', q)))
  }

  /** Whether a path is that of one of the named provenance files. */
  predicate IsMeta(q: Path, names: set<string>) {
    |q| == 2 && q[0] == META && q[1] in names
  }

  /** The entry of a content tree once the provenance files are written. */
  function MetaEntry(t: Tree, fields: map<string, string>, q: Path): Option<Node> {
    if IsMeta(q, fields.Keys) then Some(MetaFile(Lookup(t, q), fields[q[1]]))
    else if q == [META] && q !in t then Some(Dir(PUBLIC_DIR))
    else Lookup(t, q)
  }

  /** The content tree with the provenance files. */
  ghost function WithMetadata(t: Tree, fields: map<string, string>): (r: Tree)
    ensures forall q :: Lookup(r, q) == MetaEntry(t, fields, q)
  {
    var files := set n | n in fields :: [META, n];
    assert forall q :: IsMeta(q, fields.Keys) ==> q in files by {
      forall q | IsMeta(q, fields.Keys) ensures q in files { assert q == [META, q[1]] && q[1] in fields; }
    }
    map q | q in t.Keys + {[META]} + files :: MetaEntry(t, fields, q).value
  }

  /** Whether the provenance of the content directory `d` stays inside it. */
  ghost predicate Settled(t: Tree, d: Path) {
    ProvenanceClear(Subtree(t, d), FIELD_SET) || forall q :: q in MetaPlaces(t, d, FIELD_SET) ==> Under(d, q)
  }

  /** Whether every provenance file of `d` can be written where its links lead. */
  ghost predicate AllLead(t: Tree, d: Path) {
    LeadsToDir(t, d + [META]) && forall n :: n in FIELD_SET ==> CanWriteFile(t, d + [META, n])
  }

  /** Whether the provenance can be written. */
  ghost predicate CanMark(t: Tree, d: Path) {
    if ProvenanceClear(Subtree(t, d), FIELD_SET) then MetadataFits(Subtree(t, d), FIELD_SET) else AllLead(t, d)
  }

  /** `marked` is the content at `d` with its provenance: the seven files in their places, or, where a
      link stands in the way, written over what their links lead to. */
  ghost predicate Marks(t: Tree, d: Path, fields: map<string, string>, marked: Tree) {
    if ProvenanceClear(Subtree(t, d), FIELD_SET) then marked == WithMetadata(Subtree(t, d), fields)
    else Overwritten(t, d, fields, marked)
  }

  ghost predicate Overwritten(t: Tree, d: Path, fields: map<string, string>, marked: Tree) {
    && (forall r :: Lookup(marked, r) == Lookup(t, d + r)
                    || (d + r in MetaPlaces(t, d, fields.Keys) && RewrittenAs(t, d, fields, d + r, Lookup(marked, r))))
    && (forall r :: d + r in MetaPlaces(t, d, fields.Keys) ==> RewrittenAs(t, d, fields, d + r, Lookup(marked, r)))
  }

  /** `metadata.Write`. Where no link stands in the way, the files are written in the content tree and
      the rest of it stays as it is. Where one does, they are written where the links lead, inside
      the content directory or not, and nothing else changes. */
  method Write(fs: FileSystem, root: string, inputs: Inputs, mountedAt: string, ghost d: Path)
    returns (ok: bool)
    requires fs.Valid() && Names(d) && root == Abs(d) && IsDir(fs.nodes, d)
    modifies fs
    ensures fs.Valid() && old(fs.now) <= fs.now
    ensures ok && ProvenanceClear(Subtree(old(fs.nodes), d), Fields(inputs, mountedAt).Keys) ==>
              RecordsAll(Subtree(old(fs.nodes), d), Subtree(fs.nodes, d), inputs, mountedAt)
    ensures ProvenanceClear(Subtree(old(fs.nodes), d), Fields(inputs, mountedAt).Keys) ==>
              InPlace(old(fs.nodes), fs.nodes, d, Fields(inputs, mountedAt), ok)
              && Restamped(old(fs.mtime), fs.mtime, old(fs.now), d)
    ensures !ProvenanceClear(Subtree(old(fs.nodes), d), Fields(inputs, mountedAt).Keys) ==>
              WhereLinksLead(old(fs.nodes), fs.nodes, d, Fields(inputs, mountedAt), ok)
    ensures LeadsInside(old(fs.nodes), d, Fields(inputs, mountedAt).Keys) ==>
              Restamped(old(fs.mtime), fs.mtime, old(fs.now), d)
  {
    FieldNames();
    ok := WriteFields(fs, root, Fields(inputs, mountedAt), d);
    WithMetadataRecords(Subtree(old(fs.nodes), d), inputs, mountedAt);
  }

  /** The content tree has its provenance, and nothing outside it has changed. */
  ghost predicate InPlace(t: Tree, t': Tree, d: Path, fields: map<string, string>, ok: bool) {
    && Confined(t, t', d)
    && (ok <==> MetadataFits(Subtree(t, d), fields.Keys))
    && (ok ==> Subtree(t', d) == WithMetadata(Subtree(t, d), fields))
  }

  /** Every link on the way of the provenance leads inside. */
  ghost predicate LeadsInside(t: Tree, d: Path, names: set<string>) {
    forall q :: q in MetaPlaces(t, d, names) ==> Under(d, q)
  }

  /** The provenance is where the links lead: all of it when every place could be written. */
  ghost predicate WhereLinksLead(t: Tree, t': Tree, d: Path, fields: map<string, string>, ok: bool) {
    var places := MetaPlaces(t, d, fields.Keys);
    && Through(t, t', d, fields)
    && (ok <==> LeadsToDir(t, d + [META]) && forall n :: n in fields ==> CanWriteFile(t, d + [META, n]))
    && (ok ==> forall q :: q in places ==> RewrittenAs(t, d, fields, q, Lookup(t', q)))
  }

  method WriteFields(fs: FileSystem, root: string, fields: map<string, string>, ghost d: Path) returns (ok: bool)
    requires fs.Valid() && Names(d) && root == Abs(d) && IsDir(fs.nodes, d)
    requires forall n :: n in fields ==> IsName(n)
    modifies fs
    ensures fs.Valid() && old(fs.now) <= fs.now
    ensures ProvenanceClear(Subtree(old(fs.nodes), d), fields.Keys) ==>
              InPlace(old(fs.nodes), fs.nodes, d, fields, ok) && Restamped(old(fs.mtime), fs.mtime, old(fs.now), d)
    ensures !ProvenanceClear(Subtree(old(fs.nodes), d), fields.Keys) ==>
              WhereLinksLead(old(fs.nodes), fs.nodes, d, fields, ok)
    ensures LeadsInside(old(fs.nodes), d, fields.Keys) ==> Restamped(old(fs.mtime), fs.mtime, old(fs.now), d)
  {
    var meta := Join(root, META);
    assert IsName(META);
    JoinName(d, META);
    AbsLoc(d + [META]);
    assert Parent(d + [META]) == d;
    ghost var t0, s0, m0, n0 := fs.nodes, Subtree(fs.nodes, d), fs.mtime, fs.now;
    ghost var clear := ProvenanceClear(s0, fields.Keys);
    MadeEntry(t0, d + [META]);
    ok := fs.MkdirAll(Loc(meta), PUBLIC_DIR);
    if d + [META] !in t0 { RestampedStep(m0, m0, fs.mtime, n0, n0, d, d + [META]); }
    MetaStart(t0, fs.nodes, d, fields.Keys, ok);
    if !ok { return; }
    ghost var mid, n1 := Snapshot(fs.nodes, fs.mtime), fs.now;
    ok := WriteAll(fs, meta, fields, d, s0, clear);
    if clear { ClearDone(Snapshot(t0, m0), n0, mid, n1, Snapshot(fs.nodes, fs.mtime), d, s0, fields, ok); }
  }

  lemma ClearDone(start: Snapshot, since: int, mid: Snapshot, later: int, after: Snapshot, d: Path, s0: Tree,
                  fields: map<string, string>, ok: bool)
    requires s0 == Subtree(start.nodes, d) && since <= later
    requires Confined(start.nodes, mid.nodes, d) && Restamped(start.mtime, mid.mtime, since, d)
    requires MetadataFits(s0, {})
    requires ok ==> Writing(mid, later, after, d, s0, fields, fields, true)
    requires !ok ==> WritingStopped(mid, later, after, d, s0, fields, true)
    ensures InPlace(start.nodes, after.nodes, d, fields, ok) && Restamped(start.mtime, after.mtime, since, d)
  {
    ConfinedTransitive(start.nodes, mid.nodes, after.nodes, d);
    RestampedOn(start.mtime, mid.mtime, after.mtime, since, later, d);
    if ok { MetaDone(after.nodes, d, s0, fields); }
  }

  /** The loop over the fields, in some order. */
  method WriteAll(fs: FileSystem, meta: string, fields: map<string, string>, ghost d: Path, ghost s0: Tree,
                  ghost clear: bool)
    returns (ok: bool)
    requires fs.Valid() && Names(d) && meta == Abs(d + [META])
    requires clear ==> ProvenanceClear(s0, fields.Keys) && MetaState(fs.nodes, d, s0, map[])
    requires forall n :: n in fields ==> IsName(n)
    modifies fs
    ensures fs.Valid() && old(fs.now) <= fs.now
    ensures ok ==>
              Writing(Snapshot(old(fs.nodes), old(fs.mtime)), old(fs.now), Snapshot(fs.nodes, fs.mtime), d, s0, fields,
                           fields, clear)
    ensures !ok ==>
              WritingStopped(Snapshot(old(fs.nodes), old(fs.mtime)), old(fs.now), Snapshot(fs.nodes, fs.mtime), d, s0,
                                   fields, clear)
  {
    ghost var start, n0 := Snapshot(fs.nodes, fs.mtime), fs.now;
    var rest := fields.Keys;
    ghost var done: map<string, string> := map[];
    ok := true;
    while rest != {}
      invariant ok && fs.Valid() && n0 <= fs.now
      invariant WrittenBut(done, fields, rest)
      invariant Writing(start, n0, Snapshot(fs.nodes, fs.mtime), d, s0, fields, done, clear)
      decreases rest
    {
      var name :| name in rest;
      WrittenMore(done, fields, rest, name);
      ok := WriteRound(fs, meta, fields, name, d, s0, clear, start, n0, done);
      if !ok { return; }
      rest := rest - {name};
      done := done[name := fields[name]];
    }
    WrittenAll(done, fields);
  }

  /** A moment of the loop: the fields of `done` are written, in place or where the links lead. */
  ghost predicate Writing(start: Snapshot, since: int, after: Snapshot, d: Path, s0: Tree, fields: map<string, string>,
                          done: map<string, string>, clear: bool)
  {
    match after
    case Snapshot(t, m) =>
      if clear then MetaState(t, d, s0, done) && Confined(start.nodes, t, d) && Restamped(start.mtime, m, since, d)
      else
        LedSoFar(start.nodes, t, d, fields, done.Keys)
        && (LeadsInside(start.nodes, d, fields.Keys) ==> Restamped(start.mtime, m, since, d))
  }

  /** The loop has stopped at a field that cannot be written. */
  ghost predicate WritingStopped(start: Snapshot, since: int, after: Snapshot, d: Path, s0: Tree,
                                 fields: map<string, string>, clear: bool)
  {
    match after
    case Snapshot(t, m) =>
      if clear then
        !MetadataFits(s0, fields.Keys) && Confined(start.nodes, t, d) && Restamped(start.mtime, m, since, d)
      else
        LedSoFar(start.nodes, t, d, fields, {})
        && (LeadsInside(start.nodes, d, fields.Keys) ==> Restamped(start.mtime, m, since, d))
        && exists n :: n in fields && !CanWriteFile(start.nodes, d + [META, n])
  }

  method WriteRound(fs: FileSystem, meta: string, fields: map<string, string>, name: string, ghost d: Path,
                    ghost s0: Tree, ghost clear: bool, ghost start: Snapshot, ghost since: int,
                        ghost done: map<string, string>)
    returns (ok: bool)
    requires fs.Valid() && Names(d) && meta == Abs(d + [META]) && since <= fs.now
    requires name in fields && name !in done && IsName(name) && done.Keys + {name} <= fields.Keys
    requires clear ==> ProvenanceClear(s0, fields.Keys)
    requires Writing(start, since, Snapshot(fs.nodes, fs.mtime), d, s0, fields, done, clear)
    modifies fs
    ensures fs.Valid() && old(fs.now) <= fs.now
    ensures ok ==> Writing(start, since, Snapshot(fs.nodes, fs.mtime), d, s0, fields, done[name := fields[name]], clear)
    ensures !ok ==> WritingStopped(start, since, Snapshot(fs.nodes, fs.mtime), d, s0, fields, clear)
  {
    ghost var t, m, n := fs.nodes, fs.mtime, fs.now;
    if clear { MetaPlain(t, d, s0, done, fields.Keys, name); }
    ok := WriteField(fs, meta, name, fields[name], d);
    if clear {
      ClearRound(start, since, Snapshot(t, m), n, Snapshot(fs.nodes, fs.mtime), d, s0, fields, done, name, ok);
    } else {
      LedRound(start, since, Snapshot(t, m), n, Snapshot(fs.nodes, fs.mtime), d, s0, fields, done, name, ok);
    }
  }

  lemma ClearRound(start: Snapshot, since: int, before: Snapshot, now: int, after: Snapshot, d: Path, s0: Tree,
                   fields: map<string, string>, done: map<string, string>, name: string, ok: bool)
    requires name in fields && name !in done && done.Keys + {name} <= fields.Keys && since <= now
    requires Writing(start, since, before, d, s0, fields, done, true)
    requires Confined(before.nodes, after.nodes, d) && Restamped(before.mtime, after.mtime, now, d)
    requires FieldWritten(before.nodes, after.nodes, ok, d, name, fields[name])
    ensures ok ==> Writing(start, since, after, d, s0, fields, done[name := fields[name]], true)
    ensures !ok ==> WritingStopped(start, since, after, d, s0, fields, true)
  {
    ConfinedTransitive(start.nodes, before.nodes, after.nodes, d);
    RestampedOn(start.mtime, before.mtime, after.mtime, since, now, d);
    MetaStep(before.nodes, after.nodes, ok, d, s0, done, name, fields[name]);
    if !ok { FitsLess(s0, done.Keys + {name}, fields.Keys); }
  }

  lemma LedRound(start: Snapshot, since: int, before: Snapshot, now: int, after: Snapshot, d: Path, s0: Tree,
                 fields: map<string, string>, done: map<string, string>, name: string, ok: bool)
    requires name in fields && since <= now && Writing(start, since, before, d, s0, fields, done, false)
    requires ThroughStep(before.nodes, after.nodes, ok, d, name, fields[name])
    requires ok ==> Stamped(before.mtime, after.mtime, now, LeadsTo(before.nodes, d + [META, name]).value)
    requires !ok ==> after.mtime == before.mtime
    ensures ok ==> Writing(start, since, after, d, s0, fields, done[name := fields[name]], false)
    ensures !ok ==> WritingStopped(start, since, after, d, s0, fields, false)
  {
    LedStep(start.nodes, before.nodes, after.nodes, d, fields, done.Keys, name, ok);
    assert done[name := fields[name]].Keys == done.Keys + {name};
    assert LeadsTo(before.nodes, d + [META, name]) == LeadsTo(start.nodes, d + [META, name]);
    if LeadsInside(start.nodes, d, fields.Keys) && ok {
      RestampedStep(start.mtime, before.mtime, after.mtime, since, now, d,
                    LeadsTo(start.nodes, d + [META, name]).value);
    }
  }

  /** The provenance of `names` is written where the links lead, and no lookup has changed. */
  ghost predicate LedSoFar(t0: Tree, t: Tree, d: Path, fields: map<string, string>, names: set<string>) {
    && names <= fields.Keys
    && Through(t0, t, d, fields)
    && (forall p :: LeadsTo(t, p) == LeadsTo(t0, p))
    && (forall n :: n in names ==>
        CanWriteFile(t0, d + [META, n]) && PlaceWritten(t0, t, d, fields, LeadsTo(t0, d + [META, n]).value))
  }

  ghost predicate PlaceWritten(t0: Tree, t: Tree, d: Path, fields: map<string, string>, q: Path) {
    RewrittenAs(t0, d, fields, q, Lookup(t, q))
  }

  lemma LedStep(t0: Tree, t: Tree, t': Tree, d: Path, fields: map<string, string>, names: set<string>, name: string,
                ok: bool)
    requires LedSoFar(t0, t, d, fields, names) && name in fields
    requires ThroughStep(t, t', ok, d, name, fields[name])
    ensures ok ==> LedSoFar(t0, t', d, fields, names + {name})
    ensures !ok ==> LedSoFar(t0, t', d, fields, {}) && !CanWriteFile(t0, d + [META, name])
  {
    var at := d + [META, name];
    assert LeadsTo(t, at) == LeadsTo(t0, at);
    if ok {
      var l := LeadsTo(t0, at).value;
      assert l in MetaPlaces(t0, d, fields.Keys);
      LedKind(t0, t, d, fields, names, l);
      forall p ensures LeadsTo(t', p) == LeadsTo(t0, p) { FollowStable(t, l, t'[l], [], p, MAX_HOPS); }
      forall q ensures Lookup(t', q) == Lookup(t0, q)
                       || (q in MetaPlaces(t0, d, fields.Keys) && PlaceWritten(t0, t', d, fields, q))
      {
        if q != l { assert Lookup(t', q) == Lookup(t, q); }
      }
      forall n | n in names ensures PlaceWritten(t0, t', d, fields, LeadsTo(t0, d + [META, n]).value) {}
    } else if LeadsTo(t0, at).Some? {
      LedKind(t0, t, d, fields, names, LeadsTo(t0, at).value);
    }
  }

  /** A place keeps its kind while the provenance is written. */
  lemma LedKind(t0: Tree, t: Tree, d: Path, fields: map<string, string>, names: set<string>, l: Path)
    requires LedSoFar(t0, t, d, fields, names)
    ensures (l in t ==> t[l].File?) <==> (l in t0 ==> t0[l].File?)
    ensures l in t0 && t0[l].File? ==> l in t && t[l].File? && t[l].perm == t0[l].perm
    ensures l !in t0 && l in t ==> t[l].File? && t[l].perm == METADATA_FILE
  {
    assert Lookup(t, l) == Lookup(t0, l) || PlaceWritten(t0, t, d, fields, l);
  }

  lemma WrittenAll(done: map<string, string>, fields: map<string, string>)
    requires WrittenBut(done, fields, {})
    ensures done == fields
  {}

  lemma WrittenMore(done: map<string, string>, fields: map<string, string>, rest: set<string>, n: string)
    requires WrittenBut(done, fields, rest) && n in rest
    ensures n !in done && WrittenBut(done[n := fields[n]], fields, rest - {n})
    ensures done.Keys + {n} <= fields.Keys
  {}

  /** All fields but those of `rest`. */
  ghost predicate WrittenBut(done: map<string, string>, fields: map<string, string>, rest: set<string>) {
    rest <= fields.Keys && done.Keys == fields.Keys - rest && forall n :: n in done ==> done[n] == fields[n]
  }

  lemma FitsLess(t: Tree, fewer: set<string>, names: set<string>)
    requires fewer <= names
    ensures MetadataFits(t, names) ==> MetadataFits(t, fewer)
  {}

  lemma MetaDone(t: Tree, d: Path, s0: Tree, fields: map<string, string>)
    requires MetaState(t, d, s0, fields)
    ensures Subtree(t, d) == WithMetadata(s0, fields)
  {
    forall r ensures Lookup(Subtree(t, d), r) == Lookup(WithMetadata(s0, fields), r) {
      assert Lookup(t, d + r) == MetaEntry(s0, fields, r);
    }
    SameTree(Subtree(t, d), WithMetadata(s0, fields));
  }

  /** One `os.WriteFile` of the loop. */
  method WriteField(fs: FileSystem, meta: string, name: string, value: string, ghost d: Path) returns (ok: bool)
    requires fs.Valid() && Names(d) && meta == Abs(d + [META]) && IsName(name)
    modifies fs
    ensures fs.Valid() && old(fs.now) <= fs.now
    ensures ThroughStep(old(fs.nodes), fs.nodes, ok, d, name, value)
    ensures ok ==> Stamped(old(fs.mtime), fs.mtime, old(fs.now), LeadsTo(old(fs.nodes), d + [META, name]).value)
    ensures !ok ==> fs.mtime == old(fs.mtime)
    ensures PlainField(old(fs.nodes), d, name) ==>
              && Confined(old(fs.nodes), fs.nodes, d)
              && Restamped(old(fs.mtime), fs.mtime, old(fs.now), d)
              && FieldWritten(old(fs.nodes), fs.nodes, ok, d, name, value)
  {
    assert IsName(META);
    JoinName(d + [META], name);
    assert d + [META] + [name] == d + [META, name];
    AbsLoc(d + [META, name]);
    assert Parent(d + [META, name]) == d + [META];
    ok := fs.WriteFile(Loc(Join(meta, name)), value + "\n", METADATA_FILE);
    if PlainField(old(fs.nodes), d, name) {
      PlaceOfEntry(old(fs.nodes), d + [META], name);
      ConfinedWider(old(fs.nodes), fs.nodes, d, d + [META, name]);
      if ok { RestampedStep(old(fs.mtime), old(fs.mtime), fs.mtime, old(fs.now), old(fs.now), d, d + [META, name]); }
    }
  }

  /** One file written where its path leads. */
  ghost predicate ThroughStep(t: Tree, t': Tree, ok: bool, d: Path, name: string, value: string) {
    var at := d + [META, name];
    && (ok <==> CanWriteFile(t, at))
    && t' == if ok then WithFile(t, LeadsTo(t, at).value, value + "\n", METADATA_FILE) else t
  }

  /** The directory of the provenance is there, and no link stands for the file. */
  ghost predicate PlainField(t: Tree, d: Path, name: string) {
    IsDir(t, d + [META]) && (d + [META, name] in t ==> !t[d + [META, name]].Link?)
  }

  lemma MetaPlain(t: Tree, d: Path, s0: Tree, done: map<string, string>, names: set<string>, name: string)
    requires MetaState(t, d, s0, done) && ProvenanceClear(s0, names) && name in names
    ensures PlainField(t, d, name)
  {
    assert Lookup(t, d + [META]) == MetaEntry(s0, done, [META]);
    assert Lookup(t, d + [META, name]) == MetaEntry(s0, done, [META, name]);
  }

  ghost predicate FieldWritten(t: Tree, t': Tree, ok: bool, d: Path, name: string, value: string) {
    var at := d + [META, name];
    && (ok <==> if at in t then t[at].File? else IsDir(t, d + [META]))
    && t' == if ok then t[at := MetaFile(Lookup(t, at), value)] else t
  }

  /** The fields of `done` have been written over `s0`. */
  ghost predicate MetaState(t: Tree, d: Path, s0: Tree, done: map<string, string>) {
    && d in t
    && MetadataFits(s0, done.Keys)
    && forall r :: Lookup(t, d + r) == MetaEntry(s0, done, r)
  }

  /** After the directory of the provenance has been asked for. */
  lemma MetaStart(t0: Tree, t: Tree, d: Path, names: set<string>, ok: bool)
    requires WellFormed(t0) && Names(d) && IsDir(t0, d)
    requires ok <==> MadeAt(t0, d + [META]).Some?
    requires t == if ok then WithDirs(t0, MadeAt(t0, d + [META]).value, PUBLIC_DIR) else t0
    ensures var s0 := Subtree(t0, d);
            if ProvenanceClear(s0, names) then
              && Confined(t0, t, d)
              && (ok ==> MetaState(t, d, s0, map[]))
              && (!ok ==> !MetadataFits(s0, names))
            else t == t0 && (ok <==> LeadsToDir(t0, d + [META]))
  {
    var s0 := Subtree(t0, d);
    assert IsName(META) && Parent(d + [META]) == d;
    MadeEntry(t0, d + [META]);
    if ProvenanceClear(s0, names) && d + [META] in t0 { PlaceOfEntry(t0, d, META); }
    forall r ensures d + r == d + [META] <==> r == [META] {
      assert (d + r)[|d|..] == r && (d + [META])[|d|..] == [META];
    }
    if !ProvenanceClear(s0, names) && [META] !in s0 {
      var n :| n in names && [META, n] in s0;
      assert Under(d + [META], d + [META, n]);
    }
  }

  /** One more provenance file. */
  lemma MetaStep(t: Tree, t': Tree, ok: bool, d: Path, s0: Tree, done: map<string, string>, name: string, value: string)
    requires MetaState(t, d, s0, done) && name !in done
    requires FieldWritten(t, t', ok, d, name, value)
    ensures ok <==> MetadataFits(s0, done.Keys + {name})
    ensures ok ==> MetaState(t', d, s0, done[name := value])
  {
    var at := d + [META, name];
    assert Lookup(t, d + [META, name]) == MetaEntry(s0, done, [META, name]);
    assert Lookup(t, d + [META]) == MetaEntry(s0, done, [META]);
    forall r ensures d + r == at <==> r == [META, name] {
      assert (d + r)[|d|..] == r && at[|d|..] == [META, name];
    }
    if ok {
      forall r ensures Lookup(t', d + r) == MetaEntry(s0, done[name := value], r) {
        assert Lookup(t, d + r) == MetaEntry(s0, done, r);
        if IsMeta(r, {name}) { assert r == [META, name]; }
      }
    }
  }

  // --------------------------------------------------------------- where it goes

  lemma FieldKeys(inputs: Inputs, mountedAt: string)
    ensures Fields(inputs, mountedAt).Keys == FIELD_SET
  {}

  /** Where every link of the content directory is tame, the provenance stays inside it, whatever
      links stand where it goes. */
  lemma ProvenanceStays(t: Tree, d: Path)
    requires WellFormed(t) && IsDir(t, d) && Tame(t, d)
    ensures forall q :: q in MetaPlaces(t, d, FIELD_SET) ==> Under(d, q)
  {
    forall n | n in FIELD_SET && LeadsTo(t, d + [META, n]).Some? ensures Under(d, LeadsTo(t, d + [META, n]).value) {
      FieldNames();
      var way := [META, n];
      PlaceBelow(t, d, way);
      StraightNames(t, d, way);
      Contained(t, d, d, way, MAX_HOPS);
    }
  }

  /** Whether written provenance has stayed inside is settled by where its links lead, unless a file
      outside held such a text already. */
  lemma ProvenanceConfined(t: Tree, t': Tree, d: Path, fields: map<string, string>, ok: bool)
    requires WhereLinksLead(t, t', d, fields, ok)
    requires forall q, n :: q in MetaPlaces(t, d, fields.Keys) && q in t && t[q].File? && n in fields ==>
               Under(d, q) || t[q].bytes != fields[n] + "\n"
    ensures LeadsInside(t, d, fields.Keys) ==> Confined(t, t', d)
    ensures ok && Confined(t, t', d) ==> LeadsInside(t, d, fields.Keys)
  {
    var places := MetaPlaces(t, d, fields.Keys);
    forall q ensures Lookup(t', q) == Lookup(t, q) || (q in places && PlaceWritten(t, t', d, fields, q)) {}
    if ok && Confined(t, t', d) {
      forall q | q in places ensures Under(d, q) { assert PlaceWritten(t, t', d, fields, q); }
    }
  }

  /** What stays inside is in the content and nowhere else. */
  lemma WrittenMarks(t: Tree, t': Tree, d: Path, fields: map<string, string>, ok: bool)
    requires fields.Keys == FIELD_SET && Settled(t, d)
    requires ProvenanceClear(Subtree(t, d), FIELD_SET) ==> InPlace(t, t', d, fields, ok)
    requires !ProvenanceClear(Subtree(t, d), FIELD_SET) ==> WhereLinksLead(t, t', d, fields, ok)
    ensures Confined(t, t', d) && (ok <==> CanMark(t, d))
    ensures ok ==> Marks(t, d, fields, Subtree(t', d))
  {
    if !ProvenanceClear(Subtree(t, d), FIELD_SET) {
      var places, marked := MetaPlaces(t, d, fields.Keys), Subtree(t', d);
      forall q ensures Lookup(t', q) == Lookup(t, q) || (q in places && PlaceWritten(t, t', d, fields, q)) {}
      forall r ensures Lookup(marked, r) == Lookup(t', d + r) {}
      if ok { forall r | d + r in places ensures PlaceWritten(t, t', d, fields, d + r) {} }
    }
  }

  /** The commit of the two links that lead out. */
  ghost function LinkedProvenance(d: string, l: string): Commit {
    map[[d, l] := SymLink(".."), [META] := SymLink(d + "/" + l + "/..")]
  }

  /** Both links of that commit are accepted at every root, and one stands where the provenance goes. */
  lemma LinkedAccepted(d: string, l: string, root: Path)
    requires IsName(d) && IsName(l) && d != ".git" && l != ".git" && d != META
    ensures var c := LinkedProvenance(d, l);
            WellFormedCommit(c) && LinksStay(c, root) && !ProvenanceClear(Exported(c), FIELD_SET)
  {
    LinkedShape(d, l);
    PairAccepted(root, d, l);
    assert Parent([d, l]) == [d] && Parent([META]) == [];
    ExportedEntry(LinkedProvenance(d, l), [META]);
  }

  /** And over its export each provenance file is written into the directory above, which is outside. */
  lemma ProvenanceEscapes(t: Tree, root: Path, d: string, l: string, n: string)
    requires IsName(d) && IsName(l) && d != ".git" && l != ".git" && d != META && IsName(n)
    requires WellFormed(t) && root != [] && IsDir(t, root) && Subtree(t, root) == Exported(LinkedProvenance(d, l))
    requires Parent(root) + [n] in t ==> t[Parent(root) + [n]].File?
    ensures LeadsTo(t, root + [META, n]) == Some(Parent(root) + [n]) && !Under(root, Parent(root) + [n])
  {
    LinkedNodes(t, root, d, l);
    assert IsName(META);
    EscapingPair(t, root, d, l, META);
    SiblingOutside(t, root, n);
  }

  lemma SiblingOutside(t: Tree, root: Path, n: string)
    requires root != [] && IsDir(t, root) && (Parent(root) + [n] in t ==> t[Parent(root) + [n]].File?)
    ensures !Under(root, Parent(root) + [n])
  {
    var x := Parent(root) + [n];
    assert x != root && x[..|root|] == x;
    assert Under(root, x) <==> root == x[..|root|];
  }

  lemma LinkedShape(d: string, l: string)
    requires IsName(d) && IsName(l) && d != ".git" && l != ".git" && d != META
    ensures WellFormedCommit(LinkedProvenance(d, l))
    ensures [d, l] in LinkedProvenance(d, l) && [META] in LinkedProvenance(d, l)
    ensures forall r :: r in LinkedProvenance(d, l) ==> r == [d, l] || r == [META]
  {
    assert IsName(META);
    assert !Under([d, l], [META]) && !Under([META], [d, l]) by { assert [META][0] != [d, l][0]; }
  }

  lemma LinkedNodes(t: Tree, root: Path, d: string, l: string)
    requires IsName(d) && IsName(l) && d != ".git" && l != ".git" && d != META
    requires Subtree(t, root) == Exported(LinkedProvenance(d, l))
    ensures IsDir(t, root + [d])
    ensures root + [d, l] in t && t[root + [d, l]] == Link("..")
    ensures root + [META] in t && t[root + [META]] == Link(d + "/" + l + "/..")
  {
    var c, s := LinkedProvenance(d, l), Exported(LinkedProvenance(d, l));
    LinkedShape(d, l);
    ExportedEntry(c, [d, l]);
    ExportedEntry(c, [META]);
    assert KeptUnder(c, [d]) by { assert Under([d], [d, l]) && ".git" !in [d, l]; }
    ExportedEntry(c, [d]);
    assert [d] in s && [d, l] in s && [META] in s;
  }

  // ------------------------------------------------------------ what it preserves

  /** Publishing the same resolved content again differs in the mount time alone. */
  lemma RepublishSame(content: Tree, inputs: Inputs, at: string, at': string, q: Path)
    requires q != [META, MOUNTED_AT]
    ensures Lookup(PublishedTree(WithMetadata(content, Fields(inputs, at))), q)
            == Lookup(PublishedTree(WithMetadata(content, Fields(inputs, at'))), q)
  {
    var f, f' := Fields(inputs, at), Fields(inputs, at');
    assert f.Keys == f'.Keys;
    if IsMeta(q, f.Keys) {
      assert q == [META, q[1]];
      assert FieldValue(inputs, at, q[1]) == FieldValue(inputs, at', q[1]);
    }
    assert MetaEntry(content, f, q) == MetaEntry(content, f', q);
    PublishedPointwise(WithMetadata(content, f), WithMetadata(content, f'), q);
  }

  /** Publishing treats every entry by itself. */
  lemma PublishedPointwise(t: Tree, t': Tree, q: Path)
    requires Lookup(t, q) == Lookup(t', q)
    ensures Lookup(PublishedTree(t), q) == Lookup(PublishedTree(t'), q)
  {}

  /** The provenance adds at most its seven files to what is published. */
  lemma PublishedFileCount(t: Tree, d: Path, inputs: Inputs, at: string, marked: Tree)
    requires Marks(t, d, Fields(inputs, at), marked)
    ensures |FileSizes(PublishedTree(marked))| <= |FileSizes(Subtree(t, d))| + 7
  {
    var published, before := FileSizes(PublishedTree(marked)), FileSizes(Subtree(t, d));
    FieldKeys(inputs, at);
    var more := MarkPaths(t, d, FIELD_NAMES);
    forall q | q in published ensures q in before.Keys + more {
      FileOfPublished(marked, q);
      FileOfMarked(t, d, Fields(inputs, at), marked, q);
    }
    SubsetSize(published.Keys, before.Keys + more);
    assert |FIELD_NAMES| == 7;
  }

  lemma FileOfMarked(t: Tree, d: Path, fields: map<string, string>, marked: Tree, q: Path)
    requires fields.Keys == FIELD_SET && Marks(t, d, fields, marked) && q in marked && marked[q].File?
    ensures q in FileSizes(Subtree(t, d)) || q in MarkPaths(t, d, FIELD_NAMES)
  {
    if ProvenanceClear(Subtree(t, d), FIELD_SET) {
      FileInPlace(Subtree(t, d), fields, marked, q);
      if IsMeta(q, FIELD_SET) { MarkPathIn(t, d, FIELD_NAMES, q[1]); }
    } else {
      FileOverwritten(t, d, fields, marked, q);
    }
  }

  lemma FileInPlace(content: Tree, fields: map<string, string>, marked: Tree, q: Path)
    requires marked == WithMetadata(content, fields) && q in marked && marked[q].File?
    ensures q in FileSizes(content) || (IsMeta(q, fields.Keys) && q == [META, q[1]])
  {
    assert Lookup(marked, q) == MetaEntry(content, fields, q);
  }

  lemma FileOverwritten(t: Tree, d: Path, fields: map<string, string>, marked: Tree, q: Path)
    requires fields.Keys == FIELD_SET && Overwritten(t, d, fields, marked) && q in marked && marked[q].File?
    requires !ProvenanceClear(Subtree(t, d), FIELD_SET)
    ensures q in FileSizes(Subtree(t, d)) || q in MarkPaths(t, d, FIELD_NAMES)
  {
    assert Lookup(marked, q) == Some(marked[q]);
    if Lookup(t, d + q) != Lookup(marked, q) {
      var n :| n in FIELD_SET && LeadsTo(t, d + [META, n]) == Some(d + q);
      assert (d + q)[|d|..] == q;
      MarkPathIn(t, d, FIELD_NAMES, n);
    }
  }

  /** A published file is a file of the source. */
  lemma FileOfPublished(t: Tree, q: Path)
    requires q in FileSizes(PublishedTree(t))
    ensures q in t && t[q].File?
  {
    if q != [] { PublishedShape(t, q); }
  }

  /** Where the named provenance files may be, relative to the content directory. */
  ghost function MarkPaths(t: Tree, d: Path, names: seq<string>): (paths: set<Path>)
    ensures |paths| <= |names|
  {
    if names == [] then {} else {MarkPath(t, d, names[0])} + MarkPaths(t, d, names[1..])
  }

  ghost function MarkPath(t: Tree, d: Path, n: string): Path {
    var l := LeadsTo(t, d + [META, n]);
    if ProvenanceClear(Subtree(t, d), FIELD_SET) || l.None? || !Under(d, l.value) then [META, n] else l.value[|d|..]
  }

  lemma {:induction false} MarkPathIn(t: Tree, d: Path, names: seq<string>, n: string)
    requires n in names
    ensures MarkPath(t, d, n) in MarkPaths(t, d, names)
    decreases |names|
  {
    if n != names[0] { MarkPathIn(t, d, names[1..], n); }
  }

  lemma SubsetSize<T>(a: set<T>, b: set<T>)
    requires a <= b
    ensures |a| <= |b|
  {
    assert b == a + (b - a);
  }
}
