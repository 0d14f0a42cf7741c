/** The driver's path checks: joining below a root, links, publish targets and repository
    sub-paths. Every check is the source's own string test; the lemmas say what it decides. */
module SafePaths {
  import opened Wrappers
  import opened Text
  import opened LexicalPath

  function EnsureInside(root: string, candidate: string): Check {
    var rel := Rel(root, candidate);
    if rel.Err? then Fail
    else if rel.value == ".." || HasPrefix(rel.value, "../") || IsAbs(rel.value) then Fail
    else Pass
  }

  predicate HasParentSegment(rel: string) { ".." in Split(rel) }

  predicate HasGitSegment(rel: string) { ".git" in Split(rel) }

  function SafeJoin(root: string, rel: string): Result<string> {
    if rel == "" then Ok(Clean(root))
    else
      var cleaned := Clean(rel);
      if !IsLocal(cleaned) || HasParentSegment(cleaned) then Err
      else if HasGitSegment(cleaned) then Err
      else
        var target := Join(root, cleaned);
        if EnsureInside(root, target).Fail? then Err else Ok(target)
  }

  function ResolvedLink(linkPath: string, linkTarget: string): string {
    Clean(Join(DirOf(linkPath), linkTarget))
  }

  function ValidateSymlinkTarget(root: string, linkPath: string, linkTarget: string): Check {
    if IsAbs(linkTarget) then Fail
    else EnsureInside(root, ResolvedLink(linkPath, linkTarget))
  }

  function SafeTargetPath(root: string, candidate: string): Result<string> {
    if root == "" then Err
    else if !IsAbs(root) then Err
    else if !IsAbs(candidate) then Err
    else
      var cleanRoot, cleanCandidate := Clean(root), Clean(candidate);
      var rel :- Rel(cleanRoot, cleanCandidate);
      if rel == "." || !IsLocal(rel) then Err else Ok(Join(cleanRoot, rel))
  }

  function NormalizeRepoPath(raw: string): Result<string> {
    if raw == "" then Ok("")
    else if '\\' in raw then Err
    else if IsAbs(raw) then Err
    else
      var cleaned := Clean(raw);
      if cleaned == "." then Ok("")
      else if cleaned == ".." || HasPrefix(cleaned, "../") then Err
      else if ".git" in Split(cleaned) then Err
      else Ok(cleaned)
  }

  /** The sub-path test of the in-memory backend. */
  predicate AcceptsSubPath(path: string) {
    var cleaned := Clean(path);
    IsLocal(cleaned) && !HasParentSegment(cleaned) && !HasGitSegment(cleaned)
  }

  // ------------------------------------------------------------------ staying inside

  /** Between absolute paths, `ensureInside` decides component-wise descent. */
  lemma InsideMeaning(root: string, candidate: string)
    requires IsAbs(root) && IsAbs(candidate)
    ensures EnsureInside(root, candidate).Pass? <==> Under(Loc(root), Loc(candidate))
  {
    RelMeaning(root, candidate);
    UnderCommon(Loc(root), Loc(candidate));
    var l := Parse(Rel(root, candidate).value);
    ClimbsVisibly(l);
  }

  /** What a cleaned local path splits into. */
  lemma LocalSplit(rel: string)
    requires rel != "" && !IsAbs(rel) && Parse(rel).ups == 0
    ensures Split(Clean(rel)) == (if Loc(rel) == [] then ["."] else Loc(rel))
    ensures !HasParentSegment(Clean(rel))
    ensures HasGitSegment(Clean(rel)) <==> ".git" in Loc(rel)
  {
    var l := Parse(rel);
    assert Components(l) == l.names;
    if l.names == [] { SplitNoSlash("."); } else { SplitSlashed(l.names); }
  }

  /** Names joined by slashes: already clean, local, and split back into the names. */
  lemma Spelled(r: Path)
    requires Names(r) && r != []
    ensures Parse(Slashed(r)) == Lex(false, 0, r) && Clean(Slashed(r)) == Slashed(r)
    ensures Split(Slashed(r)) == r && Slashed(r) != "" && Slashed(r) != "." && !IsAbs(Slashed(r))
    ensures IsLocal(Slashed(r)) && !HasParentSegment(Slashed(r))
    ensures HasGitSegment(Slashed(r)) <==> ".git" in r
  {
    var l := Lex(false, 0, r);
    assert Components(l) == r;
    ParseRender(l);
    SplitSlashed(r);
    assert Split("") == [""];
    SplitNoSlash(".");
    IsLocalMeaning(Slashed(r));
  }

  /** Cleaning never changes whether a path is local, rooted or how far it climbs. */
  lemma CleanLocal(rel: string)
    requires rel != ""
    ensures IsLocal(Clean(rel)) <==> !IsAbs(rel) && Parse(rel).ups == 0
    ensures Clean(rel) != ""
  {
    CleanIdempotent(rel);
    IsLocalMeaning(Clean(rel));
    if !IsAbs(rel) && Components(Parse(rel)) != [] {
      var cs := Components(Parse(rel));
      assert cs[0] != "" && cs[0] <= Slashed(cs);
    }
  }

  /** The two later tests of `safeJoin` never reject: a local path has no parent segment, and
      its join stays inside. */
  lemma LaterGuardsRedundant(root: string, rel: string)
    requires IsAbs(root) && rel != "" && IsLocal(Clean(rel))
    ensures !HasParentSegment(Clean(rel))
    ensures EnsureInside(root, Join(root, Clean(rel))).Pass?
    ensures Join(root, Clean(rel)) == Abs(Loc(root) + Loc(rel))
  {
    CleanLocal(rel);
    LocalSplit(rel);
    JoinLocal(root, rel);
    AbsLoc(Loc(root) + Loc(rel));
    InsideMeaning(root, Join(root, Clean(rel)));
  }

  lemma JoinLocal(root: string, rel: string)
    requires IsAbs(root) && !IsAbs(rel) && Parse(rel).ups == 0
    ensures Join(root, Clean(rel)) == Abs(Loc(root) + Loc(rel))
  {
    var cleaned := Clean(rel);
    assert Parse(cleaned) == Parse(rel) by { CleanIdempotent(rel); }
    JoinMeaning(root, cleaned);
    FromLocal(Loc(root), Parse(rel));
  }

  lemma FromLocal(stack: Path, l: Lex)
    requires l.ups == 0
    ensures From(stack, l) == stack + l.names
  {}

  /** `safeJoin` accepts exactly the relative paths whose walk never rises and names no `.git`;
      its result extends the root by the cleaned path, which `Rel` recovers. */
  lemma SafeJoinMeaning(root: string, rel: string)
    requires IsAbs(root) && rel != ""
    ensures SafeJoin(root, rel).Ok? <==> !IsAbs(rel) && Parse(rel).ups == 0 && ".git" !in Loc(rel)
    ensures SafeJoin(root, rel).Ok? ==>
              SafeJoin(root, rel).value == Abs(Loc(root) + Loc(rel))
              && Rel(root, SafeJoin(root, rel).value) == Ok(Clean(rel))
              && ".." !in Split(Clean(rel)) && ".git" !in Split(Clean(rel))
  {
    CleanLocal(rel);
    if IsLocal(Clean(rel)) {
      LaterGuardsRedundant(root, rel);
      LocalSplit(rel);
      var target := Abs(Loc(root) + Loc(rel));
      AbsLoc(Loc(root) + Loc(rel));
      RelMeaning(root, target);
      UnderCommon(Loc(root), Loc(target));
      assert Parse(Rel(root, target).value) == Parse(rel);
    }
  }

  // -------------------------------------------------------------- validators agree

  lemma NormalizeMeaning(raw: string)
    requires raw != ""
    ensures NormalizeRepoPath(raw).Ok? <==>
              '\\' !in raw && !IsAbs(raw) && Parse(raw).ups == 0 && ".git" !in Loc(raw)
    ensures NormalizeRepoPath(raw).Ok? ==>
              NormalizeRepoPath(raw).value == (if Loc(raw) == [] then "" else Clean(raw))
  {
    if !IsAbs(raw) {
      var l := Parse(raw);
      ClimbsVisibly(l);
      ParseRender(l);
      assert Clean(raw) == "." ==> Parse(".") == l;
      SplitNoSlash(".");
      if l.ups == 0 {
        LocalSplit(raw);
      }
    }
  }

  /** No byte of a cleaned relative path is one its raw form lacks, besides dots. */
  lemma NoNewBackslash(raw: string)
    requires !IsAbs(raw) && '\\' !in raw
    ensures '\\' !in Clean(raw)
  {
    SplitBytes(raw, '\\');
    var l := Parse(raw);
    ResolveBytes(Lex(false, 0, []), Split(raw), '\\');
    if Components(l) != [] { SlashedBytes(Components(l), '\\'); }
  }

  predicate Free(parts: seq<string>, b: char) { forall i :: 0 <= i < |parts| ==> b !in parts[i] }

  lemma {:induction false} SplitBytes(s: string, b: char)
    requires b !in s
    ensures Free(Split(s), b)
  {
    if s != "" {
      assert s == [s[0]] + s[1..];
      SplitBytes(s[1..], b);
    }
  }

  lemma {:induction false} ResolveBytes(l: Lex, cs: seq<string>, b: char)
    requires NoSlashes(cs) && Free(cs, b) && Free(l.names, b)
    ensures Free(Resolve(l, cs).names, b)
    decreases |cs|
  {
    if cs != [] { ResolveBytes(Step(l, cs[0]), cs[1..], b); }
  }

  lemma {:induction false} SlashedBytes(parts: seq<string>, b: char)
    requires |parts| >= 1 && Free(parts, b) && b != '/'
    ensures b !in Slashed(parts)
  {
    if |parts| > 1 { SlashedBytes(parts[1..], b); }
  }

  /** Normalising twice is normalising once. */
  lemma NormalizeIdempotent(raw: string)
    requires NormalizeRepoPath(raw).Ok?
    ensures NormalizeRepoPath(NormalizeRepoPath(raw).value) == NormalizeRepoPath(raw)
  {
    var path := NormalizeRepoPath(raw).value;
    if path != "" {
      NormalizeMeaning(raw);
      NoNewBackslash(raw);
      CleanIdempotent(raw);
      CleanLocal(raw);
      NormalizeMeaning(path);
    }
  }

  /** The parser and both backends accept the same sub-paths, apart from the backslash that only
      the parser refuses, and the join of the raw path is the join of the normalised one. */
  lemma ValidatorsAgree(root: string, raw: string)
    requires IsAbs(root) && raw != ""
    ensures NormalizeRepoPath(raw).Ok? <==> '\\' !in raw && SafeJoin(root, raw).Ok?
    ensures AcceptsSubPath(raw) <==> SafeJoin(root, raw).Ok?
    ensures NormalizeRepoPath(raw).Ok? ==>
              SafeJoin(root, NormalizeRepoPath(raw).value) == SafeJoin(root, raw)
  {
    NormalizeMeaning(raw);
    SafeJoinMeaning(root, raw);
    CleanLocal(raw);
    if !IsAbs(raw) && Parse(raw).ups == 0 { LocalSplit(raw); }
    if NormalizeRepoPath(raw).Ok? {
      CleanIdempotent(raw);
      if Loc(raw) != [] {
        SafeJoinMeaning(root, Clean(raw));
      } else {
        assert Loc(root) + Loc(raw) == Loc(root);
      }
    }
  }

  /** So no sub-path the parser lets through meets a lexical path error in either backend. */
  lemma ParsedPathAccepted(root: string, raw: string)
    requires IsAbs(root) && NormalizeRepoPath(raw).Ok? && NormalizeRepoPath(raw).value != ""
    ensures var path := NormalizeRepoPath(raw).value;
            SafeJoin(root, path) == Ok(Abs(Loc(root) + Loc(path)))
            && EnsureInside(root, SafeJoin(root, path).value).Pass?
            && AcceptsSubPath(path)
  {
    var path := NormalizeRepoPath(raw).value;
    NormalizeIdempotent(raw);
    ValidatorsAgree(root, path);
    SafeJoinMeaning(root, path);
    AbsLoc(Loc(root) + Loc(path));
    InsideMeaning(root, SafeJoin(root, path).value);
  }

  // -------------------------------------------------------------- publish targets

  /** A target is accepted exactly when it lies strictly below the root, and the path rebuilt
      from the trusted root is the cleaned candidate. */
  lemma TargetReconstruction(root: string, candidate: string)
    requires IsAbs(root) && IsAbs(candidate)
    ensures SafeTargetPath(root, candidate).Ok? <==>
              Under(Loc(root), Loc(candidate)) && Loc(root) != Loc(candidate)
    ensures SafeTargetPath(root, candidate).Ok? ==>
              SafeTargetPath(root, candidate).value == Clean(candidate)
  {
    CleanIdempotent(root);
    CleanIdempotent(candidate);
    var r, c := Clean(root), Clean(candidate);
    RelMeaning(r, c);
    UnderCommon(Loc(root), Loc(candidate));
    var rel := Rel(r, c).value;
    IsLocalMeaning(rel);
    SplitNoSlash(".");
    assert rel == "." <==> Parse(rel) == Lex(false, 0, []);
    assert rel != "" by { assert Split("") == [""]; assert Clean("") == "."; }
  }

  // --------------------------------------------------------------------- links

  /** Net descent of a walk: names entered less parents taken. */
  function Height(cs: seq<string>): int {
    if cs == [] then 0
    else
      (if cs[0] == "" || cs[0] == "." then 0 else if cs[0] == ".." then -1 else 1) + Height(cs[1..])
  }

  /** No prefix of the walk rises more than `depth` levels above its start. */
  predicate NeverRises(depth: nat, cs: seq<string>) {
    forall k :: 0 <= k <= |cs| ==> depth + Height(cs[..k]) >= 0
  }

  lemma {:induction false} RiseOfResolve(l: Lex, cs: seq<string>, depth: nat)
    requires !l.rooted && NoSlashes(cs)
    ensures Resolve(l, cs).ups <= depth <==>
              l.ups <= depth
              && (forall k :: 0 <= k <= |cs| ==> depth + |l.names| - l.ups + Height(cs[..k]) >= 0)
    decreases |cs|
  {
    if cs == [] {
      assert Height(cs[..0]) == 0;
    } else {
      var next := Step(l, cs[0]);
      RiseOfResolve(next, cs[1..], depth);
      assert forall k {:trigger cs[..k]} :: 1 <= k <= |cs| ==> cs[..k][1..] == cs[1..][..k - 1];
      assert forall k {:trigger cs[1..][..k]} :: 0 <= k < |cs| ==> cs[1..][..k] == cs[..k + 1][1..];
      assert Height(cs[..0]) == 0 && Height(cs[1..][..0]) == 0;
    }
  }

  /** How far a relative target climbs is the deepest dip of its walk. */
  lemma ClimbMeaning(target: string, depth: nat)
    requires !IsAbs(target)
    ensures Parse(target).ups <= depth <==> NeverRises(depth, Split(target))
  {
    RiseOfResolve(Lex(false, 0, []), Split(target), depth);
  }

  /** Having left `root` by `climb` levels, the walk comes back through the root's own trailing
      names. Leaving `/` goes nowhere. */
  predicate Reenters(root: Path, climb: nat, names: Path) {
    root[if climb <= |root| then |root| - climb else 0..] <= names
  }

  /** Whether a link in directory `dir` below `root` is accepted, in terms of its target only:
      it never rises above the root, or it comes back by name. */
  predicate LinkStays(root: Path, dir: Path, target: string) {
    !IsAbs(target)
    && (NeverRises(|dir|, Split(target))
        || (Parse(target).ups > |dir|
            && Reenters(root, Parse(target).ups - |dir|, Parse(target).names)))
  }

  lemma ResolvedLinkMeaning(at: Path, name: string, target: string)
    requires Names(at) && IsName(name) && !IsAbs(target)
    ensures ResolvedLink(Abs(at + [name]), target) == Abs(From(at, Parse(target)))
    ensures Names(From(at, Parse(target)))
  {
    var link := at + [name];
    DirMeaning(link);
    assert link[..|link| - 1] == at;
    AbsLoc(at);
    JoinMeaning(Abs(at), target);
    CleanIdempotent(Abs(at) + "/" + target);
  }

  /** The exact acceptance condition of `validateSymlinkTarget`, at every absolute root. */
  lemma LinkAcceptance(root: string, dir: Path, name: string, target: string)
    requires IsAbs(root) && Names(dir) && IsName(name)
    ensures ValidateSymlinkTarget(root, Abs(Loc(root) + dir + [name]), target).Pass?
            <==> LinkStays(Loc(root), dir, target)
  {
    if !IsAbs(target) {
      var at := Loc(root) + dir;
      ResolvedLinkMeaning(at, name, target);
      AbsLoc(From(at, Parse(target)));
      InsideMeaning(root, Abs(From(at, Parse(target))));
      ClimbMeaning(target, |dir|);
      StaysMeaning(Loc(root), dir, Parse(target));
    }
  }

  lemma StaysMeaning(root: Path, dir: Path, l: Lex)
    ensures Under(root, From(root + dir, l)) <==>
              l.ups <= |dir| || Reenters(root, l.ups - |dir|, l.names)
    ensures l.ups <= |dir| ==> From(root + dir, l) == root + From(dir, l)
  {
    if l.ups <= |dir| {
      assert From(root + dir, l) == root + From(dir, l);
    } else {
      var low := if l.ups - |dir| <= |root| then |root| - (l.ups - |dir|) else 0;
      assert From(root + dir, l) == root[..low] + l.names;
      assert root == root[..low] + root[low..];
      PrefixSplit(root[..low], root[low..], l.names);
    }
  }

  lemma PrefixSplit(a: Path, b: Path, c: Path)
    ensures a + b <= a + c <==> b <= c
  {
    if a + b <= a + c {
      assert (a + c)[..|a + b|] == a + b;
      assert c[..|b|] == (a + c)[|a|..|a + b|] == b;
    }
    if b <= c { assert a + c == (a + b) + c[|b|..]; }
  }

  /** A link that never rises above the root is accepted at every root and leads to the same
      place relative to it: acceptance and meaning survive copying from root to root. */
  lemma LinkRelocation(root: string, root': string, dir: Path, name: string, target: string)
    requires IsAbs(root) && IsAbs(root') && Names(dir) && IsName(name)
    requires !IsAbs(target) && NeverRises(|dir|, Split(target))
    ensures ValidateSymlinkTarget(root, Abs(Loc(root) + dir + [name]), target).Pass?
    ensures ValidateSymlinkTarget(root', Abs(Loc(root') + dir + [name]), target).Pass?
    ensures ResolvedLink(Abs(Loc(root) + dir + [name]), target) == Abs(Loc(root) + From(dir, Parse(target)))
    ensures ResolvedLink(Abs(Loc(root') + dir + [name]), target) == Abs(Loc(root') + From(dir, Parse(target)))
  {
    RelocationAt(root, dir, name, target);
    RelocationAt(root', dir, name, target);
  }

  lemma RelocationAt(root: string, dir: Path, name: string, target: string)
    requires IsAbs(root) && Names(dir) && IsName(name)
    requires !IsAbs(target) && NeverRises(|dir|, Split(target))
    ensures ValidateSymlinkTarget(root, Abs(Loc(root) + dir + [name]), target).Pass?
    ensures ResolvedLink(Abs(Loc(root) + dir + [name]), target) == Abs(Loc(root) + From(dir, Parse(target)))
  {
    LinkAcceptance(root, dir, name, target);
    ResolvedLinkMeaning(Loc(root) + dir, name, target);
    ClimbMeaning(target, |dir|);
    StaysMeaning(Loc(root), dir, Parse(target));
  }

  /** Coming back by name is what does not survive: at any two roots with different last names,
      one target is accepted at the first and refused at the second. */
  lemma ReentryDependsOnRoot(root: string, root': string, name: string)
    requires IsAbs(root) && IsAbs(root') && IsName(name)
    requires |Loc(root)| >= 1 && |Loc(root')| >= 1 && Last(Loc(root)) != Last(Loc(root'))
    ensures var target := "../" + Last(Loc(root));
            ValidateSymlinkTarget(root, Abs(Loc(root) + [] + [name]), target).Pass?
            && ValidateSymlinkTarget(root', Abs(Loc(root') + [] + [name]), target).Fail?
  {
    var up := Last(Loc(root));
    LinkAcceptance(root, [], name, "../" + up);
    LinkAcceptance(root', [], name, "../" + up);
    SiblingLink(Loc(root), up);
    SiblingLink(Loc(root'), up);
  }

  /** A top-level link to a sibling of the root stays only when the sibling is the root itself. */
  lemma SiblingLink(root: Path, name: string)
    requires |root| >= 1 && IsName(name)
    ensures LinkStays(root, [], "../" + name) <==> name == Last(root)
  {
    UpOnce(name);
    ClimbMeaning("../" + name, 0);
    LastOnly(root);
  }

  lemma UpOnce(name: string)
    requires IsName(name)
    ensures Parse("../" + name) == Lex(false, 1, [name]) && !IsAbs("../" + name)
  {
    var l := Lex(false, 1, [name]);
    var cs := ["..", name];
    assert cs[1..] == [name];
    assert Slashed(cs) == "../" + name;
    assert Components(l) == cs;
    ParseRender(l);
  }

  lemma LastOnly(p: Path)
    requires |p| >= 1
    ensures forall n :: Reenters(p, 1, [n]) <==> n == Last(p)
  {
    assert p[|p| - 1..] == [Last(p)];
  }

  function Last(p: Path): string
    requires |p| >= 1
  {
    p[|p| - 1]
  }
}
