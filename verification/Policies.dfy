/** Policies: which one governs a request, what it grants, and the defaults applied on loading. */
module Policies {
  import opened Wrappers
  import opened Text
  import opened Revisions
  import opened Volume

  datatype RevisionPolicy = RevisionPolicy(requirePinnedCommit: bool, allowBranches: bool, allowTags: bool,
                                           allowedBranchRegex: seq<string>, allowedTagRegex: seq<string>)

  datatype ClonePolicy = ClonePolicy(defaultDepth: int, maxDepth: int, timeout: int, maxRepositorySize: int,
                                     maxFileCount: int)

  datatype SubmodulePolicy = SubmodulePolicy(enabled: bool, maxDepth: int)

  datatype CredentialPolicy = CredentialPolicy(defaultProfile: string, allowedProfiles: seq<string>)

  datatype Policy = Policy(name: string, allowedRepositories: seq<string>, allowedHosts: seq<string>,
                           revisions: RevisionPolicy, clone: ClonePolicy, submodules: SubmodulePolicy,
                           lfsEnabled: bool, credentials: CredentialPolicy, namespaces: seq<string>)

  datatype Request = Request(podNamespace: string, repo: string, revision: string, path: string, depth: int,
                             submodules: bool, lfs: bool, credentialProfile: string)

  datatype Denial =
    | PolicyNotFound | RepoNotAllowed | HostNotAllowed | SubmodulesDisabled | LfsDisabled | DepthExceeded
    | RevisionDenied | CredentialProfileDenied

  datatype Decision = Denied(reason: Denial) | Allowed(profile: string)

  // ------------------------------------------------------------------- selection

  /** Whether a policy governs requests of a namespace that name `name`, or no policy. */
  predicate Governs(p: Policy, ns: string, name: string) {
    (name != "" ==> p.name == name) && (|p.namespaces| == 0 || ns in p.namespaces)
  }

  /** `selectPolicy`: the loop returns at the first policy that governs. */
  function SelectPolicy(policies: seq<Policy>, ns: string, name: string): Option<Policy> {
    if policies == [] then None
    else
      var p := policies[0];
      if name != "" then
        if p.name != name then SelectPolicy(policies[1..], ns, name)
        else if |p.namespaces| == 0 || ns in p.namespaces then Some(p)
        else SelectPolicy(policies[1..], ns, name)
      else if |p.namespaces| == 0 || ns in p.namespaces then Some(p)
      else SelectPolicy(policies[1..], ns, name)
  }

  ghost predicate FirstGoverning(policies: seq<Policy>, ns: string, name: string, i: nat) {
    i < |policies| && Governs(policies[i], ns, name) && forall j :: 0 <= j < i ==> !Governs(policies[j], ns, name)
  }

  /** The selected policy is the first that governs; none when none does. */
  lemma {:induction false} SelectionMeaning(policies: seq<Policy>, ns: string, name: string)
    ensures match SelectPolicy(policies, ns, name)
            case None => forall i :: 0 <= i < |policies| ==> !Governs(policies[i], ns, name)
            case Some(p) => exists i: nat :: FirstGoverning(policies, ns, name, i) && policies[i] == p
    decreases |policies|
  {
    if policies != [] {
      if Governs(policies[0], ns, name) {
        assert FirstGoverning(policies, ns, name, 0);
      } else {
        SelectionMeaning(policies[1..], ns, name);
        if SelectPolicy(policies, ns, name).Some? {
          var i: nat :| FirstGoverning(policies[1..], ns, name, i)
              && policies[1..][i] == SelectPolicy(policies, ns, name).value;
          forall j | 0 <= j < i + 1 ensures !Governs(policies[j], ns, name) {
            if j > 0 { assert policies[j] == policies[1..][j - 1]; }
          }
          assert FirstGoverning(policies, ns, name, i + 1);
        } else {
          forall j | 0 <= j < |policies| ensures !Governs(policies[j], ns, name) {
            if j > 0 { assert policies[j] == policies[1..][j - 1]; }
          }
        }
      }
    }
  }

  /** Policies added at the end are looked at only when nothing before them governs. */
  lemma {:induction false} SelectAppended(policies: seq<Policy>, more: seq<Policy>, ns: string, name: string)
    ensures SelectPolicy(policies + more, ns, name) ==
            if SelectPolicy(policies, ns, name).Some? then SelectPolicy(policies, ns, name)
            else SelectPolicy(more, ns, name)
    decreases |policies|
  {
    if policies == [] {
      assert policies + more == more;
    } else {
      SelectAppended(policies[1..], more, ns, name);
      assert (policies + more)[1..] == policies[1..] + more && (policies + more)[0] == policies[0];
    }
  }

  // ------------------------------------------------------------------- evaluation

  predicate MatchesAnyGlob(lib: Library, patterns: seq<string>, value: string) {
    exists i :: 0 <= i < |patterns| && lib.globMatch(patterns[i], value)
  }

  /** A pattern that does not compile matches nothing. */
  predicate MatchesAnyRegex(lib: Library, patterns: seq<string>, value: string) {
    exists i :: 0 <= i < |patterns| && lib.regexMatch(patterns[i], value)
  }

  /** `checkRevisionPolicy`. */
  function CheckRevision(lib: Library, rev: string, rp: RevisionPolicy): Check {
    var isCommit, isTag, isBranch := IsCommit(rev), SaysTag(rev), IsBranchRevision(rev);
    if rp.requirePinnedCommit && !isCommit then Fail
    else if isBranch && !rp.allowBranches && !rp.requirePinnedCommit then Fail
    else if isTag && !rp.allowTags && !rp.requirePinnedCommit then Fail
    else if isBranch && |rp.allowedBranchRegex| > 0 && !MatchesAnyRegex(lib, rp.allowedBranchRegex, rev) then Fail
    else if isTag && |rp.allowedTagRegex| > 0 && !MatchesAnyRegex(lib, rp.allowedTagRegex, rev) then Fail
    else Pass
  }

  /** The revision rules, class by class: a commit always passes; a tag or a branch passes when no
      pin is required, its class is allowed, and it matches some pattern if there are any. */
  lemma RevisionRules(lib: Library, rev: string, rp: RevisionPolicy)
    ensures CheckRevision(lib, rev, rp) == Pass <==>
            match ClassOf(rev)
            case Commit => true
            case Tag => !rp.requirePinnedCommit && rp.allowTags
                        && (rp.allowedTagRegex == [] || MatchesAnyRegex(lib, rp.allowedTagRegex, rev))
            case Branch => !rp.requirePinnedCommit && rp.allowBranches
                           && (rp.allowedBranchRegex == [] || MatchesAnyRegex(lib, rp.allowedBranchRegex, rev))
  {
    ExactlyOneClass(rev);
  }

  /** A plain name judged a branch can resolve to a tag: with the kind `tag` it passes rules that allow
      no tags. */
  lemma TagBehindBranch(lib: Library, rev: string, rp: RevisionPolicy)
    requires PlainName(rev) && !FoldsToHead(rev)
    requires rp.allowBranches && !rp.requirePinnedCommit && rp.allowedBranchRegex == [] && !rp.allowTags
    ensures AcceptsRevision(rev) && CheckRevision(lib, rev, rp) == Pass
    ensures ResolveHash("tag", rev) == HeadOf(TagRef(rev)) && ResolveHash("branch", rev) == HeadOf(BranchRef(rev))
  {
    PlainBranch(rev);
    RevisionRules(lib, rev, rp);
  }

  function Profile(p: Policy, req: Request): string {
    if req.credentialProfile == "" then p.credentials.defaultProfile else req.credentialProfile
  }

  /** The tests of one policy, in order. */
  function Judge(lib: Library, p: Policy, req: Request): Decision {
    if !MatchesAnyGlob(lib, p.allowedRepositories, req.repo) then Denied(RepoNotAllowed)
    else if HostFromRepo(lib, req.repo) !in p.allowedHosts then Denied(HostNotAllowed)
    else if req.submodules && !p.submodules.enabled then Denied(SubmodulesDisabled)
    else if req.lfs && !p.lfsEnabled then Denied(LfsDisabled)
    else if req.depth > 0 && p.clone.maxDepth > 0 && req.depth > p.clone.maxDepth then Denied(DepthExceeded)
    else if CheckRevision(lib, req.revision, p.revisions).Fail? then Denied(RevisionDenied)
    else if Profile(p, req) != "" && Profile(p, req) !in p.credentials.allowedProfiles then
      Denied(CredentialProfileDenied)
    else Allowed(Profile(p, req))
  }

  /** `Evaluate`: the decision and the policy it rests on. */
  function Evaluate(lib: Library, policies: seq<Policy>, req: Request, policyName: string): (Decision, Option<Policy>) {
    var p := SelectPolicy(policies, req.podNamespace, policyName);
    (if p.None? then Denied(PolicyNotFound) else Judge(lib, p.value, req), p)
  }

  /** Appending policies changes no verdict but a missing policy. */
  lemma AppendingPolicies(lib: Library, policies: seq<Policy>, more: seq<Policy>, req: Request, name: string)
    ensures var before, after := Evaluate(lib, policies, req, name), Evaluate(lib, policies + more, req, name);
            before.0 != Denied(PolicyNotFound) ==> after == before
    ensures Evaluate(lib, policies, req, name).0 == Denied(PolicyNotFound) ==>
              Evaluate(lib, policies + more, req, name) == Evaluate(lib, more, req, name)
  {
    SelectAppended(policies, more, req.podNamespace, name);
  }

  predicate Includes(small: seq<string>, large: seq<string>) {
    forall i :: 0 <= i < |small| ==> small[i] in large
  }

  /** `q` allows at least the repositories, hosts and profiles `p` does, and is otherwise the same. */
  predicate Wider(p: Policy, q: Policy) {
    && Includes(p.allowedRepositories, q.allowedRepositories)
    && Includes(p.allowedHosts, q.allowedHosts)
    && Includes(p.credentials.allowedProfiles, q.credentials.allowedProfiles)
    && q == p.(allowedRepositories := q.allowedRepositories, allowedHosts := q.allowedHosts,
               credentials := p.credentials.(allowedProfiles := q.credentials.allowedProfiles))
  }

  lemma IncludedIn(small: seq<string>, large: seq<string>, x: string)
    requires Includes(small, large)
    ensures x in small ==> x in large
  {
    if x in small { var i :| 0 <= i < |small| && small[i] == x; }
  }

  lemma WiderGlobs(lib: Library, small: seq<string>, large: seq<string>, repo: string)
    requires Includes(small, large) && MatchesAnyGlob(lib, small, repo)
    ensures MatchesAnyGlob(lib, large, repo)
  {
    var i :| 0 <= i < |small| && lib.globMatch(small[i], repo);
    var j :| 0 <= j < |large| && large[j] == small[i];
  }

  lemma WiderJudges(lib: Library, p: Policy, q: Policy, req: Request)
    requires Wider(p, q) && Judge(lib, p, req).Allowed?
    ensures Judge(lib, q, req) == Judge(lib, p, req)
  {
    WiderGlobs(lib, p.allowedRepositories, q.allowedRepositories, req.repo);
    IncludedIn(p.allowedHosts, q.allowedHosts, HostFromRepo(lib, req.repo));
    IncludedIn(p.credentials.allowedProfiles, q.credentials.allowedProfiles, Profile(p, req));
  }

  lemma {:induction false} WiderSelects(policies: seq<Policy>, wider: seq<Policy>, ns: string, name: string)
    requires |policies| == |wider| && forall i :: 0 <= i < |policies| ==> Wider(policies[i], wider[i])
    ensures var p, q := SelectPolicy(policies, ns, name), SelectPolicy(wider, ns, name);
            p.Some? == q.Some? && (p.Some? ==> Wider(p.value, q.value))
    decreases |policies|
  {
    if policies != [] {
      assert Wider(policies[0], wider[0]);
      WiderSelects(policies[1..], wider[1..], ns, name);
    }
  }

  /** Enlarging the repository, host and profile lists never turns an allowed request into a denied
      one, nor changes its profile. */
  lemma WideningKeeps(lib: Library, policies: seq<Policy>, wider: seq<Policy>, req: Request, name: string)
    requires |policies| == |wider| && forall i :: 0 <= i < |policies| ==> Wider(policies[i], wider[i])
    requires Evaluate(lib, policies, req, name).0.Allowed?
    ensures Evaluate(lib, wider, req, name).0 == Evaluate(lib, policies, req, name).0
  {
    WiderSelects(policies, wider, req.podNamespace, name);
    WiderJudges(lib, SelectPolicy(policies, req.podNamespace, name).value,
                SelectPolicy(wider, req.podNamespace, name).value, req);
  }

  /** A policy governs the requests that name it, or name none, of the namespaces it lists, or of all when
      it lists none. */
  lemma GovernsMeaning(p: Policy, ns: string, name: string)
    ensures Governs(p, ns, name) <==>
            && (name == "" || name == p.name)
            && (p.namespaces == [] || exists i :: 0 <= i < |p.namespaces| && p.namespaces[i] == ns)
  {}

  /** The profile a request gets of a policy: the one it asks for, or the default. */
  function ProfileAsked(p: Policy, req: Request): string {
    if req.credentialProfile != "" then req.credentialProfile else p.credentials.defaultProfile
  }

  predicate PermitsRepo(lib: Library, p: Policy, req: Request) {
    exists i :: 0 <= i < |p.allowedRepositories| && lib.globMatch(p.allowedRepositories[i], req.repo)
  }

  predicate PermitsHost(lib: Library, p: Policy, req: Request) {
    exists i :: 0 <= i < |p.allowedHosts| && p.allowedHosts[i] == HostFromRepo(lib, req.repo)
  }

  predicate PermitsDepth(p: Policy, req: Request) {
    req.depth <= 0 || p.clone.maxDepth <= 0 || req.depth <= p.clone.maxDepth
  }

  /** Revisions that are no commit need their class allowed, a pin not required, and a match where there
      are patterns. */
  predicate PermitsRevision(lib: Library, p: Policy, req: Request) {
    match ClassOf(req.revision)
    case Commit => true
    case Tag =>
      && !p.revisions.requirePinnedCommit && p.revisions.allowTags
      && (p.revisions.allowedTagRegex == []
          || exists i :: 0 <= i < |p.revisions.allowedTagRegex|
                         && lib.regexMatch(p.revisions.allowedTagRegex[i], req.revision))
    case Branch =>
      && !p.revisions.requirePinnedCommit && p.revisions.allowBranches
      && (p.revisions.allowedBranchRegex == []
          || exists i :: 0 <= i < |p.revisions.allowedBranchRegex|
                         && lib.regexMatch(p.revisions.allowedBranchRegex[i], req.revision))
  }

  predicate PermitsProfile(p: Policy, req: Request) {
    ProfileAsked(p, req) == ""
    || exists i :: 0 <= i < |p.credentials.allowedProfiles| && p.credentials.allowedProfiles[i] == ProfileAsked(p, req)
  }

  /** The verdict of one policy, whatever the order of its tests: a request is allowed exactly when all
      permit it, and with the profile it asks for; otherwise the reason is the first that does not. */
  lemma JudgeMeaning(lib: Library, p: Policy, req: Request)
    ensures match Judge(lib, p, req)
            case Allowed(profile) =>
              && PermitsRepo(lib, p, req) && PermitsHost(lib, p, req)
              && (req.submodules ==> p.submodules.enabled) && (req.lfs ==> p.lfsEnabled)
              && PermitsDepth(p, req) && PermitsRevision(lib, p, req) && PermitsProfile(p, req)
              && profile == ProfileAsked(p, req)
            case Denied(reason) =>
              match reason
              case PolicyNotFound => false
              case RepoNotAllowed => !PermitsRepo(lib, p, req)
              case HostNotAllowed => PermitsRepo(lib, p, req) && !PermitsHost(lib, p, req)
              case SubmodulesDisabled =>
                PermitsRepo(lib, p, req) && PermitsHost(lib, p, req) && req.submodules && !p.submodules.enabled
              case LfsDisabled =>
                && PermitsRepo(lib, p, req) && PermitsHost(lib, p, req) && (req.submodules ==> p.submodules.enabled)
                && req.lfs && !p.lfsEnabled
              case DepthExceeded =>
                && PermitsRepo(lib, p, req) && PermitsHost(lib, p, req) && (req.submodules ==> p.submodules.enabled)
                && (req.lfs ==> p.lfsEnabled) && !PermitsDepth(p, req)
              case RevisionDenied =>
                && PermitsRepo(lib, p, req) && PermitsHost(lib, p, req) && (req.submodules ==> p.submodules.enabled)
                && (req.lfs ==> p.lfsEnabled) && PermitsDepth(p, req) && !PermitsRevision(lib, p, req)
              case CredentialProfileDenied =>
                && PermitsRepo(lib, p, req) && PermitsHost(lib, p, req) && (req.submodules ==> p.submodules.enabled)
                && (req.lfs ==> p.lfsEnabled) && PermitsDepth(p, req) && PermitsRevision(lib, p, req)
                && !PermitsProfile(p, req)
  {
    RevisionRules(lib, req.revision, p.revisions);
  }

  /** When a request is allowed, and with which profile, spelled out without the order of the tests. */
  lemma EvaluateMeaning(lib: Library, policies: seq<Policy>, req: Request, name: string, profile: string)
    ensures Evaluate(lib, policies, req, name).0 == Allowed(profile) <==>
            exists i: nat ::
              && FirstGoverning(policies, req.podNamespace, name, i)
              && PermitsRepo(lib, policies[i], req) && PermitsHost(lib, policies[i], req)
              && (req.submodules ==> policies[i].submodules.enabled) && (req.lfs ==> policies[i].lfsEnabled)
              && PermitsDepth(policies[i], req) && PermitsRevision(lib, policies[i], req)
              && PermitsProfile(policies[i], req) && profile == ProfileAsked(policies[i], req)
    ensures Evaluate(lib, policies, req, name).0 == Denied(PolicyNotFound) <==>
            forall i :: 0 <= i < |policies| ==> !Governs(policies[i], req.podNamespace, name)
  {
    SelectionMeaning(policies, req.podNamespace, name);
    var p := SelectPolicy(policies, req.podNamespace, name);
    if p.Some? {
      var k: nat :| FirstGoverning(policies, req.podNamespace, name, k) && policies[k] == p.value;
      forall i: nat | FirstGoverning(policies, req.podNamespace, name, i) ensures i == k {}
      JudgeMeaning(lib, p.value, req);
    }
  }

  /** An allowed request rests on the first policy that governs it, and holds to that policy; the host
      it allows is that of the address, unless a URL is spelled in a way the policy does not know. */
  lemma AllowedHolds(lib: Library, policies: seq<Policy>, req: Request, name: string)
    requires Evaluate(lib, policies, req, name).0.Allowed?
    ensures exists i: nat ::
              && FirstGoverning(policies, req.podNamespace, name, i)
              && Evaluate(lib, policies, req, name) == (Allowed(ProfileAsked(policies[i], req)), Some(policies[i]))
              && PermitsRepo(lib, policies[i], req) && HostFromRepo(lib, req.repo) in policies[i].allowedHosts
              && (req.submodules ==> policies[i].submodules.enabled) && (req.lfs ==> policies[i].lfsEnabled)
              && PermitsDepth(policies[i], req) && PermitsRevision(lib, policies[i], req)
              && PermitsProfile(policies[i], req)
              && (AcceptsRepo(lib, req.repo) && (!Contains(req.repo, "://") || SpelledUrl(req.repo)) ==>
                    AddressHost(lib, req.repo) in policies[i].allowedHosts)
              && (policies[i].revisions.requirePinnedCommit ==> IsCommit(req.revision))
  {
    SelectionMeaning(policies, req.podNamespace, name);
    var p := SelectPolicy(policies, req.podNamespace, name).value;
    var i: nat :| FirstGoverning(policies, req.podNamespace, name, i) && policies[i] == p;
    JudgeMeaning(lib, p, req);
    if AcceptsRepo(lib, req.repo) { HostAgreement(lib, req.repo); }
  }

  // -------------------------------------------------------------------- defaults

  const SECOND: int := 1_000_000_000

  function Default(n: int, d: int): int { if n <= 0 then d else n }

  /** A policy with every limit that is not positive replaced by its default. */
  function WithDefaults(p: Policy): Policy {
    p.(clone := ClonePolicy(
         Default(p.clone.defaultDepth, 1), Default(p.clone.maxDepth, 10), Default(p.clone.timeout, 30 * SECOND),
         Default(p.clone.maxRepositorySize, 100 * 1024 * 1024), Default(p.clone.maxFileCount, 5000)),
       submodules := p.submodules.(maxDepth := Default(p.submodules.maxDepth, 1)))
  }

  /** `applyPolicyDefaults`, through the pointer to one policy of the slice. */
  method ApplyDefaults(policies: array<Policy>, i: nat)
    requires i < policies.Length
    modifies policies
    ensures policies[i] == WithDefaults(old(policies[i]))
    ensures forall j :: 0 <= j < policies.Length && j != i ==> policies[j] == old(policies[j])
  {
    if policies[i].clone.defaultDepth <= 0 {
      policies[i] := policies[i].(clone := policies[i].clone.(defaultDepth := 1));
    }
    if policies[i].clone.maxDepth <= 0 {
      policies[i] := policies[i].(clone := policies[i].clone.(maxDepth := 10));
    }
    if policies[i].clone.timeout <= 0 {
      policies[i] := policies[i].(clone := policies[i].clone.(timeout := 30 * SECOND));
    }
    if policies[i].clone.maxRepositorySize <= 0 {
      policies[i] := policies[i].(clone := policies[i].clone.(maxRepositorySize := 100 * 1024 * 1024));
    }
    if policies[i].clone.maxFileCount <= 0 {
      policies[i] := policies[i].(clone := policies[i].clone.(maxFileCount := 5000));
    }
    if policies[i].submodules.maxDepth <= 0 {
      policies[i] := policies[i].(submodules := policies[i].submodules.(maxDepth := 1));
    }
  }

  function Loaded(policies: seq<Policy>): seq<Policy> {
    seq(|policies|, i requires 0 <= i < |policies| => WithDefaults(policies[i]))
  }

  /** The loop of `LoadPolicies`, over the slice in place. */
  method LoadPolicies(policies: array<Policy>)
    modifies policies
    ensures policies[..] == Loaded(old(policies[..]))
  {
    for i := 0 to policies.Length
      invariant forall j :: 0 <= j < i ==> policies[j] == WithDefaults(old(policies[j]))
      invariant forall j :: i <= j < policies.Length ==> policies[j] == old(policies[j])
    {
      ApplyDefaults(policies, i);
    }
  }

  /** Every limit the backends enforce is on. */
  predicate LimitsOn(p: Policy) {
    && p.clone.defaultDepth > 0 && p.clone.maxDepth > 0 && p.clone.timeout > 0
    && p.clone.maxRepositorySize > 0 && p.clone.maxFileCount > 0 && p.submodules.maxDepth > 0
  }

  /** `n` where it is positive, and `d` where it is not. */
  predicate OrDefault(r: int, n: int, d: int) { (n > 0 ==> r == n) && (n <= 0 ==> r == d) }

  /** Loading turns every limit on, keeps the ones that were, and does it once for all: depths of one and
      ten, thirty seconds, a hundred MiB and five thousand files. It changes nothing else. */
  lemma DefaultsMeaning(p: Policy)
    ensures LimitsOn(WithDefaults(p))
    ensures var q := WithDefaults(p);
            && OrDefault(q.clone.defaultDepth, p.clone.defaultDepth, 1)
            && OrDefault(q.clone.maxDepth, p.clone.maxDepth, 10)
            && OrDefault(q.clone.timeout, p.clone.timeout, 30_000_000_000)
            && OrDefault(q.clone.maxRepositorySize, p.clone.maxRepositorySize, 104_857_600)
            && OrDefault(q.clone.maxFileCount, p.clone.maxFileCount, 5_000)
            && OrDefault(q.submodules.maxDepth, p.submodules.maxDepth, 1)
            && q.submodules.enabled == p.submodules.enabled
            && q == p.(clone := q.clone, submodules := q.submodules)
    ensures LimitsOn(p) <==> WithDefaults(p) == p
    ensures WithDefaults(WithDefaults(p)) == WithDefaults(p)
  {}

  lemma LoadedLimits(policies: seq<Policy>, ns: string, name: string)
    requires SelectPolicy(Loaded(policies), ns, name).Some?
    ensures LimitsOn(SelectPolicy(Loaded(policies), ns, name).value)
  {
    SelectionMeaning(Loaded(policies), ns, name);
  }

  /** Loading changes no selection, and of the verdicts only by capping the depth at ten where the
      policy set no cap. */
  lemma {:induction false} LoadedSelects(policies: seq<Policy>, ns: string, name: string)
    ensures var p, q := SelectPolicy(policies, ns, name), SelectPolicy(Loaded(policies), ns, name);
            p.Some? == q.Some? && (p.Some? ==> q.value == WithDefaults(p.value))
    decreases |policies|
  {
    if policies != [] {
      assert Loaded(policies)[1..] == Loaded(policies[1..]);
      LoadedSelects(policies[1..], ns, name);
    }
  }

  lemma LoadedVerdicts(lib: Library, policies: seq<Policy>, req: Request, name: string)
    ensures var (before, governing) := Evaluate(lib, policies, req, name);
            var after := Evaluate(lib, Loaded(policies), req, name).0;
            (after.Allowed? <==>
               before.Allowed? && (governing.value.clone.maxDepth <= 0 ==> req.depth <= 10))
            && (after.Allowed? ==> after == before)
  {
    LoadedSelects(policies, req.podNamespace, name);
  }
}
