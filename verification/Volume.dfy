/** The volume attributes of a request: parsing, checking, and what every accepted request is like. */
module Volume {
  import opened Wrappers
  import opened Text
  import opened SafePaths
  import opened Revisions

  datatype Url = Url(scheme: string, hostname: string)

  /** The parts of Go's standard library that decide requests and are not modelled themselves; the
      parser, the policy evaluator and both binaries share one of them. */
  datatype Library = Library(
    trimSpace: string -> string,
    toLower: string -> string,
    atoi: string -> Option<int>,
    parseUrl: string -> Option<Url>,
    globMatch: (string, string) -> bool,
    regexMatch: (string, string) -> bool)

  datatype Attributes = Attributes(repo: string, revision: string, revisionKind: string, path: string, depth: int,
                                   submodules: bool, lfs: bool, policy: string, credentialProfile: string,
                                   refreshSeconds: int)

  type Raw = map<string, string>

  /** Reading a key of a Go map: absent keys read as the empty string. */
  function Get(raw: Raw, key: string): string { if key in raw then raw[key] else "" }

  /** A trimmed attribute. */
  function Field(lib: Library, raw: Raw, key: string): string { lib.trimSpace(Get(raw, key)) }

  /** The attributes the parser reads. */
  const KEYS: seq<string> :=
    ["repo", "revision", "revisionKind", "path", "policy", "credentialProfile", "depth", "submodules", "lfs",
     "refreshSeconds"]

  // ----------------------------------------------------------------- repositories

  /** The address forms `user@host:path`. */
  predicate ScpLike(repo: string) {
    var at := Index(repo, '@');
    at > 0 &&
    var after := repo[at + 1..];
    var colon := Index(after, ':');
    0 < colon < |after| - 1
  }

  predicate RemoteUrl(u: Option<Url>) {
    u.Some? && u.value.hostname != "" && u.value.scheme in ["http", "https", "ssh"]
  }

  /** `validateRepo`. */
  predicate AcceptsRepo(lib: Library, repo: string) {
    if HasPrefix(repo, "-") then false
    else if ContainsAny(repo, " \t\r\n") then false
    else if HasPrefix(repo, "file://") || HasPrefix(repo, "/") || HasPrefix(repo, "./") || HasPrefix(repo, "../")
    then false
    else if Contains(repo, "://") then RemoteUrl(lib.parseUrl(repo))
    else ScpLike(repo)
  }

  lemma AcceptedRepoShape(lib: Library, repo: string)
    requires AcceptsRepo(lib, repo)
    ensures repo != "" && '\n' !in repo && !HasPrefix(repo, "-")
  {
    forall i | 0 <= i < |repo| ensures repo[i] != '\n' { assert repo[i] !in " \t\r\n"; }
    if i :| 0 <= i <= |repo| && OccursAt(repo, "://", i) { assert |repo| >= 3; }
  }

  /** The host of the scp form, as the policy extracts it; empty when there is none. */
  function ScpHost(repo: string): string {
    var at := Index(repo, '@');
    if at == -1 then ""
    else
      var after := repo[at + 1..];
      var c := Index(after, ':');
      if c == -1 then "" else after[..c]
  }

  /** Whether a repository is spelled with one of the schemes the policy looks for. */
  predicate SpelledUrl(repo: string) {
    HasPrefix(repo, "ssh://") || HasPrefix(repo, "http://") || HasPrefix(repo, "https://")
  }

  /** `HostFromRepo`. */
  function HostFromRepo(lib: Library, repo: string): string {
    if SpelledUrl(repo) && lib.parseUrl(repo).Some? then lib.parseUrl(repo).value.hostname
    else ScpHost(repo)
  }

  /** The scp form, without indices: a nonempty user, host and path, split at the first separators. */
  lemma ScpMeaning(repo: string, user: string, host: string, path: string)
    requires '@' !in user && ':' !in host
    requires repo == user + "@" + host + ":" + path
    ensures ScpLike(repo) <==> user != "" && host != "" && path != ""
    ensures ScpHost(repo) == host
  {
    var after := host + ":" + path;
    assert repo[|user|] == '@' && repo[|user| + 1..] == after;
    FirstIndex(repo, '@', |user|, user);
    assert after[|host|] == ':';
    FirstIndex(after, ':', |host|, host);
  }

  /** The host the policy looks at, spelled out: that of a URL in one of three spellings that can be parsed,
      and otherwise what stands between the first at sign and the first colon after it. */
  lemma PolicyHost(lib: Library, repo: string, user: string, host: string, path: string)
    ensures (HasPrefix(repo, "ssh://") || HasPrefix(repo, "http://") || HasPrefix(repo, "https://"))
            && lib.parseUrl(repo).Some? ==>
              HostFromRepo(lib, repo) == lib.parseUrl(repo).value.hostname
    ensures (!HasPrefix(repo, "ssh://") && !HasPrefix(repo, "http://") && !HasPrefix(repo, "https://"))
            || lib.parseUrl(repo).None? ==>
              && ('@' !in repo ==> HostFromRepo(lib, repo) == "")
              && ('@' !in user && ':' !in host && repo == user + "@" + host + ":" + path ==>
                    HostFromRepo(lib, repo) == host)
  {
    if '@' !in user && ':' !in host && repo == user + "@" + host + ":" + path { ScpMeaning(repo, user, host, path); }
  }

  lemma FirstIndex(s: string, c: char, i: nat, before: string)
    requires i < |s| && s[i] == c && before == s[..i] && c !in before
    ensures Index(s, c) == i
  {
    var k := Index(s, c);
    assert s[i] in s;
    forall j | 0 <= j < i ensures s[j] != c { assert s[j] == before[j]; }
    forall j | 0 <= j < k ensures s[j] != c { assert s[j] == s[..k][j]; }
  }

  /** The host of the address the parser accepts. */
  function AddressHost(lib: Library, repo: string): string {
    if !Contains(repo, "://") then ScpHost(repo)
    else if lib.parseUrl(repo).None? then ""
    else lib.parseUrl(repo).value.hostname
  }

  /** For every accepted repository, the host the policy looks at is the host of the accepted address
      if and only if the address is no URL, or is spelled with one of the schemes the policy looks
      for, or has by chance that host in its scp reading too. */
  lemma HostAgreement(lib: Library, repo: string)
    requires AcceptsRepo(lib, repo)
    ensures AddressHost(lib, repo) != ""
    ensures HostFromRepo(lib, repo) == AddressHost(lib, repo) <==>
            !Contains(repo, "://") || SpelledUrl(repo) || ScpHost(repo) == lib.parseUrl(repo).value.hostname
  {
    if SpelledUrl(repo) { SpelledContains(repo); }
  }

  /** The two do come apart: with the scheme in capitals, the parser reads a URL and the policy reads
      what follows the at sign. */
  lemma HostsDiffer(lib: Library, site: string, host: string, path: string, parsed: string)
    requires '@' !in site && ':' !in host && host != parsed && parsed != ""
    requires var repo := "HTTPS://" + site + "@" + host + ":" + path;
             !ContainsAny(repo, " \t\r\n") && lib.parseUrl(repo) == Some(Url("https", parsed))
    ensures var repo := "HTTPS://" + site + "@" + host + ":" + path;
            AcceptsRepo(lib, repo) && AddressHost(lib, repo) == parsed && HostFromRepo(lib, repo) == host
  {
    var repo := "HTTPS://" + site + "@" + host + ":" + path;
    assert '@' !in "HTTPS://";
    assert repo[0] == 'H' && repo[5..8] == "://";
    assert OccursAt(repo, "://", 5);
    ReadsAtSign(lib, repo, "HTTPS://" + site, host, path, parsed);
  }

  lemma ReadsAtSign(lib: Library, repo: string, user: string, host: string, path: string, parsed: string)
    requires repo == user + "@" + host + ":" + path && '@' !in user && ':' !in host && parsed != ""
    requires Contains(repo, "://") && !SpelledUrl(repo) && repo[0] !in "-/.f" && !ContainsAny(repo, " \t\r\n")
    requires lib.parseUrl(repo) == Some(Url("https", parsed))
    ensures AcceptsRepo(lib, repo) && AddressHost(lib, repo) == parsed && HostFromRepo(lib, repo) == host
  {
    ScpMeaning(repo, user, host, path);
  }

  lemma SpelledContains(repo: string)
    requires SpelledUrl(repo)
    ensures Contains(repo, "://")
  {
    var at := if HasPrefix(repo, "ssh://") then 3 else if HasPrefix(repo, "http://") then 4 else 5;
    assert repo[at] == ':' && repo[at + 1] == '/' && repo[at + 2] == '/';
    assert OccursAt(repo, "://", at);
  }

  // --------------------------------------------------------------------- scalars

  /** `parseBool`. */
  function ParseBool(lib: Library, v: string): Option<bool> {
    var word := lib.toLower(lib.trimSpace(v));
    if word in ["true", "1", "yes"] then Some(true)
    else if word in ["false", "0", "no"] then Some(false)
    else None
  }

  /** An optional flag: absent means off. */
  function FlagField(lib: Library, v: string): Option<bool> {
    if v == "" then Some(false) else ParseBool(lib, v)
  }

  /** An optional number of at least `least`: absent means zero. */
  function NumberField(lib: Library, v: string, least: int): Option<int> {
    if v == "" then Some(0)
    else if lib.atoi(v).None? || lib.atoi(v).value < least then None
    else lib.atoi(v)
  }

  // --------------------------------------------------------------------- parsing

  /** What a request must be like. */
  predicate Accepts(lib: Library, raw: Raw) {
    && AcceptsRepo(lib, Field(lib, raw, "repo"))
    && AcceptsRevision(Field(lib, raw, "revision"))
    && NormalizeRepoPath(Field(lib, raw, "path")).Ok?
    && NumberField(lib, Field(lib, raw, "depth"), 1).Some?
    && FlagField(lib, Field(lib, raw, "submodules")).Some?
    && FlagField(lib, Field(lib, raw, "lfs")).Some?
    && NumberField(lib, Field(lib, raw, "refreshSeconds"), 0).Some?
  }

  /** What an accepted request asks for. */
  function Asked(lib: Library, raw: Raw): Attributes
    requires Accepts(lib, raw)
  {
    Attributes(
      Field(lib, raw, "repo"), Field(lib, raw, "revision"), Field(lib, raw, "revisionKind"),
      NormalizeRepoPath(Field(lib, raw, "path")).value,
      NumberField(lib, Field(lib, raw, "depth"), 1).value,
      FlagField(lib, Field(lib, raw, "submodules")).value,
      FlagField(lib, Field(lib, raw, "lfs")).value,
      Field(lib, raw, "policy"), Field(lib, raw, "credentialProfile"),
      NumberField(lib, Field(lib, raw, "refreshSeconds"), 0).value)
  }

  function Parsed(lib: Library, raw: Raw): Result<Attributes> {
    if Accepts(lib, raw) then Ok(Asked(lib, raw)) else Err
  }

  /** `Parse`: field by field, the first bad one ends it. The two emptiness tests are implied by the
      tests that follow them. */
  method Parse(lib: Library, raw: Raw) returns (r: Result<Attributes>)
    ensures r == Parsed(lib, raw)
    ensures r.Ok? ==>
              && r.value.repo == lib.trimSpace(if "repo" in raw then raw["repo"] else "")
              && r.value.revision == lib.trimSpace(if "revision" in raw then raw["revision"] else "")
              && r.value.revisionKind == lib.trimSpace(if "revisionKind" in raw then raw["revisionKind"] else "")
              && r.value.policy == lib.trimSpace(if "policy" in raw then raw["policy"] else "")
              && r.value.credentialProfile
                 == lib.trimSpace(if "credentialProfile" in raw then raw["credentialProfile"] else "")
  {
    EmptyRefused(lib);
    if Parsed(lib, raw).Ok? { ParsedTexts(lib, raw); }
    var out := Attributes("", "", "", "", 0, false, false, "", "", 0);
    out := out.(repo := lib.trimSpace(Get(raw, "repo")));
    out := out.(revision := lib.trimSpace(Get(raw, "revision")));
    out := out.(revisionKind := lib.trimSpace(Get(raw, "revisionKind")));
    out := out.(path := lib.trimSpace(Get(raw, "path")));
    out := out.(policy := lib.trimSpace(Get(raw, "policy")));
    out := out.(credentialProfile := lib.trimSpace(Get(raw, "credentialProfile")));
    if out.repo == "" { return Err; }
    if out.revision == "" { return Err; }
    if !AcceptsRepo(lib, out.repo) { return Err; }
    if !AcceptsRevision(out.revision) { return Err; }
    var normalizedPath := NormalizeRepoPath(out.path);
    if normalizedPath.Err? { return Err; }
    out := out.(path := normalizedPath.value);
    r := ParseOptions(lib, raw, out);
  }

  /** The optional numbers and flags, over the attributes read so far. */
  method ParseOptions(lib: Library, raw: Raw, attrs: Attributes) returns (r: Result<Attributes>)
    requires attrs.depth == 0 && !attrs.submodules && !attrs.lfs && attrs.refreshSeconds == 0
    ensures var depth := NumberField(lib, Field(lib, raw, "depth"), 1);
            var submodules := FlagField(lib, Field(lib, raw, "submodules"));
            var lfs := FlagField(lib, Field(lib, raw, "lfs"));
            var refresh := NumberField(lib, Field(lib, raw, "refreshSeconds"), 0);
            r == if depth.Some? && submodules.Some? && lfs.Some? && refresh.Some?
                 then Ok(attrs.(depth := depth.value, submodules := submodules.value, lfs := lfs.value,
                                refreshSeconds := refresh.value))
                 else Err
  {
    var out := attrs;
    var depthRaw := lib.trimSpace(Get(raw, "depth"));
    if depthRaw != "" {
      var n := lib.atoi(depthRaw);
      if n.None? || n.value <= 0 { return Err; }
      out := out.(depth := n.value);
    }
    var submodulesRaw := lib.trimSpace(Get(raw, "submodules"));
    if submodulesRaw != "" {
      var b := ParseBool(lib, submodulesRaw);
      if b.None? { return Err; }
      out := out.(submodules := b.value);
    }
    var lfsRaw := lib.trimSpace(Get(raw, "lfs"));
    if lfsRaw != "" {
      var b := ParseBool(lib, lfsRaw);
      if b.None? { return Err; }
      out := out.(lfs := b.value);
    }
    var refreshRaw := lib.trimSpace(Get(raw, "refreshSeconds"));
    if refreshRaw != "" {
      var n := lib.atoi(refreshRaw);
      if n.None? || n.value < 0 { return Err; }
      out := out.(refreshSeconds := n.value);
    }
    r := Ok(out);
  }

  lemma EmptyRefused(lib: Library)
    ensures !AcceptsRepo(lib, "") && !AcceptsRevision("")
  {
    if AcceptsRepo(lib, "") { AcceptedRepoShape(lib, ""); }
    if AcceptsRevision("") { AcceptedShape(""); }
  }

  /** Which repositories are accepted: no white space, not an option or a path, and either a URL with a host
      and one of three schemes, or a user, a host and a path around the first at sign and the first
      colon after it. */
  lemma RepoMeaning(lib: Library, repo: string)
    ensures AcceptsRepo(lib, repo) <==>
            && ' ' !in repo && '\t' !in repo && '\r' !in repo && '\n' !in repo
            && !HasPrefix(repo, "-") && !HasPrefix(repo, "/") && !HasPrefix(repo, "./") && !HasPrefix(repo, "../")
            && !HasPrefix(repo, "file://")
            && if Contains(repo, "://") then
                 match lib.parseUrl(repo)
                 case None => false
                 case Some(Url(scheme, hostname)) =>
                   hostname != "" && (scheme == "http" || scheme == "https" || scheme == "ssh")
               else SplitsAtSign(repo)
  {
    if !Contains(repo, "://") { ScpSplits(repo); }
  }

  /** A nonempty user, host and path around an at sign and a colon. */
  ghost predicate SplitsAtSign(repo: string) {
    exists user: string, host: string, path: string :: SplitsInto(repo, user, host, path)
  }

  predicate SplitsInto(repo: string, user: string, host: string, path: string) {
    && user != "" && host != "" && path != "" && '@' !in user && ':' !in host
    && repo == user + "@" + host + ":" + path
  }

  lemma ScpSplits(repo: string)
    ensures ScpLike(repo) <==> SplitsAtSign(repo)
  {
    if ScpLike(repo) { SplitScp(repo); }
    if SplitsAtSign(repo) {
      var user: string, host: string, path: string :| SplitsInto(repo, user, host, path);
      ScpMeaning(repo, user, host, path);
    }
  }

  lemma SplitScp(repo: string)
    requires ScpLike(repo)
    ensures SplitsAtSign(repo)
  {
    var user, after := CutAt(repo, '@');
    var host, path := CutAt(after, ':');
    JoinThree(user, host, path, after, repo);
    assert SplitsInto(repo, user, host, path);
  }

  /** Cutting a string at the first place of a character. */
  lemma CutAt(s: string, c: char) returns (before: string, after: string)
    requires Index(s, c) != -1
    ensures s == before + [c] + after && c !in before
    ensures before == s[..Index(s, c)] && after == s[Index(s, c) + 1..]
  {
    var i := Index(s, c);
    before, after := s[..i], s[i + 1..];
  }

  lemma JoinThree(user: string, host: string, path: string, after: string, repo: string)
    requires after == host + ":" + path && repo == user + "@" + after
    ensures repo == user + "@" + host + ":" + path
  {
    assert user + "@" + (host + ":" + path) == user + "@" + host + ":" + path;
  }

  /** Whether a text is one of the words for a flag that is on, in any letter case. */
  predicate SaysYes(lib: Library, text: string) {
    var word := lib.toLower(lib.trimSpace(text)); word == "true" || word == "1" || word == "yes"
  }

  predicate SaysNo(lib: Library, text: string) {
    var word := lib.toLower(lib.trimSpace(text)); word == "false" || word == "0" || word == "no"
  }

  /** An optional number as it is read: absent, or a number of at least `least`. */
  predicate ReadsNumber(lib: Library, text: string, least: int) {
    text == "" || (lib.atoi(text).Some? && lib.atoi(text).value >= least)
  }

  /** What the parser reads of a key: its trimmed value, or of an absent key that of the empty text. */
  lemma FieldMeaning(lib: Library, raw: Raw, key: string)
    ensures Field(lib, raw, key) == if key in raw then lib.trimSpace(raw[key]) else lib.trimSpace("")
  {}

  /** What the options come to. */
  lemma OptionMeaning(lib: Library, text: string, least: int)
    ensures NumberField(lib, text, least).Some? <==> ReadsNumber(lib, text, least)
    ensures NumberField(lib, text, least).Some? ==>
              if text == "" then NumberField(lib, text, least) == Some(0)
              else NumberField(lib, text, least) == lib.atoi(text)
    ensures FlagField(lib, text).Some? <==> text == "" || SaysYes(lib, text) || SaysNo(lib, text)
    ensures FlagField(lib, text) == Some(true) <==> text != "" && SaysYes(lib, text)
  {}

  /** Which requests are parsed: repository, revision and sub-path are accepted, and each option is
      absent or reads as what it is to be. */
  lemma AcceptedRequest(lib: Library, raw: Raw)
    ensures var submodules, lfs := Field(lib, raw, "submodules"), Field(lib, raw, "lfs");
            Parsed(lib, raw).Ok? <==>
              && AcceptsRepo(lib, Field(lib, raw, "repo")) && AcceptsRevision(Field(lib, raw, "revision"))
              && NormalizeRepoPath(Field(lib, raw, "path")).Ok?
              && ReadsNumber(lib, Field(lib, raw, "depth"), 1) && ReadsNumber(lib, Field(lib, raw, "refreshSeconds"), 0)
              && (submodules == "" || SaysYes(lib, submodules) || SaysNo(lib, submodules))
              && (lfs == "" || SaysYes(lib, lfs) || SaysNo(lib, lfs))
  {
    OptionMeaning(lib, Field(lib, raw, "depth"), 1);
    OptionMeaning(lib, Field(lib, raw, "refreshSeconds"), 0);
    OptionMeaning(lib, Field(lib, raw, "submodules"), 0);
    OptionMeaning(lib, Field(lib, raw, "lfs"), 0);
  }

  /** What a parsed request asks for: every text is that of its own key. */
  lemma ParsedTexts(lib: Library, raw: Raw)
    requires Parsed(lib, raw).Ok?
    ensures var attrs := Parsed(lib, raw).value;
            && attrs.repo == lib.trimSpace(if "repo" in raw then raw["repo"] else "")
            && attrs.revision == lib.trimSpace(if "revision" in raw then raw["revision"] else "")
            && attrs.revisionKind == lib.trimSpace(if "revisionKind" in raw then raw["revisionKind"] else "")
            && attrs.policy == lib.trimSpace(if "policy" in raw then raw["policy"] else "")
            && attrs.credentialProfile
               == lib.trimSpace(if "credentialProfile" in raw then raw["credentialProfile"] else "")
            && Ok(attrs.path) == NormalizeRepoPath(lib.trimSpace(if "path" in raw then raw["path"] else ""))
  {
    FieldMeaning(lib, raw, "repo");
    FieldMeaning(lib, raw, "revision");
  }

  /** And so is every option: numbers that are absent are zero, and flags are on for the words that say so. */
  lemma ParsedOptions(lib: Library, raw: Raw)
    requires Parsed(lib, raw).Ok?
    ensures var attrs := Parsed(lib, raw).value;
            var depth := lib.trimSpace(if "depth" in raw then raw["depth"] else "");
            var refresh := lib.trimSpace(if "refreshSeconds" in raw then raw["refreshSeconds"] else "");
            var submodules := lib.trimSpace(if "submodules" in raw then raw["submodules"] else "");
            var lfs := lib.trimSpace(if "lfs" in raw then raw["lfs"] else "");
            && (if depth == "" then attrs.depth == 0 else lib.atoi(depth) == Some(attrs.depth))
            && (if refresh == "" then attrs.refreshSeconds == 0 else lib.atoi(refresh) == Some(attrs.refreshSeconds))
            && (attrs.submodules <==> submodules != "" && SaysYes(lib, submodules))
            && (attrs.lfs <==> lfs != "" && SaysYes(lib, lfs))
  {
    OptionMeaning(lib, Field(lib, raw, "depth"), 1);
    OptionMeaning(lib, Field(lib, raw, "refreshSeconds"), 0);
    OptionMeaning(lib, Field(lib, raw, "submodules"), 0);
    OptionMeaning(lib, Field(lib, raw, "lfs"), 0);
  }

  /** What every parsed request is like: one-line repository and revision, neither looking like an
      option, a sub-path in normal form, and a depth that is zero or positive. */
  lemma ParsedShape(lib: Library, raw: Raw)
    requires Parsed(lib, raw).Ok?
    ensures var attrs := Parsed(lib, raw).value;
            && AcceptsRepo(lib, attrs.repo) && AcceptsRevision(attrs.revision)
            && '\n' !in attrs.repo && '\n' !in attrs.revision
            && !HasPrefix(attrs.repo, "-") && !HasPrefix(attrs.revision, "-")
            && (attrs.path == "" || NormalizeRepoPath(attrs.path) == Ok(attrs.path))
            && attrs.depth >= 0 && attrs.refreshSeconds >= 0
  {
    var attrs := Parsed(lib, raw).value;
    AcceptedRepoShape(lib, attrs.repo);
    AcceptedShape(attrs.revision);
    NormalizeIdempotent(Field(lib, raw, "path"));
  }

  /** The parser reads its ten keys and nothing else. */
  lemma ParseReads(lib: Library, raw: Raw, raw': Raw)
    requires forall k :: k in KEYS ==> Get(raw, k) == Get(raw', k)
    ensures Parsed(lib, raw) == Parsed(lib, raw')
  {
    SameFields(lib, raw, raw');
  }

  lemma SameFields(lib: Library, raw: Raw, raw': Raw)
    requires forall k :: k in KEYS ==> Get(raw, k) == Get(raw', k)
    ensures Field(lib, raw, "repo") == Field(lib, raw', "repo")
    ensures Field(lib, raw, "revision") == Field(lib, raw', "revision")
    ensures Field(lib, raw, "revisionKind") == Field(lib, raw', "revisionKind")
    ensures Field(lib, raw, "path") == Field(lib, raw', "path")
    ensures Field(lib, raw, "policy") == Field(lib, raw', "policy")
    ensures Field(lib, raw, "credentialProfile") == Field(lib, raw', "credentialProfile")
    ensures Field(lib, raw, "depth") == Field(lib, raw', "depth")
    ensures Field(lib, raw, "submodules") == Field(lib, raw', "submodules")
    ensures Field(lib, raw, "lfs") == Field(lib, raw', "lfs")
    ensures Field(lib, raw, "refreshSeconds") == Field(lib, raw', "refreshSeconds")
  {
    forall i | 0 <= i < |KEYS| ensures Field(lib, raw, KEYS[i]) == Field(lib, raw', KEYS[i]) {
      assert KEYS[i] in KEYS;
    }
    assert KEYS[0] == "repo" && KEYS[1] == "revision" && KEYS[2] == "revisionKind" && KEYS[3] == "path";
    assert KEYS[4] == "policy" && KEYS[5] == "credentialProfile" && KEYS[6] == "depth";
    assert KEYS[7] == "submodules" && KEYS[8] == "lfs" && KEYS[9] == "refreshSeconds";
  }

  /** Adding keys that start with `csi.` changes nothing the parser reads. */
  lemma AddedContext(lib: Library, raw: Raw, added: Raw)
    requires forall k :: k in added ==> HasPrefix(k, "csi.")
    ensures Parsed(lib, raw + added) == Parsed(lib, raw)
  {
    forall k | k in KEYS ensures Get(raw + added, k) == Get(raw, k) {
      var i :| 0 <= i < |KEYS| && KEYS[i] == k;
      NotCsi(i);
    }
    ParseReads(lib, raw + added, raw);
  }

  lemma NotCsi(i: nat)
    requires i < |KEYS|
    ensures !HasPrefix(KEYS[i], "csi.")
  {
    assert "csi."[0] == 'c' && "csi."[1] == 's';
    assert KEYS[5][1] == 'r';
    assert i != 5 ==> KEYS[i][0] != 'c';
  }
}
