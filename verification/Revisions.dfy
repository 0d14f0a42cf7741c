/** Revisions: which ones are accepted, how each layer classifies them, and what Git is asked for. */
module Revisions {
  import opened Wrappers
  import opened Text

  predicate HexDigit(c: char) { '0' <= c <= '9' || 'a' <= c <= 'f' }

  /** A full commit hash. */
  predicate IsCommit(rev: string) {
    |rev| == 40 && forall i :: 0 <= i < |rev| ==> HexDigit(rev[i])
  }

  lemma CommitMeaning(rev: string)
    ensures IsCommit(rev) <==> |rev| == 40 && forall c :: c in rev ==> c in "0123456789abcdef"
  {
    if IsCommit(rev) {
      forall c | c in rev ensures c in "0123456789abcdef" {
        var i :| 0 <= i < |rev| && rev[i] == c;
        HexDigitMeaning(c);
      }
    }
    if |rev| == 40 && forall c :: c in rev ==> c in "0123456789abcdef" {
      forall i | 0 <= i < |rev| ensures HexDigit(rev[i]) {
        assert rev[i] in rev;
        HexDigitMeaning(rev[i]);
      }
    }
  }

  lemma HexDigitMeaning(c: char)
    ensures HexDigit(c) <==> c in "0123456789abcdef"
  {
    var all := "0123456789abcdef";
    if HexDigit(c) {
      var i := if c <= '9' then c as int - '0' as int else c as int - 'a' as int + 10;
      assert 0 <= i < 16 && all[i] == c;
    }
  }

  /** The loop of the parser and of the policy evaluator: length first. */
  method IsHexSHA(rev: string) returns (b: bool)
    ensures b <==> IsCommit(rev)
  {
    if |rev| != 40 { return false; }
    for i := 0 to |rev|
      invariant forall j :: 0 <= j < i ==> HexDigit(rev[j])
    {
      if !HexDigit(rev[i]) { return false; }
    }
    return true;
  }

  /** The materialiser's test: the digits by themselves. */
  method IsPinnedCommit(revision: string) returns (b: bool)
    ensures b <==> IsCommit(revision)
  {
    if |revision| != 40 { return false; }
    b := IsHex(revision);
  }

  method IsHex(v: string) returns (b: bool)
    ensures b <==> forall i :: 0 <= i < |v| ==> HexDigit(v[i])
  {
    for i := 0 to |v|
      invariant forall j :: 0 <= j < i ==> HexDigit(v[j])
    {
      if !HexDigit(v[i]) { return false; }
    }
    return true;
  }

  // ------------------------------------------------------------------ ref names

  /** `isSafeGitRefName`. */
  predicate IsSafeRefName(name: string) {
    && !(name == "" || HasPrefix(name, "-") || HasPrefix(name, "/") || HasSuffix(name, "/"))
    && !(Contains(name, "//") || Contains(name, "..") || Contains(name, "@{"))
    && !(ContainsAny(name, " ~^:?*[\\") || HasSuffix(name, ".") || HasSuffix(name, ".lock"))
    && forall i :: 0 <= i < |Split(name)| ==>
         var part := Split(name)[i];
         !(part == "" || part == "." || part == ".." || HasPrefix(part, ".") || HasSuffix(part, ".lock"))
  }

  /** A part between slashes that a reference name may have. */
  predicate IsRefPart(part: string) {
    part != "" && part[0] != '.' && !HasSuffix(part, ".lock")
  }

  /** A string is its last part, after nothing or something that ends in a slash. */
  lemma {:induction false} LastPart(s: string) returns (before: string)
    ensures s == before + Split(s)[|Split(s)| - 1]
    ensures before == "" <==> |Split(s)| == 1
    ensures before != "" ==> before[|before| - 1] == '/'
    decreases |s|
  {
    if s == "" {
      before := "";
    } else {
      var ahead := LastPart(s[1..]);
      assert s == [s[0]] + s[1..];
      before := if s[0] == '/' || ahead != "" then [s[0]] + ahead else "";
    }
  }

  /** A name ends in a slash-free suffix exactly when its last part does. */
  lemma SuffixOfLast(s: string, suffix: string)
    requires suffix != "" && '/' !in suffix
    ensures HasSuffix(s, suffix) <==> HasSuffix(Split(s)[|Split(s)| - 1], suffix)
  {
    var before := LastPart(s);
    SuffixAfter(before, Split(s)[|Split(s)| - 1], suffix);
  }

  lemma SuffixAfter(before: string, last: string, suffix: string)
    requires '/' !in suffix && (before != "" ==> before[|before| - 1] == '/')
    ensures HasSuffix(before + last, suffix) <==> HasSuffix(last, suffix)
  {
    var s := before + last;
    if |last| < |suffix| <= |s| {
      var from := |s| - |suffix|;
      assert s[from..][|before| - 1 - from] == s[|before| - 1] == '/';
    } else if |suffix| <= |last| {
      assert s[|s| - |suffix|..] == last[|last| - |suffix|..];
    }
  }

  /** An empty part shows as a slash at an end or a doubled slash. */
  lemma EmptyParts(s: string)
    requires s == "" || HasPrefix(s, "/") || HasSuffix(s, "/") || Contains(s, "//")
    ensures "" in Split(s)
  {
    if s == "" || HasPrefix(s, "/") {
      FirstPart(s, "");
      assert s == "" || HasPrefix(s, "" + "/");
    } else if HasSuffix(s, "/") {
      assert s == s[..|s| - 1] + "/" + "";
      SplitConcat(s[..|s| - 1], "");
      assert "" in Split("");
    } else {
      var i :| 0 <= i <= |s| && OccursAt(s, "//", i);
      var a, b := s[..i], s[i + 2..];
      assert s[i] == '/' && s[i + 1] == '/' by { assert s[i] == s[i..i + 2][0] && s[i + 1] == s[i..i + 2][1]; }
      assert s == a + "/" + ("" + "/" + b);
      SplitConcat(a, "" + "/" + b);
      SplitConcat("", b);
      assert "" in Split("");
    }
  }

  /** Half of the name tests are implied by the others: what is left is a plain grammar. */
  lemma RefNameMeaning(name: string)
    ensures IsSafeRefName(name) <==>
            && (forall i :: 0 <= i < |Split(name)| ==> IsRefPart(Split(name)[i]))
            && name != "" && name[0] != '-' && !Contains(name, "..") && !Contains(name, "@{")
            && !ContainsAny(name, " ~^:?*[\\") && name[|name| - 1] != '.'
  {
    if name == "" {
      assert Split(name) == [""] && !IsRefPart(Split(name)[0]);
    } else {
      SuffixOfLast(name, ".lock");
      assert HasPrefix(name, "-") <==> name[0] == '-';
      assert HasSuffix(name, ".") <==> name[|name| - 1] == '.';
      forall part: string ensures part != "" ==> (HasPrefix(part, ".") <==> part[0] == '.') {}
      if name == "" || HasPrefix(name, "/") || HasSuffix(name, "/") || Contains(name, "//") {
        EmptyParts(name);
        var i :| 0 <= i < |Split(name)| && Split(name)[i] == "";
        assert !IsRefPart(Split(name)[i]);
      }
    }
  }

  // ----------------------------------------------------------------- acceptance

  /** The prefixes that say what a revision is. */
  const KNOWN_PREFIXES: seq<string> := ["refs/heads/", "refs/tags/", "branch:", "tag:"]

  /** The loop over the known prefixes: the first that matches is stripped. */
  function StripFirst(rev: string, prefixes: seq<string>): string {
    if prefixes == [] then rev
    else if HasPrefix(rev, prefixes[0]) then TrimPrefix(rev, prefixes[0])
    else StripFirst(rev, prefixes[1..])
  }

  function RefName(rev: string): string { StripFirst(rev, KNOWN_PREFIXES) }

  /** `validateRevision`. */
  predicate AcceptsRevision(rev: string) {
    && !ContainsAny(rev, " \t\r\n\0")
    && !HasPrefix(rev, "-")
    && (IsCommit(rev) || IsSafeRefName(RefName(rev)))
  }

  /** Acceptance, spelled out: no white space or control character, no leading dash, and forty hex digits
      or a name, after at most one known prefix, of parts that are not empty, start with no dot and do
      not end in `.lock`. */
  lemma RevisionMeaning(rev: string)
    ensures AcceptsRevision(rev) <==>
            && ' ' !in rev && '\t' !in rev && '\r' !in rev && '\n' !in rev && '\0' !in rev
            && !HasPrefix(rev, "-")
            && ((|rev| == 40 && forall c :: c in rev ==> c in "0123456789abcdef") || NamesRef(BareName(rev)))
  {
    CommitMeaning(rev);
    StripMeaning(rev);
    NamesRefMeaning(RefName(rev));
    NoSpace(rev);
  }

  lemma NoSpace(rev: string)
    ensures ContainsAny(rev, " \t\r\n\0") <==>
            ' ' in rev || '\t' in rev || '\r' in rev || '\n' in rev || '\0' in rev
  {
    CharsAmong(rev, " \t\r\n\0");
    if c :| c in rev && c in " \t\r\n\0" {
      assert c == ' ' || c == '\t' || c == '\r' || c == '\n' || c == '\0';
    }
  }

  lemma CharsAmong(s: string, chars: string)
    ensures ContainsAny(s, chars) <==> exists c :: c in s && c in chars
  {}

  lemma NamesRefMeaning(name: string)
    ensures IsSafeRefName(name) <==> NamesRef(name)
  {
    RefNameMeaning(name);
    CharsAmong(name, " ~^:?*[\\");
    forall i | 0 <= i < |Split(name)|
      ensures IsRefPart(Split(name)[i]) <==>
              var part := Split(name)[i]; part != "" && part[0] != '.' && !HasSuffix(part, ".lock")
    {}
  }

  /** What is left of a revision without its known prefix. */
  function BareName(rev: string): string {
    if HasPrefix(rev, "refs/heads/") then rev[11..]
    else if HasPrefix(rev, "refs/tags/") then rev[10..]
    else if HasPrefix(rev, "branch:") then rev[7..]
    else if HasPrefix(rev, "tag:") then rev[4..]
    else rev
  }

  /** The grammar of reference names. */
  predicate NamesRef(name: string) {
    && (forall i :: 0 <= i < |Split(name)| ==>
          var part := Split(name)[i]; part != "" && part[0] != '.' && !HasSuffix(part, ".lock"))
    && name != "" && name[0] != '-' && name[|name| - 1] != '.' && !Contains(name, "..") && !Contains(name, "@{")
    && forall c :: c in name ==> c !in " ~^:?*[\\"
  }

  predicate SaysTag(rev: string) { HasPrefix(rev, "refs/tags/") || HasPrefix(rev, "tag:") }

  predicate SaysBranch(rev: string) { HasPrefix(rev, "refs/heads/") || HasPrefix(rev, "branch:") }

  /** A revision starts with at most one known prefix, and a commit hash with none. */
  lemma PrefixesApart(rev: string)
    ensures !(SaysTag(rev) && SaysBranch(rev))
    ensures !(HasPrefix(rev, "refs/tags/") && HasPrefix(rev, "tag:"))
    ensures !(HasPrefix(rev, "refs/heads/") && HasPrefix(rev, "branch:"))
    ensures IsCommit(rev) ==> !SaysTag(rev) && !SaysBranch(rev)
  {
    assert HasPrefix(rev, "refs/tags/") ==> rev[0] == 'r' && rev[5] == 't';
    assert HasPrefix(rev, "refs/heads/") ==> rev[0] == 'r' && rev[5] == 'h';
    assert HasPrefix(rev, "tag:") ==> rev[0] == 't';
    assert HasPrefix(rev, "branch:") ==> rev[0] == 'b' && rev[1] == 'r';
    assert IsCommit(rev) ==> HexDigit(rev[0]) && HexDigit(rev[1]);
  }

  lemma StripMeaning(rev: string)
    ensures RefName(rev) == if HasPrefix(rev, "refs/heads/") then rev[11..]
                            else if HasPrefix(rev, "refs/tags/") then rev[10..]
                            else if HasPrefix(rev, "branch:") then rev[7..]
                            else if HasPrefix(rev, "tag:") then rev[4..]
                            else rev
  {
    assert KNOWN_PREFIXES[1..] == ["refs/tags/", "branch:", "tag:"];
    assert KNOWN_PREFIXES[1..][1..] == ["branch:", "tag:"];
    assert KNOWN_PREFIXES[1..][1..][1..] == ["tag:"];
    assert KNOWN_PREFIXES[1..][1..][1..][1..] == [];
    assert StripFirst(rev, []) == rev;
    assert StripFirst(rev, ["tag:"]) == if HasPrefix(rev, "tag:") then rev[4..] else rev;
    assert StripFirst(rev, ["branch:", "tag:"]) ==
           if HasPrefix(rev, "branch:") then rev[7..] else StripFirst(rev, ["tag:"]);
    assert StripFirst(rev, ["refs/tags/", "branch:", "tag:"]) ==
           if HasPrefix(rev, "refs/tags/") then rev[10..] else StripFirst(rev, ["branch:", "tag:"]);
  }

  /** What every accepted revision is: one line, not an option, and naming something. */
  lemma AcceptedShape(rev: string)
    requires AcceptsRevision(rev)
    ensures rev != "" && '\n' !in rev && rev[0] != '-'
    ensures RefName(rev) != "" && RefName(rev)[0] != '-' && ':' !in RefName(rev)
  {
    StripMeaning(rev);
    PrefixesApart(rev);
    forall i | 0 <= i < |rev| ensures rev[i] != '\n' { assert rev[i] !in " \t\r\n\0"; }
    if IsCommit(rev) {
      assert RefName(rev) == rev;
      assert HasPrefix(rev, "-") <==> rev[0] == '-';
      forall i | 0 <= i < |rev| ensures rev[i] != ':' { assert HexDigit(rev[i]); }
    } else {
      var name := RefName(rev);
      RefNameMeaning(name);
      forall i | 0 <= i < |name| ensures name[i] != ':' { assert name[i] !in " ~^:?*[\\"; }
      assert HasPrefix(rev, "-") <==> rev != "" && rev[0] == '-';
    }
  }

  // -------------------------------------------------------------- classification

  datatype Class = Commit | Tag | Branch

  function ClassOf(rev: string): Class {
    if IsCommit(rev) then Commit else if SaysTag(rev) then Tag else Branch
  }

  /** The policy's test for a branch. */
  predicate IsBranchRevision(rev: string) { SaysBranch(rev) || (!IsCommit(rev) && !SaysTag(rev)) }

  /** The class of a revision by its spelling: forty hex digits, a tag's prefix, or anything else. */
  lemma ClassMeaning(rev: string)
    ensures match ClassOf(rev)
            case Commit => |rev| == 40 && forall c :: c in rev ==> c in "0123456789abcdef"
            case Tag => HasPrefix(rev, "refs/tags/") || HasPrefix(rev, "tag:")
            case Branch =>
              && !(|rev| == 40 && forall c :: c in rev ==> c in "0123456789abcdef")
              && !HasPrefix(rev, "refs/tags/") && !HasPrefix(rev, "tag:")
    ensures SaysBranch(rev) <==> HasPrefix(rev, "refs/heads/") || HasPrefix(rev, "branch:")
  {
    CommitMeaning(rev);
  }

  /** The policy's three tests single out exactly one class, for every string. */
  lemma ExactlyOneClass(rev: string)
    ensures IsCommit(rev) <==> ClassOf(rev) == Commit
    ensures SaysTag(rev) <==> ClassOf(rev) == Tag
    ensures IsBranchRevision(rev) <==> ClassOf(rev) == Branch
  {
    PrefixesApart(rev);
  }

  // ------------------------------------------------------------------ mutable refs

  /** `mutableRef`. */
  function MutableRef(kind: string, rev: string): string {
    if kind == "tag" then TrimPrefix(TrimPrefix(rev, "refs/tags/"), "tag:")
    else if kind == "branch" then TrimPrefix(TrimPrefix(rev, "refs/heads/"), "branch:")
    else if HasPrefix(rev, "refs/tags/") then TrimPrefix(rev, "refs/tags/")
    else if HasPrefix(rev, "refs/heads/") then TrimPrefix(rev, "refs/heads/")
    else if HasPrefix(rev, "tag:") then TrimPrefix(rev, "tag:")
    else if HasPrefix(rev, "branch:") then TrimPrefix(rev, "branch:")
    else if IsCommit(rev) then ""
    else rev
  }

  /** For every accepted revision and every kind, the mutable ref is the revision itself or what is
      left after its one known prefix; it is empty only for a commit, and never looks like an
      option. */
  lemma MutableRefMeaning(kind: string, rev: string)
    requires AcceptsRevision(rev)
    ensures var ref := MutableRef(kind, rev);
            && (ref == "" || ref == rev || ref == RefName(rev))
            && (ref == "" ==> IsCommit(rev))
            && !HasPrefix(ref, "-")
            && (kind != "tag" && kind != "branch" ==> ref == if IsCommit(rev) then "" else RefName(rev))
            && (kind == "tag" ==> ref == if SaysTag(rev) then RefName(rev) else rev)
            && (kind == "branch" ==> ref == if SaysBranch(rev) then RefName(rev) else rev)
  {
    AcceptedShape(rev);
    StripMeaning(rev);
    PrefixesApart(rev);
    NoSecondPrefix(RefName(rev), "tag:");
    NoSecondPrefix(RefName(rev), "branch:");
    Dash(RefName(rev));
  }

  lemma NoSecondPrefix(name: string, prefix: string)
    requires ':' !in name && ':' in prefix
    ensures !HasPrefix(name, prefix)
  {
    CharsOfPrefix(name, prefix);
  }

  lemma CharsOfPrefix(s: string, prefix: string)
    ensures HasPrefix(s, prefix) ==> forall c :: c in prefix ==> c in s
  {
    if HasPrefix(s, prefix) {
      forall c | c in prefix ensures c in s {
        var i :| 0 <= i < |prefix| && prefix[i] == c;
        assert s[i] == c;
      }
    }
  }

  lemma Dash(s: string)
    ensures HasPrefix(s, "-") <==> s != "" && s[0] == '-'
    ensures HasPrefix(s, "--") ==> HasPrefix(s, "-")
  {
    if HasPrefix(s, "--") { assert s[0] == "--"[0]; }
  }

  /** `strings.EqualFold(ref, "HEAD")`. */
  predicate FoldsToHead(ref: string) {
    |ref| == 4 && ref[0] in "Hh" && ref[1] in "Ee" && ref[2] in "Aa" && ref[3] in "Dd"
  }

  /** `HEAD`, letter by letter in either case. */
  lemma HeadMeaning(ref: string)
    ensures FoldsToHead(ref) <==>
            |ref| == 4 && forall i :: 0 <= i < 4 ==> ref[i] == "HEAD"[i] || ref[i] == "head"[i]
  {}

  /** The reference the in-memory clone is limited to. */
  datatype RefChoice = DefaultHead | TagRef(name: string) | BranchRef(name: string)

  function ChooseRef(kind: string, rev: string): RefChoice {
    var ref := MutableRef(kind, rev);
    if ref != "" && !FoldsToHead(ref) then
      if Contains(kind, "tag") || HasPrefix(rev, "refs/tags/") || HasPrefix(rev, "tag:") then TagRef(ref)
      else BranchRef(ref)
    else DefaultHead
  }

  /** Where the commit comes from: the hash itself, or the head of what was cloned. */
  datatype Resolution = Pinned(hash: string) | HeadOf(choice: RefChoice)

  function ResolveHash(kind: string, rev: string): Resolution {
    if IsCommit(rev) then Pinned(rev) else HeadOf(ChooseRef(kind, rev))
  }

  function ResolvedClass(r: Resolution): Class {
    match r
    case Pinned(_) => Commit
    case HeadOf(TagRef(_)) => Tag
    case HeadOf(_) => Branch
  }

  /** Whether the kind names the class the revision has. */
  predicate KindMatches(kind: string, rev: string) {
    kind == "" || (kind == "tag" && ClassOf(rev) == Tag) || (kind == "branch" && ClassOf(rev) == Branch)
  }

  /** The policy and the in-memory backend agree on the class of an accepted revision exactly when
      a tag is not called HEAD, and a branch does not come with a kind that mentions tags. */
  lemma ClassAgreement(kind: string, rev: string)
    requires AcceptsRevision(rev)
    ensures ResolvedClass(ResolveHash(kind, rev)) == ClassOf(rev) <==>
            match ClassOf(rev)
            case Commit => true
            case Tag => !FoldsToHead(MutableRef(kind, rev))
            case Branch => !Contains(kind, "tag") || FoldsToHead(MutableRef(kind, rev))
  {
    MutableRefMeaning(kind, rev);
  }

  /** With no kind, or the kind of its class, an accepted revision resolves to itself when it is a
      commit and otherwise to the ref of its class and name; a tag or a branch called HEAD, in any
      letter case, gives the default branch. */
  lemma MatchingKindResolves(kind: string, rev: string)
    requires AcceptsRevision(rev) && KindMatches(kind, rev)
    ensures ResolveHash(kind, rev) ==
            if ClassOf(rev) == Commit then Pinned(rev)
            else if FoldsToHead(RefName(rev)) then HeadOf(DefaultHead)
            else if ClassOf(rev) == Tag then HeadOf(TagRef(RefName(rev)))
            else HeadOf(BranchRef(RefName(rev)))
  {
    AcceptedShape(rev);
    MutableRefMeaning(kind, rev);
    StripMeaning(rev);
    NotTagIn(kind);
  }

  lemma NotTagIn(kind: string)
    requires kind == "" || kind == "branch" || kind == "tag"
    ensures Contains(kind, "tag") <==> kind == "tag"
  {
    if i :| 0 <= i <= |kind| && OccursAt(kind, "tag", i) {
      assert kind[i] == kind[i..i + 3][0] == 't';
    }
    if kind == "tag" { assert OccursAt(kind, "tag", 0); }
  }

  /** A name of letters that is no commit hash. */
  predicate PlainName(name: string) {
    0 < |name| != 40 && forall i :: 0 <= i < |name| ==> 'A' <= name[i] <= 'Z' || 'a' <= name[i] <= 'z'
  }

  lemma LettersSafe(name: string)
    requires PlainName(name)
    ensures IsSafeRefName(name)
  {
    SplitNoSlash(name);
    RefNameMeaning(name);
    forall i | 0 <= i <= |name| ensures !OccursAt(name, "..", i) && !OccursAt(name, "@{", i) {
      if i + 2 <= |name| { assert name[i..i + 2][0] == name[i]; }
    }
    if 5 <= |name| { assert name[|name| - 5..][0] == name[|name| - 5]; }
  }

  /** A spelled tag of letters. */
  lemma TagSpelled(prefix: string, name: string)
    requires PlainName(name) && (prefix == "tag:" || prefix == "refs/tags/")
    ensures var rev := prefix + name;
            HasPrefix(rev, prefix) && rev[|prefix|..] == name && !HasPrefix(rev, "-") && !ContainsAny(rev, " \t\r\n\0")
  {
    var rev := prefix + name;
    assert rev[..|prefix|] == prefix && rev[|prefix|..] == name;
    Dash(rev);
    forall i | 0 <= i < |rev| ensures rev[i] !in " \t\r\n\0" {
      assert rev[i] == if i < |prefix| then prefix[i] else name[i - |prefix|];
    }
  }

  /** The classes do come apart on tags: one called HEAD, in either spelling, passes as a tag and mounts
      the default branch. */
  lemma HeadTag(prefix: string, name: string)
    requires FoldsToHead(name) && (prefix == "tag:" || prefix == "refs/tags/")
    ensures var rev := prefix + name;
            AcceptsRevision(rev) && ClassOf(rev) == Tag && ResolveHash("", rev) == HeadOf(DefaultHead)
  {
    TagSpelled(prefix, name);
    LettersSafe(name);
    HeadTagged(prefix, prefix + name, name);
  }

  lemma HeadTagged(prefix: string, rev: string, name: string)
    requires prefix == "tag:" || prefix == "refs/tags/"
    requires HasPrefix(rev, prefix) && rev[|prefix|..] == name && !HasPrefix(rev, "-") && !ContainsAny(rev, " \t\r\n\0")
    requires IsSafeRefName(name) && FoldsToHead(name)
    ensures AcceptsRevision(rev) && ClassOf(rev) == Tag && ResolveHash("", rev) == HeadOf(DefaultHead)
  {
    StripMeaning(rev);
    PrefixesApart(rev);
    MutableRefMeaning("", rev);
  }

  /** And on branches: a plain name passes as a branch, and the kind `tag` makes it a tag. */
  lemma PlainBranch(rev: string)
    requires PlainName(rev) && !FoldsToHead(rev)
    ensures AcceptsRevision(rev) && ClassOf(rev) == Branch
    ensures ResolveHash("tag", rev) == HeadOf(TagRef(rev)) && ResolveHash("branch", rev) == HeadOf(BranchRef(rev))
  {
    NoPrefix(rev);
    LettersSafe(rev);
    NotTagIn("tag");
    NotTagIn("branch");
    forall i | 0 <= i < |rev| ensures rev[i] !in " \t\r\n\0" {}
    Dash(rev);
  }

  lemma NoPrefix(rev: string)
    requires PlainName(rev)
    ensures !SaysTag(rev) && !SaysBranch(rev) && RefName(rev) == rev
  {
    StripMeaning(rev);
    CharsOfPrefix(rev, "tag:");
    CharsOfPrefix(rev, "branch:");
    CharsOfPrefix(rev, "refs/tags/");
    CharsOfPrefix(rev, "refs/heads/");
    assert ':' !in rev && '/' !in rev;
    assert "tag:"[3] == ':' && "branch:"[6] == ':' && "refs/tags/"[4] == '/' && "refs/heads/"[4] == '/';
  }

  // ---------------------------------------------------------- one key, several kinds

  /** Whether two kinds select the same for a revision. */
  predicate KindsAlike(kind: string, kind': string, rev: string) {
    var tagged, tagged' := Contains(kind, "tag"), Contains(kind', "tag");
    if IsCommit(rev) then true
    else if SaysTag(rev) then (kind == "branch") == (kind' == "branch")
    else if SaysBranch(rev) then (kind == "tag") == (kind' == "tag") && (tagged == tagged' || FoldsToHead(RefName(rev)))
    else tagged == tagged' || FoldsToHead(rev)
  }

  /** The kind is no part of a cache key, but it takes part in selecting the ref: two requests for one
      accepted revision resolve alike exactly when their kinds are alike for it. */
  lemma KindSelects(kind: string, kind': string, rev: string)
    requires AcceptsRevision(rev)
    ensures ResolveHash(kind, rev) == ResolveHash(kind', rev) <==> KindsAlike(kind, kind', rev)
  {
    if !IsCommit(rev) {
      Selects(kind, rev);
      Selects(kind', rev);
      AcceptedShape(rev);
      StripMeaning(rev);
    }
  }

  /** What a kind selects for a revision that is no commit. */
  lemma Selects(kind: string, rev: string)
    requires AcceptsRevision(rev) && !IsCommit(rev)
    ensures var name := RefName(rev);
            ChooseRef(kind, rev) ==
            if SaysTag(rev) then
              if kind == "branch" then TagRef(rev) else if FoldsToHead(name) then DefaultHead else TagRef(name)
            else if SaysBranch(rev) then
              if kind == "tag" then TagRef(rev)
              else if FoldsToHead(name) then DefaultHead
              else if Contains(kind, "tag") then TagRef(name) else BranchRef(name)
            else if FoldsToHead(rev) then DefaultHead
            else if Contains(kind, "tag") then TagRef(rev) else BranchRef(rev)
  {
    AcceptedShape(rev);
    MutableRefMeaning(kind, rev);
    PrefixesApart(rev);
    StripMeaning(rev);
    NotTagIn("tag");
    NotTagIn("branch");
  }

  // ----------------------------------------------------------- the git binary's operands

  /** `rejectGitFlagOperand`. */
  function RejectFlagOperand(arg: string): Check { if HasPrefix(arg, "--") then Fail else Pass }

  lemma FlagMeaning(arg: string)
    ensures RejectFlagOperand(arg).Fail? <==> |arg| >= 2 && arg[0] == '-' && arg[1] == '-'
  {
    if HasPrefix(arg, "--") { assert arg[0] == "--"[0] && arg[1] == "--"[1]; }
    if |arg| >= 2 && arg[0] == '-' && arg[1] == '-' { assert arg[..2] == "--"; }
  }

  /** The arguments of `git clone`. */
  function CloneArgs(repo: string, kind: string, rev: string, depth: string, repoDir: string): Result<seq<string>> {
    if IsCommit(rev) then
      if RejectFlagOperand(repo).Fail? then Err
      else Ok(["clone", "--no-checkout", "--depth", depth, "--", repo, repoDir])
    else
      var branchOrTag := MutableRef(kind, rev);
      if RejectFlagOperand(repo).Fail? then Err
      else if branchOrTag != "" && RejectFlagOperand(branchOrTag).Fail? then Err
      else Ok(["clone", "--depth", depth] + (if branchOrTag != "" then ["--branch", branchOrTag] else [])
              + ["--", repo, repoDir])
  }

  /** The arguments of `git fetch`; nothing to do for an empty ref. */
  function FetchArgs(kind: string, rev: string, depth: string): Result<seq<string>> {
    var branchOrTag := MutableRef(kind, rev);
    if branchOrTag == "" then Ok([])
    else if RejectFlagOperand(branchOrTag).Fail? then Err
    else Ok(["fetch", "--prune", "--depth", depth] + (if Contains(kind, "tag") then ["--tags"] else [])
            + ["origin", branchOrTag])
  }

  /** What `checkoutRevision` asks Git to resolve. */
  function CheckoutOperand(kind: string, rev: string): Result<string> {
    if IsCommit(rev) then Ok(rev)
    else
      var ref := if MutableRef(kind, rev) == "" then rev else MutableRef(kind, rev);
      if RejectFlagOperand(ref).Fail? then Err else Ok(ref)
  }

  /** For what the parser accepts, no operand check ever fires: clone and fetch always name the
      mutable ref, and checkout resolves it, or the commit itself. */
  lemma OperandChecksRedundant(repo: string, kind: string, rev: string, depth: string, repoDir: string)
    requires AcceptsRevision(rev) && !HasPrefix(repo, "-")
    ensures var ref := MutableRef(kind, rev);
            && CloneArgs(repo, kind, rev, depth, repoDir) ==
               Ok(if IsCommit(rev) then ["clone", "--no-checkout", "--depth", depth, "--", repo, repoDir]
                  else ["clone", "--depth", depth, "--branch", ref, "--", repo, repoDir])
            && FetchArgs(kind, rev, depth) ==
               Ok(if ref == "" then []
                  else if Contains(kind, "tag") then ["fetch", "--prune", "--depth", depth, "--tags", "origin", ref]
                  else ["fetch", "--prune", "--depth", depth, "origin", ref])
            && CheckoutOperand(kind, rev) == Ok(if IsCommit(rev) then rev else ref)
  {
    MutableRefMeaning(kind, rev);
    var ref := MutableRef(kind, rev);
    NotFlag(repo);
    NotFlag(ref);
    NotFlag(rev);
    ArgsJoined(depth, ref, repo, repoDir);
  }

  lemma ArgsJoined(depth: string, ref: string, repo: string, repoDir: string)
    ensures ["clone", "--depth", depth] + ["--branch", ref] + ["--", repo, repoDir]
            == ["clone", "--depth", depth, "--branch", ref, "--", repo, repoDir]
    ensures ["fetch", "--prune", "--depth", depth] + ["--tags"] + ["origin", ref]
            == ["fetch", "--prune", "--depth", depth, "--tags", "origin", ref]
    ensures ["fetch", "--prune", "--depth", depth] + [] + ["origin", ref]
            == ["fetch", "--prune", "--depth", depth, "origin", ref]
  {}

  /** `stringTrim`, over what Git prints: the longest prefix that does not end in a line end or a
      space. */
  method StringTrim(v: string) returns (r: string)
    ensures r <= v && (r == "" || r[|r| - 1] !in "\n\r ")
    ensures forall i :: |r| <= i < |v| ==> v[i] in "\n\r "
  {
    r := v;
    while |r| > 0 && (r[|r| - 1] == '\n' || r[|r| - 1] == '\r' || r[|r| - 1] == ' ')
      invariant r <= v && forall i :: |r| <= i < |v| ==> v[i] in "\n\r "
      decreases |r|
    {
      r := r[..|r| - 1];
    }
  }

  lemma NotFlag(arg: string)
    requires !HasPrefix(arg, "-")
    ensures RejectFlagOperand(arg) == Pass
  {
    Dash(arg);
  }
}
