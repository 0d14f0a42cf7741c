/** The lexical path algebra of Go's `path` and `path/filepath` on Unix: the operations every
    path check of the driver is written in. A path string is split on slashes and folded over
    a stack of names; `..` pops. */
module LexicalPath {
  import opened Wrappers
  import opened Text

  /** A location below `/`, as the names that lead to it. */
  type Path = seq<string>

  /** A component that names a directory entry: the kernel admits no other. */
  predicate IsName(c: string) {
    c != "" && c != "." && c != ".." && '/' !in c
  }

  predicate Names(p: Path) {
    forall i :: 0 <= i < |p| ==> IsName(p[i])
  }

  /** `p` is `root` or lies below it. */
  predicate Under(root: Path, p: Path) { root <= p }

  /** A path in normal form: how far it climbs first, then the names it descends through. */
  datatype Lex = Lex(rooted: bool, ups: nat, names: Path)

  predicate Normal(l: Lex) {
    (l.rooted ==> l.ups == 0) && Names(l.names)
  }

  /** One component of a lexical walk. */
  function Step(l: Lex, c: string): (r: Lex)
    requires '/' !in c
    ensures r.rooted == l.rooted
    ensures Normal(l) ==> Normal(r)
  {
    if c == "" || c == "." then l
    else if c != ".." then l.(names := l.names + [c])
    else if l.names != [] then l.(names := l.names[..|l.names| - 1])
    else if l.rooted then l
    else l.(ups := l.ups + 1)
  }

  /** The fold of `Step` over the components. */
  function Resolve(l: Lex, cs: seq<string>): (r: Lex)
    requires NoSlashes(cs)
    ensures r.rooted == l.rooted
    ensures Normal(l) ==> Normal(r)
    decreases |cs|
  {
    if cs == [] then l else Resolve(Step(l, cs[0]), cs[1..])
  }

  predicate IsAbs(s: string) { HasPrefix(s, "/") }

  function Parse(s: string): (l: Lex)
    ensures Normal(l) && l.rooted == IsAbs(s)
  {
    Resolve(Lex(IsAbs(s), 0, []), Split(s))
  }

  function Dots(n: nat): (ds: seq<string>)
    ensures |ds| == n && forall i :: 0 <= i < n ==> ds[i] == ".."
  {
    seq(n, _ => "..")
  }

  /** The components a normal form is printed with. */
  function Components(l: Lex): seq<string> { Dots(l.ups) + l.names }

  function Render(l: Lex): string {
    if l.rooted then (if l.names == [] then "/" else "/" + Slashed(l.names))
    else if Components(l) == [] then "."
    else Slashed(Components(l))
  }

  /** `filepath.Clean`. */
  function Clean(s: string): string { Render(Parse(s)) }

  /** `filepath.Join` of two elements. */
  function Join(a: string, b: string): string {
    if a == "" then (if b == "" then "" else Clean(b)) else Clean(a + "/" + b)
  }

  /** `filepath.Dir`: everything up to the last slash, cleaned. */
  function DirOf(s: string): string { Clean(UpToSlash(s)) }

  function UpToSlash(s: string): (r: string)
    ensures r <= s
    ensures r == "" || r[|r| - 1] == '/'
    ensures '/' !in s[|r|..]
  {
    if s == "" || s[|s| - 1] == '/' then s
    else
      var r := UpToSlash(s[..|s| - 1]);
      assert s[|r|..] == s[..|s| - 1][|r|..] + [s[|s| - 1]];
      r
  }

  function CommonPrefix(a: seq<string>, b: seq<string>): (k: nat)
    ensures k <= |a| && k <= |b| && a[..k] == b[..k]
    ensures k < |a| && k < |b| ==> a[k] != b[k]
  {
    if a == [] || b == [] || a[0] != b[0] then 0
    else
      var k := CommonPrefix(a[1..], b[1..]);
      assert a[..k + 1] == [a[0]] + a[1..][..k] && b[..k + 1] == [b[0]] + b[1..][..k];
      k + 1
  }

  /** `filepath.Rel`. */
  function Rel(base: string, targ: string): Result<string> {
    var b, t := Parse(base), Parse(targ);
    if b == t then Ok(".")
    else if b.rooted != t.rooted then Err
    else
      var bs, ts := Components(b), Components(t);
      var k := CommonPrefix(bs, ts);
      if ".." in bs[k..] then Err
      else if Dots(|bs| - k) + ts[k..] == [] then Ok(".")
      else Ok(Slashed(Dots(|bs| - k) + ts[k..]))
  }

  /** `filepath.IsLocal` on Unix. */
  predicate IsLocal(s: string) {
    if IsAbs(s) || s == "" then false
    else
      var q := if "." in Split(s) || ".." in Split(s) then Clean(s) else s;
      !(q == ".." || HasPrefix(q, "../"))
  }

  /** The canonical absolute spelling of a location. */
  function Abs(p: Path): string { Render(Lex(true, 0, p)) }

  /** The names of the location a path string denotes. */
  function Loc(s: string): (p: Path)
    ensures Names(p)
  {
    Parse(s).names
  }

  // ------------------------------------------------------------- fold properties

  lemma {:induction false} ResolveConcat(l: Lex, a: seq<string>, b: seq<string>)
    requires NoSlashes(a) && NoSlashes(b)
    ensures NoSlashes(a + b) && Resolve(l, a + b) == Resolve(Resolve(l, a), b)
    decreases |a|
  {
    if a == [] {
      assert a + b == b;
    } else {
      assert (a + b)[1..] == a[1..] + b;
      ResolveConcat(Step(l, a[0]), a[1..], b);
    }
  }

  lemma {:induction false} ResolveNames(l: Lex, ns: Path)
    requires Names(ns)
    ensures Resolve(l, ns) == l.(names := l.names + ns)
    decreases |ns|
  {
    if ns == [] {
      assert l.names + ns == l.names;
    } else {
      ResolveNames(Step(l, ns[0]), ns[1..]);
      assert l.names + [ns[0]] + ns[1..] == l.names + ns;
    }
  }

  lemma {:induction false} ResolveDots(l: Lex, n: nat)
    requires !l.rooted && l.names == []
    ensures Resolve(l, Dots(n)) == l.(ups := l.ups + n)
    decreases n
  {
    if n > 0 {
      assert Dots(n)[1..] == Dots(n - 1);
      ResolveDots(Step(l, ".."), n - 1);
    }
  }

  /** The printed form of a normal path parses back to it. */
  lemma ParseRender(l: Lex)
    requires Normal(l)
    ensures Parse(Render(l)) == l
  {
    var start := Lex(l.rooted, 0, []);
    if l.rooted {
      if l.names == [] {
        assert Split("/") == ["", ""] by { assert "/"[1..] == ""; }
        assert Resolve(start, ["", ""]) == Resolve(start, [""]);
      } else {
        var s := "/" + Slashed(l.names);
        assert s[1..] == Slashed(l.names);
        SplitSlashed(l.names);
        assert Split(s) == [""] + l.names;
        assert ([""] + l.names)[1..] == l.names;
        ResolveNames(start, l.names);
      }
    } else if Components(l) == [] {
      SplitNoSlash(".");
    } else {
      var cs := Components(l);
      SplitSlashed(cs);
      assert Slashed(cs)[0] != '/';
      ResolveConcat(start, Dots(l.ups), l.names);
      ResolveDots(start, l.ups);
      ResolveNames(start.(ups := l.ups), l.names);
    }
  }

  lemma CleanIdempotent(s: string)
    ensures Parse(Clean(s)) == Parse(s) && Clean(Clean(s)) == Clean(s)
  {
    ParseRender(Parse(s));
  }

  lemma AbsLoc(p: Path)
    requires Names(p)
    ensures Parse(Abs(p)) == Lex(true, 0, p) && IsAbs(Abs(p)) && Clean(Abs(p)) == Abs(p)
  {
    ParseRender(Lex(true, 0, p));
  }

  // ----------------------------------------------------------------- joining

  /** Where a relative normal form leads from a directory; `..` at `/` stays at `/`. */
  function From(stack: Path, l: Lex): Path {
    stack[..if l.ups <= |stack| then |stack| - l.ups else 0] + l.names
  }

  lemma {:induction false} ResolveFrom(stack: Path, l: Lex, cs: seq<string>)
    requires !l.rooted && NoSlashes(cs)
    ensures Resolve(Lex(true, 0, From(stack, l)), cs) == Lex(true, 0, From(stack, Resolve(l, cs)))
    decreases |cs|
  {
    if cs != [] {
      var c := cs[0];
      assert Step(Lex(true, 0, From(stack, l)), c) == Lex(true, 0, From(stack, Step(l, c)));
      ResolveFrom(stack, Step(l, c), cs[1..]);
    }
  }

  /** Cleaning keeps the meaning of a relative path: from every directory, walking its raw
      components leads where its normal form says. */
  lemma WalkMeaning(stack: Path, rel: string)
    requires !IsAbs(rel)
    ensures Resolve(Lex(true, 0, stack), Split(rel)) == Lex(true, 0, From(stack, Parse(rel)))
    ensures From(stack, Parse(Clean(rel))) == From(stack, Parse(rel))
  {
    var here := Lex(false, 0, []);
    assert From(stack, here) == stack;
    ResolveFrom(stack, here, Split(rel));
    CleanIdempotent(rel);
  }

  /** Joining a relative path to an absolute one walks from there. */
  lemma JoinMeaning(root: string, rel: string)
    requires IsAbs(root) && !IsAbs(rel)
    ensures Parse(Join(root, rel)) == Lex(true, 0, From(Loc(root), Parse(rel)))
    ensures Join(root, rel) == Abs(From(Loc(root), Parse(rel)))
  {
    var whole := root + "/" + rel;
    SplitConcat(root, rel);
    ResolveConcat(Lex(true, 0, []), Split(root), Split(rel));
    WalkMeaning(Loc(root), rel);
    assert IsAbs(whole);
    ParseRender(Parse(whole));
  }

  lemma {:induction false} UpToLastSlash(head: string, n: string)
    requires head != "" && head[|head| - 1] == '/' && '/' !in n
    ensures UpToSlash(head + n) == head
    decreases |n|
  {
    if n == "" {
      assert head + n == head;
    } else {
      var m := n[..|n| - 1];
      assert (head + n)[..|head + n| - 1] == head + m;
      assert n[|n| - 1] in n;
      UpToLastSlash(head, m);
    }
  }

  /** The directory of `root/.../n` is what precedes `n`. */
  lemma DirMeaning(p: Path)
    requires Names(p) && p != []
    ensures DirOf(Abs(p)) == Abs(p[..|p| - 1])
  {
    var parent, n := p[..|p| - 1], p[|p| - 1];
    var s := Abs(p);
    SlashedLast(p);
    var head := if parent == [] then "/" else "/" + Slashed(parent) + "/";
    assert s == head + n;
    UpToLastSlash(head, n);
    AbsLoc(parent);
    if parent != [] {
      var t := "/" + Slashed(parent);
      assert t == Abs(parent) && head == t + "/" + "";
      SplitConcat(t, "");
      ResolveConcat(Lex(true, 0, []), Split(t), [""]);
      assert Parse(head) == Parse(t);
    }
  }

  lemma {:induction false} SlashedLast(p: Path)
    requires |p| >= 1
    ensures Slashed(p) == (if |p| == 1 then "" else Slashed(p[..|p| - 1]) + "/") + p[|p| - 1]
  {
    if |p| > 1 {
      SlashedLast(p[1..]);
      assert p[1..][..|p| - 2] == p[..|p| - 1][1..];
    }
  }

  // ------------------------------------------------- relative paths and locality

  lemma FirstComponent(cs: seq<string>)
    requires |cs| >= 1 && NoSlashes(cs)
    ensures cs[0] == ".." <==> Slashed(cs) == ".." || HasPrefix(Slashed(cs), "../")
  {
    assert Split(Slashed(cs)) == cs by { SplitSlashed(cs); }
    FirstPart(Slashed(cs), "..");
  }

  /** A normal form starts with `..` exactly when it climbs. */
  lemma ClimbsVisibly(l: Lex)
    requires Normal(l) && !l.rooted
    ensures Render(l) == ".." || HasPrefix(Render(l), "../") <==> l.ups > 0
  {
    var cs := Components(l);
    if cs != [] {
      assert NoSlashes(cs);
      FirstComponent(cs);
    }
  }

  /** A path with no dot component names its components in order. */
  lemma {:induction false} PlainParse(cs: seq<string>, l: Lex)
    requires NoSlashes(cs) && !("." in cs) && !(".." in cs)
    ensures Resolve(l, cs).ups == l.ups
    decreases |cs|
  {
    if cs != [] { PlainParse(cs[1..], Step(l, cs[0])); }
  }

  /** `IsLocal` means: nonempty, relative, and its walk never rises above where it started. */
  lemma IsLocalMeaning(s: string)
    ensures IsLocal(s) <==> s != "" && !IsAbs(s) && Parse(s).ups == 0
  {
    if s != "" && !IsAbs(s) {
      if "." in Split(s) || ".." in Split(s) {
        ClimbsVisibly(Parse(s));
      } else {
        FirstPart(s, "..");
        PlainParse(Split(s), Lex(false, 0, []));
      }
    }
  }

  /** Between absolute paths `Rel` always answers, and its answer leads back. */
  lemma RelMeaning(base: string, targ: string)
    requires IsAbs(base) && IsAbs(targ)
    ensures Rel(base, targ).Ok?
    ensures var rel := Rel(base, targ).value; var k := CommonPrefix(Loc(base), Loc(targ));
            Parse(rel) == Lex(false, |Loc(base)| - k, Loc(targ)[k..]) && rel == Clean(rel)
    ensures Join(base, Rel(base, targ).value) == Clean(targ)
  {
    var bs, ts := Loc(base), Loc(targ);
    var k := CommonPrefix(bs, ts);
    var l := Lex(false, |bs| - k, ts[k..]);
    RelForm(base, targ);
    ParseRender(l);
    JoinMeaning(base, Render(l));
    assert From(bs, l) == bs[..k] + ts[k..] == ts;
  }

  /** Between absolute paths, `Rel` prints the steps up to the common ancestor and down again. */
  lemma RelForm(base: string, targ: string)
    requires IsAbs(base) && IsAbs(targ)
    ensures var k := CommonPrefix(Loc(base), Loc(targ));
            Rel(base, targ) == Ok(Render(Lex(false, |Loc(base)| - k, Loc(targ)[k..])))
  {
    var bs, ts := Loc(base), Loc(targ);
    assert Components(Parse(base)) == bs && Components(Parse(targ)) == ts;
    var k := CommonPrefix(bs, ts);
    assert bs == ts ==> k == |bs|;
    assert forall i :: k <= i < |bs| ==> IsName(bs[i]);
  }

  lemma UnderCommon(a: Path, b: Path)
    ensures Under(a, b) <==> CommonPrefix(a, b) == |a|
  {
    var k := CommonPrefix(a, b);
    assert k < |a| && k < |b| ==> a[k] != b[k];
    assert k == |a| ==> a[..k] == a;
  }

  // ------------------------------------------------------- the library's loop

  /** `filepath.Clean` as the loop that computes it: one pass over the components with a stack
      of names and a count of the leading `..`. */
  method CleanLoop(s: string) returns (r: string)
    ensures r == Clean(s)
  {
    var parts := Split(s);
    var rooted := IsAbs(s);
    var ups: nat, stack: Path := 0, [];
    var i := 0;
    while i < |parts|
      invariant 0 <= i <= |parts|
      invariant Resolve(Lex(rooted, ups, stack), parts[i..]) == Parse(s)
    {
      var c := parts[i];
      assert parts[i..][0] == c && parts[i..][1..] == parts[i + 1..];
      if c == ".." {
        if stack != [] { stack := stack[..|stack| - 1]; }
        else if !rooted { ups := ups + 1; }
      } else if c != "" && c != "." {
        stack := stack + [c];
      }
      i := i + 1;
    }
    if rooted {
      r := "/" + (if stack == [] then "" else Slashed(stack));
    } else if ups == 0 && stack == [] {
      r := ".";
    } else {
      r := Slashed(Dots(ups) + stack);
    }
  }
}
