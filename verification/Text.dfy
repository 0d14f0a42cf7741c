/** The byte-string operations of Go's `strings` package that the driver relies on.
    A Go string is a byte sequence; `char` stands for one byte. */
module Text {

  predicate HasPrefix(s: string, prefix: string) { prefix <= s }

  predicate HasSuffix(s: string, suffix: string) {
    |suffix| <= |s| && s[|s| - |suffix|..] == suffix
  }

  function TrimPrefix(s: string, prefix: string): string {
    if HasPrefix(s, prefix) then s[|prefix|..] else s
  }

  predicate ContainsAny(s: string, chars: string) {
    exists i :: 0 <= i < |s| && s[i] in chars
  }

  predicate OccursAt(s: string, sub: string, i: nat) {
    i + |sub| <= |s| && s[i..i + |sub|] == sub
  }

  predicate Contains(s: string, sub: string) {
    exists i :: 0 <= i <= |s| && OccursAt(s, sub, i)
  }

  /** Index of the first occurrence of `c`, or -1. */
  function Index(s: string, c: char): (i: int)
    ensures -1 <= i < |s|
    ensures i >= 0 ==> s[i] == c && c !in s[..i]
    ensures i == -1 <==> c !in s
  {
    if s == "" then -1
    else if s[0] == c then 0
    else
      var rest := Index(s[1..], c);
      assert s == [s[0]] + s[1..];
      if rest == -1 then -1 else assert s[..rest + 1] == [s[0]] + s[1..][..rest]; rest + 1
  }

  // ---------------------------------------------------------------- separators

  /** `strings.Split(s, "/")`: always at least one part, none containing a slash. */
  function Split(s: string): (parts: seq<string>)
    ensures |parts| >= 1
    ensures forall i :: 0 <= i < |parts| ==> '/' !in parts[i]
  {
    if s == "" then [""]
    else if s[0] == '/' then [""] + Split(s[1..])
    else
      var rest := Split(s[1..]);
      [[s[0]] + rest[0]] + rest[1..]
  }

  /** `strings.Join(parts, "/")`. */
  function Slashed(parts: seq<string>): string
    requires |parts| >= 1
  {
    if |parts| == 1 then parts[0] else parts[0] + "/" + Slashed(parts[1..])
  }

  predicate NoSlashes(parts: seq<string>) {
    forall i :: 0 <= i < |parts| ==> '/' !in parts[i]
  }

  lemma {:induction false} SplitNoSlash(s: string)
    requires '/' !in s
    ensures Split(s) == [s]
  {
    if s != "" {
      SplitNoSlash(s[1..]);
      assert s == [s[0]] + s[1..];
    }
  }

  lemma {:induction false} SplitConcat(a: string, b: string)
    ensures Split(a + "/" + b) == Split(a) + Split(b)
  {
    var whole := a + "/" + b;
    if a == "" {
      assert whole[1..] == b;
    } else {
      var t := a[1..] + "/" + b;
      var rest, bs := Split(a[1..]), Split(b);
      assert whole[1..] == t && whole[0] == a[0];
      assert Split(t) == rest + bs by { SplitConcat(a[1..], b); }
      if a[0] == '/' {
        Regroup([""], rest, bs);
      } else {
        var head := [[a[0]] + rest[0]];
        assert Split(whole) == head + Split(t)[1..];
        assert (rest + bs)[1..] == rest[1..] + bs;
        Regroup(head, rest[1..], bs);
      }
    }
  }

  lemma Regroup<T>(a: seq<T>, b: seq<T>, c: seq<T>)
    ensures a + (b + c) == a + b + c
  {}

  /** Splitting undoes joining when the parts hold no slash. */
  lemma {:induction false} SplitSlashed(parts: seq<string>)
    requires |parts| >= 1 && NoSlashes(parts)
    ensures Split(Slashed(parts)) == parts
  {
    if |parts| == 1 {
      SplitNoSlash(parts[0]);
    } else {
      SplitSlashed(parts[1..]);
      SplitConcat(parts[0], Slashed(parts[1..]));
      SplitNoSlash(parts[0]);
    }
  }

  /** Joining undoes splitting, for every string. */
  lemma {:induction false} SlashedSplit(s: string)
    ensures Slashed(Split(s)) == s
  {
    if s != "" {
      SlashedSplit(s[1..]);
      var rest := Split(s[1..]);
      if s[0] != '/' && |rest| > 1 {
        assert Split(s)[1..] == rest[1..];
      } else if s[0] == '/' {
        assert Split(s)[1..] == rest;
      }
    }
  }

  /** The first part is `first` exactly when the string is `first` or starts with `first/`. */
  lemma FirstPart(s: string, first: string)
    requires '/' !in first
    ensures Split(s)[0] == first <==> s == first || HasPrefix(s, first + "/")
  {
    SlashedSplit(s);
    var parts := Split(s);
    if parts[0] == first && |parts| > 1 {
      assert s == first + "/" + Slashed(parts[1..]);
    }
    if s == first { SplitNoSlash(first); }
    if HasPrefix(s, first + "/") {
      var tail := s[|first| + 1..];
      assert s == first + "/" + tail;
      SplitConcat(first, tail);
      SplitNoSlash(first);
    }
  }
}
