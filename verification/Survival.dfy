/** Which cache entries a pass of eviction spares, and how many bytes it takes for expired. */
module Survival {
  import opened LexicalPath
  import opened Trees
  import opened Eviction
  import opened Cache

  /** What a survey counts for the entry `name`. */
  ghost function EntryBytes(t: Tree, dirSize: nat, cache: Path, name: string): nat {
    Sum(AllSizes(Subtree(t, cache + [name]), dirSize))
  }

  /** Something in the entry `name` is older than the age limit. */
  ghost predicate HoldsExpired(m: map<Path, int>, now: int, cache: Path, maxAge: int, name: string) {
    exists q :: q in m && Under(cache + [name], q) && now - m[q] > maxAge
  }

  /** The entries of the cache, but for one, that hold something older than the age limit. */
  ghost function ExpiredBut(t: Tree, m: map<Path, int>, now: int, cache: Path, maxAge: int,
                            but: string): (names: set<string>)
    ensures forall n :: n in names <==> n != but && IsDir(t, cache + [n]) && HoldsExpired(m, now, cache, maxAge, n)
  {
    var held := set q | q in t && |q| > |cache| :: q[|cache|];
    assert forall n :: cache + [n] in t ==> (cache + [n])[|cache|] == n;
    set n | n in held && n != but && IsDir(t, cache + [n]) && HoldsExpired(m, now, cache, maxAge, n)
  }

  ghost function BytesOf(t: Tree, dirSize: nat, cache: Path, names: set<string>): map<string, nat> {
    map n | n in names :: EntryBytes(t, dirSize, cache, n)
  }

  /** Their bytes. */
  ghost function ExpiredBytes(t: Tree, m: map<Path, int>, now: int, dirSize: nat, cache: Path, maxAge: int,
                              but: string): nat {
    Sum(BytesOf(t, dirSize, cache, ExpiredBut(t, m, now, cache, maxAge, but)))
  }

  // ----------------------------------------------------------------------- survey

  lemma OnlyOne(expired: seq<Item>, live: seq<Item>, x: Item)
    requires DistinctNames(expired + live) && x in expired + live
    ensures forall i :: i in expired + live && i.name == x.name ==> i == x
  {
    var all := expired + live;
    var k :| 0 <= k < |all| && all[k] == x;
    forall i | i in all && i.name == x.name ensures i == x {
      var j :| 0 <= j < |all| && all[j] == i;
    }
  }

  /** An entry counts as expired exactly when something in it is older than the age limit, however
      recently it was materialised. */
  lemma ExpiryMeaning(t: Tree, m: map<Path, int>, now: int, dirSize: nat, cache: Path, cfg: Config,
                      expired: seq<Item>, live: seq<Item>, key: string)
    requires Swept(t, m, now, dirSize, cache, cfg, expired, live) && IsDir(t, cache + [key])
    ensures key in NamesOf(expired) <==> HoldsExpired(m, now, cache, cfg.maxAge, key)
  {
    var x :| x in expired + live && x.name == key;
    OnlyOne(expired, live, x);
    var oldest :| oldest in m && Under(cache + [key], oldest) && x.modTime == m[oldest];
    if Expired(x, now, cfg.maxAge) { assert x in expired; } else { assert x in live; }
    if i :| i in expired && i.name == key { assert i in expired + live; }
  }

  /** The sizes of surveyed entries by their names. */
  ghost function SizesOf(items: seq<Item>): map<string, nat> {
    if items == [] then map[] else SizesOf(items[1..])[items[0].name := items[0].size]
  }

  /** No name occurs again later. */
  ghost predicate NamesApart(items: seq<Item>) {
    items == [] || ((forall i :: i in items[1..] ==> i.name != items[0].name) && NamesApart(items[1..]))
  }

  lemma {:induction false} DistinctApart(items: seq<Item>)
    requires DistinctNames(items)
    ensures NamesApart(items)
    decreases |items|
  {
    if items != [] {
      var rest := items[1..];
      forall i, j | 0 <= i < j < |rest| ensures rest[i].name != rest[j].name {
        assert rest[i] == items[i + 1] && rest[j] == items[j + 1];
      }
      forall i | i in rest ensures i.name != items[0].name {
        var j :| 0 <= j < |rest| && rest[j] == i;
        assert items[j + 1] == i;
      }
      DistinctApart(rest);
    }
  }

  lemma {:induction false} SizesNamed(items: seq<Item>, n: string)
    ensures n in SizesOf(items) <==> n in NamesOf(items)
    decreases |items|
  {
    if items != [] {
      SizesNamed(items[1..], n);
      assert forall i :: i in items <==> i == items[0] || i in items[1..];
    }
  }

  lemma {:induction false} SizesAt(items: seq<Item>, x: Item)
    requires NamesApart(items) && x in items
    ensures x.name in SizesOf(items) && SizesOf(items)[x.name] == x.size
    decreases |items|
  {
    if x != items[0] {
      assert x in items[1..];
      SizesAt(items[1..], x);
    }
  }

  lemma {:induction false} SizesTotal(items: seq<Item>)
    requires NamesApart(items)
    ensures Total(items) == Sum(SizesOf(items))
    decreases |items|
  {
    if items != [] {
      SizesTotal(items[1..]);
      SizesNamed(items[1..], items[0].name);
      SumInsert(SizesOf(items[1..]), items[0].name, items[0].size);
    }
  }

  /** The bytes a pass takes for expired, besides an entry that is not. */
  lemma ExpiredTotal(t: Tree, m: map<Path, int>, now: int, dirSize: nat, cache: Path, cfg: Config,
                     expired: seq<Item>, live: seq<Item>, but: string)
    requires Swept(t, m, now, dirSize, cache, cfg, expired, live) && but !in NamesOf(expired)
    ensures Total(expired) == ExpiredBytes(t, m, now, dirSize, cache, cfg.maxAge, but)
  {
    DistinctPart(expired, live);
    DistinctApart(expired);
    SizesTotal(expired);
    var names := ExpiredBut(t, m, now, cache, cfg.maxAge, but);
    forall n ensures if n in names then n in SizesOf(expired) && SizesOf(expired)[n] == EntryBytes(t, dirSize, cache, n)
                     else n !in SizesOf(expired)
    {
      ExpiredSize(t, m, now, dirSize, cache, cfg, expired, live, but, n);
    }
    SameSizes(SizesOf(expired), BytesOf(t, dirSize, cache, names));
  }

  lemma SameSizes(a: map<string, nat>, b: map<string, nat>)
    requires forall n :: (n in a <==> n in b) && (n in a ==> a[n] == b[n])
    ensures a == b
  {}

  lemma ExpiredSize(t: Tree, m: map<Path, int>, now: int, dirSize: nat, cache: Path, cfg: Config,
                    expired: seq<Item>, live: seq<Item>, but: string, n: string)
    requires Swept(t, m, now, dirSize, cache, cfg, expired, live) && but !in NamesOf(expired) && NamesApart(expired)
    ensures if n in ExpiredBut(t, m, now, cache, cfg.maxAge, but) then
              n in SizesOf(expired) && SizesOf(expired)[n] == EntryBytes(t, dirSize, cache, n)
            else n !in SizesOf(expired)
  {
    SizesNamed(expired, n);
    if i :| i in expired && i.name == n {
      SizesAt(expired, i);
      assert i in expired + live;
      ExpiryMeaning(t, m, now, dirSize, cache, cfg, expired, live, n);
    } else if IsDir(t, cache + [n]) {
      ExpiryMeaning(t, m, now, dirSize, cache, cfg, expired, live, n);
    }
  }

  lemma DistinctPart(expired: seq<Item>, live: seq<Item>)
    requires DistinctNames(expired + live)
    ensures DistinctNames(expired)
  {
    assert forall i :: 0 <= i < |expired| ==> (expired + live)[i] == expired[i];
  }

  // --------------------------------------------------------------------- survival

  /** The names a pass removes. */
  ghost function GoneNames(expired: seq<Item>, live: seq<Item>, cfg: Config): set<string> {
    NamesOf(expired) + NamesOf(live[..LiveRemoved(expired, live, cfg.maxSize)])
  }

  /** Survival of any entry, exactly: it is not expired, and it and the younger live entries fit the
      limit plus the bytes expired in the pass. */
  lemma EntrySurvives(t: Tree, m: map<Path, int>, now: int, dirSize: nat, cache: Path, cfg: Config,
                      expired: seq<Item>, live: seq<Item>, key: string)
    requires Swept(t, m, now, dirSize, cache, cfg, expired, live) && IsDir(t, cache + [key]) && cfg.maxSize >= 0
    ensures key !in GoneNames(expired, live, cfg) <==>
            exists k :: 0 <= k < |live| && live[k].name == key && Total(live[k..]) <= cfg.maxSize + Total(expired)
  {
    var n := LiveRemoved(expired, live, cfg.maxSize);
    if key !in GoneNames(expired, live, cfg) {
      var x :| x in expired + live && x.name == key;
      assert x in live;
      var k :| 0 <= k < |live| && live[k] == x;
      GonePrefix(expired, live, n, k);
      SurvivesExactly(expired, live, cfg.maxSize, k);
    }
    if k :| 0 <= k < |live| && live[k].name == key && Total(live[k..]) <= cfg.maxSize + Total(expired) {
      GonePrefix(expired, live, n, k);
      SurvivesExactly(expired, live, cfg.maxSize, k);
    }
  }

  /** Among the expired and the first `n` live entries, a live entry is named only by its position. */
  lemma GonePrefix(expired: seq<Item>, live: seq<Item>, n: nat, k: nat)
    requires DistinctNames(expired + live) && n <= |live| && k < |live|
    ensures live[k].name in NamesOf(expired) + NamesOf(live[..n]) <==> k < n
  {
    var all := expired + live;
    assert all[|expired| + k] == live[k];
    forall j | 0 <= j < |expired| ensures expired[j].name != live[k].name { assert all[j] == expired[j]; }
    forall j | 0 <= j < |live| && j != k ensures live[j].name != live[k].name { assert all[|expired| + j] == live[j]; }
    if k < n { assert live[..n][k] == live[k]; }
  }

  /** When surveyed, an entry all of whose stamps are since `since` is that young; one with none
      since then is older. */
  lemma ItemAge(t: Tree, m: map<Path, int>, dirSize: nat, cache: Path, item: Item, since: int)
    requires IsInfo(t, m, dirSize, cache, item)
    ensures (forall q :: q in m && Under(cache + [item.name], q) ==> since <= m[q]) ==> since <= item.modTime
    ensures (forall q :: q in m && Under(cache + [item.name], q) ==> m[q] < since) ==> item.modTime < since
  {
    var q :| q in m && Under(cache + [item.name], q) && item.modTime == m[q];
  }

  /** All of the entry `key` is as new as `since`, and all the rest of the cache is older. */
  ghost predicate YoungestEntry(m: map<Path, int>, cache: Path, key: string, since: int) {
    && (forall q :: q in m && Under(cache + [key], q) ==> since <= m[q])
    && (forall q :: q in m && Under(cache, q) && |q| > |cache| && !Under(cache + [key], q) ==> m[q] < since)
  }

  lemma OtherEntry(m: map<Path, int>, cache: Path, key: string, name: string, since: int)
    requires name != key && YoungestEntry(m, cache, key, since)
    ensures forall q :: q in m && Under(cache + [name], q) ==> m[q] < since
  {
    forall q | q in m && Under(cache + [name], q) ensures m[q] < since {
      UnderTransitive(cache, cache + [name], q);
      ChildOnTheWay(cache, q);
    }
  }

  /** Survival of the youngest entry, exactly: nothing in it is older than the age limit, and it fits
      by itself the size limit plus the bytes of the other entries that have expired. */
  lemma FreshEntrySurvives(t: Tree, m: map<Path, int>, now: int, dirSize: nat, cache: Path, cfg: Config,
                           expired: seq<Item>, live: seq<Item>, key: string, since: int)
    requires Swept(t, m, now, dirSize, cache, cfg, expired, live) && IsDir(t, cache + [key]) && cfg.maxSize >= 0
    requires YoungestEntry(m, cache, key, since)
    ensures key !in GoneNames(expired, live, cfg) <==>
            && !HoldsExpired(m, now, cache, cfg.maxAge, key)
            && EntryBytes(t, dirSize, cache, key)
               <= cfg.maxSize + ExpiredBytes(t, m, now, dirSize, cache, cfg.maxAge, key)
  {
    ExpiryMeaning(t, m, now, dirSize, cache, cfg, expired, live, key);
    if !HoldsExpired(m, now, cache, cfg.maxAge, key) {
      var x :| x in expired + live && x.name == key;
      assert x in live;
      ExpiredTotal(t, m, now, dirSize, cache, cfg, expired, live, key);
      YoungestItem(t, m, dirSize, cache, expired, live, x, since);
      YoungestSurvives(expired, live, x, cfg.maxSize);
      GonePrefix(expired, live, LiveRemoved(expired, live, cfg.maxSize), |live| - 1);
    }
  }

  lemma YoungestItem(t: Tree, m: map<Path, int>, dirSize: nat, cache: Path, expired: seq<Item>, live: seq<Item>,
                     x: Item, since: int)
    requires forall i :: i in expired + live ==> IsInfo(t, m, dirSize, cache, i)
    requires DistinctNames(expired + live) && x in live && YoungestEntry(m, cache, x.name, since)
    ensures forall i :: i in live && i != x ==> i.modTime < x.modTime
  {
    assert x in expired + live;
    ItemAge(t, m, dirSize, cache, x, since);
    OnlyOne(expired, live, x);
    forall i | i in live && i != x ensures i.modTime < x.modTime {
      assert i in expired + live;
      OtherEntry(m, cache, x.name, i.name, since);
      ItemAge(t, m, dirSize, cache, i, since);
    }
  }

  // ----------------------------------------------------------- changes to one entry

  /** Entries other than `key` are as they were. */
  ghost predicate OthersSame(t: Tree, m: map<Path, int>, t': Tree, m': map<Path, int>, cache: Path, key: string) {
    forall q :: Under(cache, q) && |q| > |cache| && !Under(cache + [key], q) ==>
      Lookup(t', q) == Lookup(t, q) && Lookup(m', q) == Lookup(m, q)
  }

  lemma OtherSame(t: Tree, m: map<Path, int>, t': Tree, m': map<Path, int>, cache: Path, key: string, name: string,
                  maxAge: int, now: int, dirSize: nat)
    requires OthersSame(t, m, t', m', cache, key) && name != key
    ensures IsDir(t', cache + [name]) <==> IsDir(t, cache + [name])
    ensures HoldsExpired(m', now, cache, maxAge, name) <==> HoldsExpired(m, now, cache, maxAge, name)
    ensures EntryBytes(t', dirSize, cache, name) == EntryBytes(t, dirSize, cache, name)
  {
    var p := cache + [name];
    forall q | Under(p, q) ensures Lookup(t', q) == Lookup(t, q) && Lookup(m', q) == Lookup(m, q) {
      UnderTransitive(cache, p, q);
      ChildOnTheWay(cache, q);
    }
    assert Under(p, p) && Lookup(t', p) == Lookup(t, p);
    forall r ensures Lookup(Subtree(t', p), r) == Lookup(Subtree(t, p), r) {
      assert Under(p, p + r) && Lookup(t', p + r) == Lookup(t, p + r);
    }
    SameTree(Subtree(t', p), Subtree(t, p));
    if q :| q in m && Under(p, q) && now - m[q] > maxAge { assert Lookup(m', q) == Lookup(m, q); }
    if q :| q in m' && Under(p, q) && now - m'[q] > maxAge { assert Lookup(m', q) == Lookup(m, q); }
  }

  /** So the expired bytes besides an entry do not depend on what was done to it. */
  lemma ExpiredElsewhere(t: Tree, m: map<Path, int>, t': Tree, m': map<Path, int>, now: int, dirSize: nat, cache: Path,
                         maxAge: int, key: string)
    requires OthersSame(t, m, t', m', cache, key)
    ensures ExpiredBytes(t', m', now, dirSize, cache, maxAge, key) ==
              ExpiredBytes(t, m, now, dirSize, cache, maxAge, key)
  {
    var names, names' := ExpiredBut(t, m, now, cache, maxAge, key), ExpiredBut(t', m', now, cache, maxAge, key);
    forall n ensures n in names' <==> n in names {
      if n != key { OtherSame(t, m, t', m', cache, key, n, maxAge, now, dirSize); }
    }
    assert names == names';
    forall n | n in names ensures EntryBytes(t', dirSize, cache, n) == EntryBytes(t, dirSize, cache, n) {
      OtherSame(t, m, t', m', cache, key, n, maxAge, now, dirSize);
    }
    SameSizes(BytesOf(t', dirSize, cache, names), BytesOf(t, dirSize, cache, names));
  }
}
