/** The accounting of cache eviction, on the surveyed entries. */
module Eviction {

  /** What the survey of a cache entry yields: its total size and its oldest modification time. */
  datatype Item = Item(name: string, size: nat, modTime: int)

  predicate Expired(i: Item, now: int, maxAge: int) { now - i.modTime > maxAge }

  function Total(items: seq<Item>): nat {
    if items == [] then 0 else items[0].size + Total(items[1..])
  }

  /** The bytes of the entries that have not expired: what the first loop leaves in its total. */
  function LiveTotal(items: seq<Item>, now: int, maxAge: int): nat {
    if items == [] then 0
    else (if Expired(items[0], now, maxAge) then 0 else items[0].size) + LiveTotal(items[1..], now, maxAge)
  }

  ghost predicate OldestFirst(items: seq<Item>) {
    forall i, j :: 0 <= i < j < |items| ==> items[i].modTime <= items[j].modTime
  }

  ghost predicate DistinctNames(items: seq<Item>) {
    forall i, j :: 0 <= i < j < |items| ==> items[i].name != items[j].name
  }

  /** `sort.Slice` by modification time. */
  function SortByTime(items: seq<Item>): (sorted: seq<Item>)
    ensures |sorted| == |items|
  {
    if items == [] then [] else Insert(items[0], SortByTime(items[1..]))
  }

  function Insert(x: Item, items: seq<Item>): (r: seq<Item>)
    ensures |r| == |items| + 1
  {
    if items == [] || x.modTime <= items[0].modTime then [x] + items
    else [items[0]] + Insert(x, items[1..])
  }

  /** How many entries, oldest first, the second loop goes through before its total fits. */
  function Trim(items: seq<Item>, total: int, max: int): (n: nat)
    ensures n <= |items|
  {
    if items == [] || total <= max then 0 else 1 + Trim(items[1..], total - items[0].size, max)
  }

  /** The entry names of surveyed items. */
  function NamesOf(items: seq<Item>): set<string> { set i | i in items :: i.name }

  // -------------------------------------------------------------------- sorting

  lemma {:induction false} InsertMembers(x: Item, items: seq<Item>)
    ensures multiset(Insert(x, items)) == multiset{x} + multiset(items)
    decreases |items|
  {
    if !(items == [] || x.modTime <= items[0].modTime) {
      InsertMembers(x, items[1..]);
      assert items == [items[0]] + items[1..];
    }
  }

  lemma {:induction false} InsertTotals(x: Item, items: seq<Item>, now: int, maxAge: int)
    ensures LiveTotal(Insert(x, items), now, maxAge) == LiveTotal([x] + items, now, maxAge)
    decreases |items|
  {
    if !(items == [] || x.modTime <= items[0].modTime) {
      InsertTotals(x, items[1..], now, maxAge);
      assert ([x] + items)[1..] == items && ([x] + items[1..])[1..] == items[1..];
    }
  }

  lemma {:induction false} InsertOrdered(x: Item, items: seq<Item>)
    requires OldestFirst(items)
    ensures OldestFirst(Insert(x, items))
    decreases |items|
  {
    if !(items == [] || x.modTime <= items[0].modTime) {
      var rest := Insert(x, items[1..]);
      InsertOrdered(x, items[1..]);
      InsertMembers(x, items[1..]);
      forall j | 0 <= j < |rest| ensures items[0].modTime <= rest[j].modTime {
        assert rest[j] in multiset(rest);
        assert rest[j] == x || rest[j] in items[1..];
      }
    }
  }

  lemma {:induction false} SortKeeps(items: seq<Item>, now: int, maxAge: int)
    ensures OldestFirst(SortByTime(items))
    ensures multiset(SortByTime(items)) == multiset(items)
    ensures LiveTotal(SortByTime(items), now, maxAge) == LiveTotal(items, now, maxAge)
    decreases |items|
  {
    if items != [] {
      var rest := SortByTime(items[1..]);
      SortKeeps(items[1..], now, maxAge);
      InsertMembers(items[0], rest);
      InsertTotals(items[0], rest, now, maxAge);
      InsertOrdered(items[0], rest);
      assert items == [items[0]] + items[1..];
      assert ([items[0]] + rest)[1..] == rest;
    }
  }

  lemma {:induction false} InsertDistinct(x: Item, items: seq<Item>)
    requires DistinctNames([x] + items)
    ensures DistinctNames(Insert(x, items))
    decreases |items|
  {
    if !(items == [] || x.modTime <= items[0].modTime) {
      var rest := Insert(x, items[1..]);
      assert forall j :: 0 <= j < |items[1..]| ==> ([x] + items)[j + 2] == items[1..][j];
      assert ([x] + items)[0] == x && ([x] + items)[1] == items[0];
      assert DistinctNames([x] + items[1..]);
      InsertDistinct(x, items[1..]);
      InsertMembers(x, items[1..]);
      forall j | 0 <= j < |rest| ensures items[0].name != rest[j].name {
        assert rest[j] in multiset(rest);
        assert rest[j] == x || rest[j] in items[1..];
      }
    }
  }

  lemma {:induction false} SortDistinct(items: seq<Item>)
    requires DistinctNames(items)
    ensures DistinctNames(SortByTime(items))
    decreases |items|
  {
    if items != [] {
      var rest := SortByTime(items[1..]);
      SortDistinct(items[1..]);
      SortKeeps(items[1..], 0, 0);
      forall j | 0 <= j < |rest| ensures items[0].name != rest[j].name {
        assert rest[j] in multiset(rest);
        assert rest[j] in items[1..];
      }
      InsertDistinct(items[0], rest);
    }
  }

  /** Oldest first, the expired entries are a prefix. */
  lemma {:induction false} ExpiredPrefix(sorted: seq<Item>, now: int, maxAge: int) returns (k: nat)
    requires OldestFirst(sorted)
    ensures k <= |sorted|
    ensures forall i :: 0 <= i < k ==> Expired(sorted[i], now, maxAge)
    ensures forall i :: k <= i < |sorted| ==> !Expired(sorted[i], now, maxAge)
    decreases |sorted|
  {
    if sorted == [] || !Expired(sorted[0], now, maxAge) {
      k := 0;
    } else {
      k := ExpiredPrefix(sorted[1..], now, maxAge);
      k := k + 1;
    }
  }

  lemma {:induction false} LiveSplit(sorted: seq<Item>, k: nat, now: int, maxAge: int)
    requires k <= |sorted|
    requires forall i :: 0 <= i < k ==> Expired(sorted[i], now, maxAge)
    requires forall i :: k <= i < |sorted| ==> !Expired(sorted[i], now, maxAge)
    ensures LiveTotal(sorted, now, maxAge) == Total(sorted[k..])
    decreases |sorted|
  {
    if sorted == [] {
    } else if k > 0 {
      LiveSplit(sorted[1..], k - 1, now, maxAge);
      assert sorted[1..][k - 1..] == sorted[k..];
    } else {
      LiveSplit(sorted[1..], 0, now, maxAge);
      assert sorted[0..] == sorted && sorted[1..][0..] == sorted[1..];
    }
  }

  // ------------------------------------------------------------------- trimming

  lemma {:induction false} TrimShift(items: seq<Item>, total: int, max: int, more: int)
    ensures Trim(items, total - more, max) == Trim(items, total, max + more)
    decreases |items|
  {
    if items != [] && total - more > max { TrimShift(items[1..], total - items[0].size, max, more); }
  }

  /** Trimming leaves what fits. */
  lemma {:induction false} TrimFits(items: seq<Item>, max: nat)
    ensures Total(items[Trim(items, Total(items), max)..]) <= max
    decreases |items|
  {
    assert items[0..] == items;
    if items != [] && Total(items) > max {
      TrimFits(items[1..], max);
      var n := Trim(items[1..], Total(items[1..]), max);
      assert items[1 + n..] == items[1..][n..];
    }
  }

  /** Trimming removes no more than it must: no longer remainder fits. */
  lemma {:induction false} TrimShortest(items: seq<Item>, max: nat, j: nat)
    requires j < Trim(items, Total(items), max)
    ensures Total(items[j..]) > max
    decreases j
  {
    if j == 0 {
      assert items[0..] == items;
    } else {
      TrimShortest(items[1..], max, j - 1);
      assert items[j..] == items[1..][j - 1..];
    }
  }

  lemma {:induction false} SuffixTotals(items: seq<Item>, i: nat, j: nat)
    requires i <= j <= |items|
    ensures Total(items[j..]) <= Total(items[i..])
    decreases j - i
  {
    if i < j {
      assert items[i..][1..] == items[i + 1..];
      SuffixTotals(items, i + 1, j);
    }
  }

  /** The code as written goes through the expired entries again, crediting their bytes a second
      time: on the live entries it is exactly a trim to the limit plus the expired bytes. */
  lemma {:induction false} DoubleCredit(expired: seq<Item>, live: seq<Item>, total: int, max: int)
    ensures var n := Trim(expired + live, total, max);
            total > max ==>
              (if n <= |expired| then 0 else n - |expired|) ==
              (if total <= max + Total(expired) then 0 else Trim(live, total, max + Total(expired)))
    decreases |expired|
  {
    if expired == [] {
      assert expired + live == live;
    } else {
      var e, rest := expired[0], expired[1..];
      assert (expired + live)[1..] == rest + live;
      if total > max {
        if total - e.size > max {
          DoubleCredit(rest, live, total - e.size, max);
          TrimShift(live, total, max + Total(rest), e.size);
        }
      }
    }
  }

  // --------------------------------------------------------------- main results

  /** How many live entries the pass removes. */
  function LiveRemoved(expired: seq<Item>, live: seq<Item>, max: int): (n: nat)
    ensures n <= |live|
  {
    Trim(live, Total(live), max + Total(expired))
  }

  /** What the two loops do to the live entries. */
  lemma AsWritten(expired: seq<Item>, live: seq<Item>, max: int)
    ensures var n := if Total(live) <= max then 0 else Trim(expired + live, Total(live), max);
            LiveRemoved(expired, live, max) == if n <= |expired| then 0 else n - |expired|
  {
    DoubleCredit(expired, live, Total(live), max);
  }

  /** Eviction bound, as written: the survivors fit the limit plus the bytes expired in the pass,
      and the live removals are the shortest oldest-first prefix that achieves it. */
  lemma EvictionBound(expired: seq<Item>, live: seq<Item>, max: nat)
    ensures var n := LiveRemoved(expired, live, max);
            Total(live[n..]) <= max + Total(expired)
            && forall j :: 0 <= j < n ==> Total(live[j..]) > max + Total(expired)
  {
    TrimFits(live, max + Total(expired));
    forall j | 0 <= j < LiveRemoved(expired, live, max) ensures Total(live[j..]) > max + Total(expired) {
      TrimShortest(live, max + Total(expired), j);
    }
  }

  /** The intended bound holds of the code as written exactly when no oldest-first remainder of the
      live entries weighs more than the limit and at most the limit plus the expired bytes. */
  lemma IntendedBoundExactly(expired: seq<Item>, live: seq<Item>, max: nat)
    ensures Total(live[LiveRemoved(expired, live, max)..]) <= max
            <==> forall j :: 0 <= j <= |live| ==> !(max < Total(live[j..]) <= max + Total(expired))
  {
    EvictionBound(expired, live, max);
    var n := LiveRemoved(expired, live, max);
    if Total(live[n..]) <= max {
      forall j | n <= j <= |live| ensures Total(live[j..]) <= max { SuffixTotals(live, n, j); }
    }
  }

  /** Without re-appending the expired entries the intended bound always holds. */
  lemma IntendedVariant(live: seq<Item>, max: nat)
    ensures Total(live[Trim(live, Total(live), max)..]) <= max
    ensures LiveRemoved([], live, max) == Trim(live, Total(live), max)
  {
    TrimFits(live, max);
  }

  /** A concrete pass that keeps more than the limit: one expired entry pays for a live one. */
  lemma BoundCanFail(now: int, maxAge: nat)
    ensures var expired := [Item("old", 5, now - maxAge - 1)]; var live := [Item("new", 12, now)];
            Expired(expired[0], now, maxAge) && !Expired(live[0], now, maxAge)
            && Total(live[LiveRemoved(expired, live, 10)..]) > 10
  {
    var expired, live := [Item("old", 5, now - maxAge - 1)], [Item("new", 12, now)];
    assert expired[1..] == [] && live[1..] == [];
    assert Total(expired) == 5 && Total(live) == 12;
    assert live[0..] == live;
  }

  /** Survival, exactly, of any live entry: it stays if and only if it and all younger ones fit the
      limit plus the expired bytes. */
  lemma SurvivesExactly(expired: seq<Item>, live: seq<Item>, max: nat, k: nat)
    requires k <= |live|
    ensures LiveRemoved(expired, live, max) <= k <==> Total(live[k..]) <= max + Total(expired)
  {
    EvictionBound(expired, live, max);
    var n := LiveRemoved(expired, live, max);
    if n <= k { SuffixTotals(live, n, k); }
  }

  /** The strictly youngest live entry stays if and only if it fits, by itself, the limit plus the
      expired bytes. */
  lemma YoungestSurvives(expired: seq<Item>, live: seq<Item>, x: Item, max: nat)
    requires OldestFirst(live) && x in live
    requires forall i :: i in live && i != x ==> i.modTime < x.modTime
    ensures live[|live| - 1] == x
    ensures LiveRemoved(expired, live, max) < |live| <==> x.size <= max + Total(expired)
  {
    var last := |live| - 1;
    var k :| 0 <= k < |live| && live[k] == x;
    assert live[k].modTime <= live[last].modTime;
    assert live[last] in live;
    assert live[last..] == [x] && [x][1..] == [];
    assert Total(live[last..]) == x.size;
    SurvivesExactly(expired, live, max, last);
  }
}
