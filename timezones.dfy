/** The options of the timezone selector, as `populateTimezones()` in
    script.js builds them: a fixed list of zone names plus the local zone,
    with duplicates removed through a `Set` and the result sorted. */
module Timezones {
  import opened StringOrder

  /** The curated zone names, in the order the source lists them: 17
      names, none twice. */
  function Curated(): (zones: seq<string>)
    ensures |zones| == 17 && Distinct(zones)
  {
    [
    "UTC", "Europe/London", "Europe/Paris", "Europe/Berlin", "Europe/Moscow",
    "Asia/Kolkata", "Asia/Dubai", "Asia/Tokyo", "Asia/Shanghai", "Asia/Singapore",
    "Australia/Sydney", "Pacific/Auckland",
    "America/New_York", "America/Chicago", "America/Denver", "America/Los_Angeles", "America/Sao_Paulo"
    ]
  }

  /** `Array.from(new Set(list))`: each name of the list, once. */
  method Unique(list: seq<string>) returns (unique: seq<string>)
    ensures Distinct(unique)
    ensures forall z :: z in unique <==> z in list
    ensures |unique| <= |list|
  {
    unique := [];
    var i := 0;
    while i < |list|
      invariant 0 <= i <= |list|
      invariant Distinct(unique)
      invariant forall z :: z in unique <==> z in list[..i]
      invariant |unique| <= i
    {
      assert list[..i + 1] == list[..i] + [list[i]];
      if list[i] !in unique {
        unique := unique + [list[i]];
      }
      i := i + 1;
    }
    assert list[..i] == list;
  }

  /** Insert `x` into a sorted sequence, before the first element it does
      not sort after. */
  method Insert(sorted: seq<string>, x: string) returns (r: seq<string>)
    requires Sorted(sorted)
    ensures Sorted(r)
    ensures multiset(r) == multiset(sorted) + multiset{x}
  {
    var k := 0;
    while k < |sorted| && Below(sorted[k], x)
      invariant 0 <= k <= |sorted|
      invariant forall j :: 0 <= j < k ==> Below(sorted[j], x)
    {
      k := k + 1;
    }
    r := sorted[..k] + [x] + sorted[k..];
    assert sorted == sorted[..k] + sorted[k..];
    if k < |sorted| {
      BelowTotal(x, sorted[k]);
    }
    forall i, j | 0 <= i < j < |r| ensures AtMost(r[i], r[j]) {
      if j < k || i > k {
        // both come from `sorted`, in their old order
      } else if i < k && j == k {
        // r[j] is x
      } else if i == k {
        AtMostTransitive(x, sorted[k], r[j]);
      } else {
        assert Below(r[i], x);
        AtMostTransitive(r[i], x, sorted[k]);
        AtMostTransitive(r[i], sorted[k], r[j]);
      }
    }
  }

  /** `Array.prototype.sort` over the order of this model. */
  method Sort(xs: seq<string>) returns (ys: seq<string>)
    ensures Sorted(ys)
    ensures multiset(ys) == multiset(xs)
  {
    ys := [];
    var i := 0;
    while i < |xs|
      invariant 0 <= i <= |xs|
      invariant Sorted(ys)
      invariant multiset(ys) == multiset(xs[..i])
    {
      assert xs[..i + 1] == xs[..i] + [xs[i]];
      ys := Insert(ys, xs[i]);
      i := i + 1;
    }
    assert xs[..i] == xs;
  }

  /** The selector's options and the zone selected: every name of the
      curated list and the local zone, each once, in sorted order, with the
      local zone selected. */
  method PopulateTimezones(local: string) returns (options: seq<string>, selected: string)
    ensures StrictlySorted(options)
    ensures forall z :: z in options <==> z in Curated() || z == local
    ensures selected == local && selected in options
  {
    var list := Curated() + [local];
    var unique := Unique(list);
    options := Sort(unique);
    forall z ensures z in options <==> z in unique {
      assert z in options <==> z in multiset(options);
      assert z in unique <==> z in multiset(unique);
    }
    forall i, j | 0 <= i < j < |options| ensures options[i] != options[j] {
      if options[i] == options[j] {
        DuplicateInMultiset(options, i, j);
        assert multiset(unique)[options[i]] >= 2;
        DistinctCountsOnce(unique, options[i]);
      }
    }
    SortedDistinctIsStrict(options);
    selected := local;
  }

  lemma DuplicateInMultiset(s: seq<string>, i: nat, j: nat)
    requires i < j < |s| && s[i] == s[j]
    ensures multiset(s)[s[i]] >= 2
  {
    assert s == s[..i] + [s[i]] + s[i + 1..j] + [s[j]] + s[j + 1..];
  }

  lemma {:induction false} DistinctCountsOnce(s: seq<string>, x: string)
    requires Distinct(s)
    ensures multiset(s)[x] <= 1
  {
    if s != [] {
      assert s == [s[0]] + s[1..];
      assert Distinct(s[1..]);
      DistinctCountsOnce(s[1..], x);
      if s[0] == x {
        assert x !in s[1..];
      }
    }
  }
}
