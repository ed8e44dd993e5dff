// How many repositories require each package, and which packages are selected
// at a prevalence threshold. Prevalence is kept as an exact fraction.
module Prevalence {
  import opened Prelude
  import opened Sorting

  // `deps` lists the names a repository's manifest requires, in order.
  datatype Repo = Repo(hasManifest: bool, deps: seq<string>)

  datatype Entry = Entry(rank: nat, name: string, count: nat)

  predicate Lists(r: Repo, name: string) { r.hasManifest && name in r.deps }

  // The number of manifest-bearing repositories that list the package at all.
  function RepoCount(repos: seq<Repo>, name: string): nat {
    if repos == [] then 0
    else RepoCount(repos[..|repos| - 1], name) + if Lists(repos[|repos| - 1], name) then 1 else 0
  }

  // One for each repository whose manifest lists the name, however often.
  lemma {:induction false} RepoCountIs(repos: seq<Repo>, name: string)
    ensures RepoCount(repos, name) == |set i: nat | i < |repos| && repos[i].hasManifest && name in repos[i].deps|
  {
    var all := set i: nat | i < |repos| && repos[i].hasManifest && name in repos[i].deps;
    if repos == [] {
      assert all == {};
    } else {
      RepoCountIs(repos[..|repos| - 1], name);
      OneMoreRepo(repos, name);
    }
  }

  lemma OneMoreRepo(repos: seq<Repo>, name: string)
    requires repos != []
    ensures var n := |repos| - 1;
      var all := set i: nat | i < |repos| && repos[i].hasManifest && name in repos[i].deps;
      var before := set i: nat | i < |repos[..n]| && repos[..n][i].hasManifest && name in repos[..n][i].deps;
      |all| == |before| + if Lists(repos[n], name) then 1 else 0
  {
    var n := |repos| - 1;
    var front := repos[..n];
    var all := set i: nat | i < |repos| && repos[i].hasManifest && name in repos[i].deps;
    var before := set i: nat | i < |front| && front[i].hasManifest && name in front[i].deps;
    forall i: nat ensures i in all <==> i in before || (i == n && Lists(repos[n], name)) {
      assert i < n ==> front[i] == repos[i];
    }
    assert all == before + if Lists(repos[n], name) then {n} else {};
  }

  // The counter after the first repositories, and the names in the order they
  // were first counted.
  ghost predicate Counted(order: seq<string>, counts: map<string, nat>, repos: seq<Repo>) {
    && NoDuplicates(order) && (forall name :: name in counts <==> name in order)
    && (forall name :: name in counts ==> counts[name] == RepoCount(repos, name) > 0)
    && (forall name :: name !in counts ==> RepoCount(repos, name) == 0)
  }

  // The same in the middle of one repository, with `seen` counted already.
  ghost predicate CountedPart(order: seq<string>, counts: map<string, nat>, repos: seq<Repo>, seen: set<string>) {
    && NoDuplicates(order) && (forall name :: name in counts <==> name in order)
    && (forall name :: name in counts ==> counts[name] == RepoCount(repos, name) + (if name in seen then 1 else 0) > 0)
    && (forall name :: name !in counts ==> RepoCount(repos, name) == 0 && name !in seen)
  }

  method CountRepo(order: seq<string>, counts: map<string, nat>, ghost repos: seq<Repo>, deps: seq<string>)
    returns (order': seq<string>, counts': map<string, nat>)
    requires CountedPart(order, counts, repos, {})
    ensures CountedPart(order', counts', repos, Elements(deps))
    ensures order <= order'
  {
    order', counts' := order, counts;
    var seen: set<string> := {};
    for i := 0 to |deps|
      invariant seen == Elements(deps[..i])
      invariant CountedPart(order', counts', repos, seen) && order <= order'
    {
      var name := deps[i];
      assert deps[..i + 1] == deps[..i] + [name];
      assert Elements(deps[..i + 1]) == Elements(deps[..i]) + {name};
      if name in seen {
        continue;
      }
      seen := seen + {name};
      if name !in counts' {
        order' := order' + [name];
      }
      counts' := counts'[name := (if name in counts' then counts'[name] else 0) + 1];
    }
    assert deps[..|deps|] == deps;
  }

  method CountRepos(repos: seq<Repo>) returns (order: seq<string>, counts: map<string, nat>)
    ensures Counted(order, counts, repos)
  {
    order, counts := [], map[];
    for i := 0 to |repos|
      invariant Counted(order, counts, repos[..i])
    {
      assert repos[..i + 1][..i] == repos[..i];
      if repos[i].hasManifest {
        order, counts := CountRepo(order, counts, repos[..i], repos[i].deps);
      }
    }
    assert repos[..|repos|] == repos;
  }

  datatype Item = Item(name: string, count: nat)

  predicate MoreOften(a: Item, b: Item) { a.count >= b.count }

  function Items(order: seq<string>, counts: map<string, nat>): (r: seq<Item>)
    requires forall name :: name in order ==> name in counts
    ensures |r| == |order| && forall i :: 0 <= i < |order| ==> r[i] == Item(order[i], counts[order[i]])
  {
    if order == [] then []
    else Items(order[..|order| - 1], counts) + [Item(order[|order| - 1], counts[order[|order| - 1]])]
  }

  // A curve: ranks from 1, counts descending, each package once with its count.
  ghost predicate IsCurve(curve: seq<Entry>, repos: seq<Repo>) {
    && (forall i :: 0 <= i < |curve| ==>
          curve[i].rank == i + 1 && curve[i].count == RepoCount(repos, curve[i].name) > 0)
    && (forall i, j :: 0 <= i < j < |curve| ==> curve[i].count >= curve[j].count && curve[i].name != curve[j].name)
    && (forall name :: RepoCount(repos, name) > 0 ==> exists i :: 0 <= i < |curve| && curve[i].name == name)
  }

  // The curve, or nothing when a prevalence would divide by zero.
  method ComputeCurve(repos: seq<Repo>, reposWithManifest: nat) returns (curve: Option<seq<Entry>>)
    ensures curve.None? <==> reposWithManifest == 0 && exists name :: RepoCount(repos, name) > 0
    ensures curve.Some? ==> IsCurve(curve.value, repos)
  {
    var order, counts := CountRepos(repos);
    if order != [] && reposWithManifest == 0 {
      assert order[0] in order && RepoCount(repos, order[0]) > 0;
      return None;
    }
    assert forall name :: RepoCount(repos, name) > 0 ==> name in order;
    var out := RankItems(order, counts, repos);
    return Some(out);
  }

  method RankItems(order: seq<string>, counts: map<string, nat>, ghost repos: seq<Repo>) returns (curve: seq<Entry>)
    requires Counted(order, counts, repos)
    ensures IsCurve(curve, repos)
  {
    var items := SortBy(MoreOften, Items(order, counts));
    RankedOrder(order, counts, items);
    RankedOnce(order, counts, items);
    curve := Enumerate(items);
    CurveOf(order, counts, repos, items, curve);
  }

  method Enumerate(items: seq<Item>) returns (curve: seq<Entry>)
    ensures |curve| == |items|
    ensures forall k :: 0 <= k < |items| ==> curve[k] == Entry(k + 1, items[k].name, items[k].count)
  {
    curve := [];
    for i := 0 to |items|
      invariant |curve| == i && forall k :: 0 <= k < i ==> curve[k] == Entry(k + 1, items[k].name, items[k].count)
    {
      curve := curve + [Entry(i + 1, items[i].name, items[i].count)];
    }
  }

  lemma CurveOf(order: seq<string>, counts: map<string, nat>, repos: seq<Repo>, items: seq<Item>, curve: seq<Entry>)
    requires Counted(order, counts, repos) && Sorted(MoreOften, items)
    requires forall i, j :: 0 <= i < j < |items| ==> items[i].name != items[j].name
    requires forall i :: 0 <= i < |items| ==> items[i].name in order && items[i].count == counts[items[i].name]
    requires forall name :: name in order ==> Item(name, counts[name]) in items
    requires |curve| == |items|
    requires forall k :: 0 <= k < |items| ==> curve[k] == Entry(k + 1, items[k].name, items[k].count)
    ensures IsCurve(curve, repos)
  {
    hide RepoCount;
    forall i, j | 0 <= i < j < |curve| ensures curve[i].count >= curve[j].count {
      assert MoreOften(items[i], items[j]);
    }
    forall name | RepoCount(repos, name) > 0 ensures exists i :: 0 <= i < |curve| && curve[i].name == name {
      var i :| 0 <= i < |items| && items[i] == Item(name, counts[name]);
      assert curve[i].name == name;
    }
  }

  // Sorting the counter's items keeps every package, most frequent first.
  lemma RankedOrder(order: seq<string>, counts: map<string, nat>, items: seq<Item>)
    requires forall name :: name in order ==> name in counts
    requires items == SortBy(MoreOften, Items(order, counts))
    ensures |items| == |order| && Sorted(MoreOften, items)
    ensures forall i :: 0 <= i < |items| ==> items[i].name in order && items[i].count == counts[items[i].name]
    ensures forall name :: name in order ==> Item(name, counts[name]) in items
  {
    var given := Items(order, counts);
    SortMultiset(MoreOften, given);
    SortSorted(MoreOften, given);
    hide SortBy, Sorted, MoreOften, Items;
    SameElements(items, given);
    Carried(order, counts, given, items);
  }

  // What a list of items says is carried by any rearrangement of it.
  lemma Carried(order: seq<string>, counts: map<string, nat>, given: seq<Item>, items: seq<Item>)
    requires forall name :: name in order ==> name in counts
    requires |given| == |order| && forall i :: 0 <= i < |order| ==> given[i] == Item(order[i], counts[order[i]])
    requires forall x :: x in items <==> x in given
    ensures forall i :: 0 <= i < |items| ==> items[i].name in order && items[i].count == counts[items[i].name]
    ensures forall name :: name in order ==> Item(name, counts[name]) in items
  {
    forall i | 0 <= i < |items| ensures items[i].name in order && items[i].count == counts[items[i].name] {
      assert items[i] in items;
      var k :| 0 <= k < |given| && given[k] == items[i];
      assert order[k] == items[i].name;
    }
    forall name | name in order ensures Item(name, counts[name]) in items {
      var k :| 0 <= k < |order| && order[k] == name;
      assert given[k] in items;
    }
  }

  lemma SameElements(a: seq<Item>, b: seq<Item>)
    requires multiset(a) == multiset(b)
    ensures |a| == |b| && forall x :: x in a <==> x in b
  {
    forall x ensures x in a <==> x in b {
      assert x in a <==> x in multiset(a);
    }
    assert |multiset(a)| == |a|;
  }

  // And it keeps each package once.
  lemma RankedOnce(order: seq<string>, counts: map<string, nat>, items: seq<Item>)
    requires NoDuplicates(order) && (forall name :: name in order ==> name in counts)
    requires items == SortBy(MoreOften, Items(order, counts))
    ensures forall i, j :: 0 <= i < j < |items| ==> items[i].name != items[j].name
  {
    RankedOrder(order, counts, items);
    SortMultiset(MoreOften, Items(order, counts));
    hide SortBy, Items, Sorted;
    forall i, j | 0 <= i < j < |items| ensures items[i].name != items[j].name {
      Once(order, counts, items[i]);
      TwiceIn(items, i, j);
    }
  }

  lemma {:induction false} Once(order: seq<string>, counts: map<string, nat>, x: Item)
    requires NoDuplicates(order) && (forall name :: name in order ==> name in counts)
    ensures multiset(Items(order, counts))[x] <= 1
  {
    if order != [] {
      var n := |order| - 1;
      var rest := Items(order[..n], counts);
      Once(order[..n], counts, x);
      if multiset(rest)[x] > 0 {
        assert x in rest;
        assert x.name in order[..n];
      }
    }
  }

  // ---- the threshold num/den ----

  // count / repos >= num / den
  predicate Meets(count: nat, reposWithManifest: nat, num: nat, den: nat) {
    count * den >= num * reposWithManifest
  }

  // Meeting the threshold is not lost to a tie, and rounding plays no part.
  lemma MeetsIff(count: nat, reposWithManifest: nat, num: nat, den: nat)
    requires reposWithManifest > 0 && den > 0
    ensures Meets(count, reposWithManifest, num, den)
      <==> count as real / reposWithManifest as real >= num as real / den as real
  {
    FractionsLe(num as real, den as real, count as real, reposWithManifest as real);
    RealProduct(count, den);
    RealProduct(num, reposWithManifest);
  }

  lemma RealProduct(a: nat, b: nat)
    ensures (a * b) as real == a as real * b as real
  {
  }

  lemma FractionsLe(a: real, b: real, c: real, d: real)
    requires b > 0.0 && d > 0.0
    ensures a / b <= c / d <==> a * d <= c * b
  {
    var p, q := a / b, c / d;
    ScaleReal(p, q, b);
    ScaleReal(p * b, q * b, d);
    calc {
      (q * b) * d;
    ==
      (q * d) * b;
    ==
      c * b;
    }
    assert p * b == a;
  }

  lemma ScaleReal(p: real, q: real, factor: real)
    requires factor > 0.0
    ensures p <= q <==> p * factor <= q * factor
  {
    if p <= q {
      assert (q - p) * factor >= 0.0;
    } else {
      assert (p - q) * factor > 0.0;
    }
  }

  // The rank of the last entry before the first one below the threshold.
  method FindK(curve: seq<Entry>, reposWithManifest: nat, num: nat, den: nat) returns (k: nat, ghost n: nat)
    ensures n <= |curve| && k == (if n == 0 then 0 else curve[n - 1].rank)
    ensures forall i :: 0 <= i < n ==> Meets(curve[i].count, reposWithManifest, num, den)
    ensures n < |curve| ==> !Meets(curve[n].count, reposWithManifest, num, den)
    ensures (forall i :: 0 <= i < |curve| ==> curve[i].rank == i + 1) ==> IsK(curve, reposWithManifest, num, den, k)
  {
    k, n := 0, 0;
    for i := 0 to |curve|
      invariant n == i && k == (if n == 0 then 0 else curve[n - 1].rank)
      invariant forall j :: 0 <= j < i ==> Meets(curve[j].count, reposWithManifest, num, den)
    {
      if Meets(curve[i].count, reposWithManifest, num, den) {
        k, n := curve[i].rank, i + 1;
      } else {
        break;
      }
    }
  }

  // k is where a scan of the curve stops.
  ghost predicate IsK(curve: seq<Entry>, reposWithManifest: nat, num: nat, den: nat, k: nat) {
    && k <= |curve|
    && (forall i :: 0 <= i < k ==> Meets(curve[i].count, reposWithManifest, num, den))
    && (k < |curve| ==> !Meets(curve[k].count, reposWithManifest, num, den))
  }

  lemma MeetsMonotone(a: nat, b: nat, reposWithManifest: nat, num: nat, den: nat)
    requires a <= b && Meets(a, reposWithManifest, num, den)
    ensures Meets(b, reposWithManifest, num, den)
  {
    assert a * den <= b * den;
  }

  // The first k packages are exactly those whose prevalence meets the threshold.
  lemma SelectionExact(curve: seq<Entry>, repos: seq<Repo>, reposWithManifest: nat,
                       num: nat, den: nat, k: nat, name: string)
    requires IsCurve(curve, repos) && IsK(curve, reposWithManifest, num, den, k) && RepoCount(repos, name) > 0
    ensures Meets(RepoCount(repos, name), reposWithManifest, num, den)
      <==> exists i :: 0 <= i < k && curve[i].name == name
  {
    hide Meets;
    var i :| 0 <= i < |curve| && curve[i].name == name;
    if i >= k && Meets(curve[i].count, reposWithManifest, num, den) {
      MeetsMonotone(curve[i].count, curve[k].count, reposWithManifest, num, den);
    }
  }

  // A higher threshold selects a prefix of what a lower one selects.
  lemma SelectionsNested(curve: seq<Entry>, repos: seq<Repo>, reposWithManifest: nat,
                         num: nat, den: nat, num': nat, den': nat, k: nat, k': nat)
    requires IsCurve(curve, repos) && den > 0 && den' > 0 && num * den' <= num' * den
    requires IsK(curve, reposWithManifest, num, den, k) && IsK(curve, reposWithManifest, num', den', k')
    ensures k' <= k
  {
    if k < k' {
      HigherThreshold(curve[k].count, reposWithManifest, num, den, num', den');
    }
  }

  lemma HigherThreshold(count: nat, repos: nat, num: nat, den: nat, num': nat, den': nat)
    requires den > 0 && den' > 0 && num * den' <= num' * den && Meets(count, repos, num', den')
    ensures Meets(count, repos, num, den)
  {
    calc {
      (num * repos) * den';
    ==
      (num * den') * repos;
    <= { Scale(num * den', num' * den, repos); }
      (num' * den) * repos;
    ==
      (num' * repos) * den;
    <= { Scale(num' * repos, count * den', den); }
      (count * den') * den;
    ==
      (count * den) * den';
    }
    Cancel(num * repos, count * den, den');
  }

  lemma Cancel(a: nat, b: nat, factor: nat)
    requires factor > 0 && a * factor <= b * factor
    ensures a <= b
  {
    assert a > b ==> (a - b) * factor > 0;
  }

  lemma Scale(a: nat, b: nat, factor: nat)
    requires a <= b
    ensures a * factor <= b * factor
  {
  }
}
