/** Splitting a day's pair runs over worker processes. */
module Sharding {
  import opened Wrappers
  import opened LongestFirst

  /** One pair run: event rows and file sizes of its legs decide its weight. */
  datatype Runnable = Runnable(
    tradeDate: string, spotSymbol: string, runKey: string, legRows: seq<int>, legFileSizes: seq<Option<int>>)
  {
    function Key(): GroupKey { GroupKey(tradeDate, spotSymbol) }

    function Weight(): (w: nat)
    {
      var rows := RowTotal(legRows);
      if rows > 0 then rows else SizeTotal(legFileSizes)
    }
  }

  /** Pairs of one spot symbol on one date share a cooldown, so they stay together. */
  datatype GroupKey = GroupKey(tradeDate: string, spotSymbol: string)

  function RowTotal(rows: seq<int>): nat {
    if rows == [] then 0 else RowTotal(rows[..|rows| - 1]) + MaxInt(0, rows[|rows| - 1])
  }

  /** A missing file and an empty file both weigh one. */
  function SizeTotal(sizes: seq<Option<int>>): nat {
    if sizes == [] then 0
    else
      var last := sizes[|sizes| - 1];
      SizeTotal(sizes[..|sizes| - 1]) + if last.Some? then MaxInt(1, last.value) else 1
  }

  datatype Group = Group(key: GroupKey, items: seq<Runnable>)

  function WeightOf(items: seq<Runnable>): nat {
    if items == [] then 0 else WeightOf(items[..|items| - 1]) + items[|items| - 1].Weight()
  }

  // ---------------------------------------------------------------- grouping and ordering

  /** dict.setdefault(key, []).append(item): groups keep the order of first appearance. */
  function AddToGroup(groups: seq<Group>, item: Runnable): seq<Group> {
    if groups == [] then [Group(item.Key(), [item])]
    else if groups[0].key == item.Key() then [Group(groups[0].key, groups[0].items + [item])] + groups[1..]
    else [groups[0]] + AddToGroup(groups[1..], item)
  }

  function GroupAll(items: seq<Runnable>): seq<Group> {
    if items == [] then [] else AddToGroup(GroupAll(items[..|items| - 1]), items[|items| - 1])
  }

  /** Text order. */
  predicate TextLess(a: string, b: string) {
    b != [] && (a == [] || a[0] < b[0] || (a[0] == b[0] && TextLess(a[1..], b[1..])))
  }

  function LeastRunKey(items: seq<Runnable>): string {
    if items == [] then ""
    else if |items| == 1 then items[0].runKey
    else
      var least := LeastRunKey(items[..|items| - 1]);
      var last := items[|items| - 1].runKey;
      if TextLess(last, least) then last else least
  }

  /** The heavier group first, then the one with the lesser run key. */
  predicate Precedes(a: Group, b: Group) {
    var x, y := WeightOf(a.items), WeightOf(b.items);
    x > y || (x == y && TextLess(LeastRunKey(a.items), LeastRunKey(b.items)))
  }

  function InsertGroup(groups: seq<Group>, g: Group): seq<Group> {
    if groups == [] || !Precedes(g, groups[|groups| - 1]) then groups + [g]
    else InsertGroup(groups[..|groups| - 1], g) + [groups[|groups| - 1]]
  }

  function SortGroups(groups: seq<Group>): seq<Group> {
    if groups == [] then [] else InsertGroup(SortGroups(groups[..|groups| - 1]), groups[|groups| - 1])
  }

  function InsertItem(items: seq<Runnable>, item: Runnable): (r: seq<Runnable>)
    ensures multiset(r) == multiset(items) + multiset{item}
  {
    if items == [] || !TextLess(item.runKey, items[|items| - 1].runKey) then items + [item]
    else
      assert items == items[..|items| - 1] + [items[|items| - 1]];
      InsertItem(items[..|items| - 1], item) + [items[|items| - 1]]
  }

  function SortItems(items: seq<Runnable>): (r: seq<Runnable>)
    ensures multiset(r) == multiset(items)
  {
    if items == [] then []
    else
      assert items == items[..|items| - 1] + [items[|items| - 1]];
      InsertItem(SortItems(items[..|items| - 1]), items[|items| - 1])
  }

  function Weights(groups: seq<Group>): (w: seq<int>)
    ensures |w| == |groups| && forall k :: 0 <= k < |groups| ==> w[k] == WeightOf(groups[k].items)
  {
    seq(|groups|, k requires 0 <= k < |groups| => WeightOf(groups[k].items))
  }

  // ---------------------------------------------------------------- shards

  function ShardCount(workers: int, items: nat): (m: nat)
    ensures m > 0
  {
    MaxInt(1, MinInt(workers, if items == 0 then 1 else items))
  }

  /** The items of the groups assigned to machine `i`, group by group. */
  function ShardOf(groups: seq<Group>, f: seq<nat>, i: nat): seq<Runnable>
    requires |f| == |groups|
  {
    if groups == [] then []
    else
      var n := |groups| - 1;
      ShardOf(groups[..n], f[..n], i) + if f[n] == i then SortItems(groups[n].items) else []
  }

  function AllShards(groups: seq<Group>, f: seq<nat>, m: nat): (r: seq<seq<Runnable>>)
    requires |f| == |groups|
    ensures |r| == m && forall i :: 0 <= i < m ==> r[i] == ShardOf(groups, f, i)
  {
    seq(m, i requires 0 <= i < m => ShardOf(groups, f, i))
  }

  function DropEmpty(shards: seq<seq<Runnable>>): seq<seq<Runnable>> {
    if shards == [] then []
    else DropEmpty(shards[..|shards| - 1]) + if shards[|shards| - 1] == [] then [] else [shards[|shards| - 1]]
  }

  function OrderedGroups(items: seq<Runnable>): seq<Group> { SortGroups(GroupAll(items)) }

  function Placement(items: seq<Runnable>, m: nat): (f: seq<nat>)
    requires m > 0
    ensures Assigns(f, |OrderedGroups(items)|, m)
  {
    Greedy(Weights(OrderedGroups(items)), m)
  }

  function BalancedShards(items: seq<Runnable>, workers: int): seq<seq<Runnable>> {
    var m := ShardCount(workers, |items|);
    DropEmpty(AllShards(OrderedGroups(items), Placement(items, m), m))
  }

  /** balanced_backtest_shards. */
  method BalancedBacktestShards(items: seq<Runnable>, workers: int) returns (kept: seq<seq<Runnable>>)
    ensures kept == BalancedShards(items, workers)
  {
    var m := ShardCount(workers, |items|);
    var groups: seq<Group> := [];
    for k := 0 to |items|
      invariant groups == GroupAll(items[..k])
    {
      assert items[..k + 1][..k] == items[..k];
      groups := AddToGroup(groups, items[k]);
    }
    assert items[..|items|] == items;
    groups := SortGroups(groups);
    var shards := PlaceGroups(groups, m);
    kept := [];
    for i := 0 to m
      invariant kept == DropEmpty(shards[..i])
    {
      assert shards[..i + 1][..i] == shards[..i];
      if shards[i] != [] { kept := kept + [shards[i]]; }
    }
    assert shards[..m] == shards;
  }

  function Loads(w: seq<int>, f: seq<nat>, m: nat): (r: seq<int>)
    requires |f| == |w|
    ensures |r| == m && forall i :: 0 <= i < m ==> r[i] == LoadOn(w, f, i)
  {
    seq(m, i requires 0 <= i < m => LoadOn(w, f, i))
  }

  /** The first k groups are placed as the assignment says. */
  ghost predicate PlacedBy(
    groups: seq<Group>, f: seq<nat>, m: nat, k: nat, totals: seq<int>, shards: seq<seq<Runnable>>)
    requires |f| == |groups| && k <= |groups|
  {
    totals == Loads(Weights(groups)[..k], f[..k], m) && shards == AllShards(groups[..k], f[..k], m)
  }

  /** The first k groups are placed: totals and shards are those of the greedy assignment. */
  ghost predicate PlacedSoFar(groups: seq<Group>, m: nat, k: nat, totals: seq<int>, shards: seq<seq<Runnable>>)
    requires m > 0 && k <= |groups|
  {
    PlacedBy(groups, Greedy(Weights(groups), m), m, k, totals, shards)
  }

  /** Each group goes to the least loaded shard so far. */
  method PlaceGroups(groups: seq<Group>, m: nat) returns (shards: seq<seq<Runnable>>)
    requires m > 0
    ensures shards == AllShards(groups, Greedy(Weights(groups), m), m)
  {
    hide PlacedSoFar, SortItems, WeightOf, AllShards, Greedy, Weights, LeastLoaded;
    shards := seq(m, i => []);
    var totals := seq(m, i => 0);
    NothingPlaced(groups, m);
    for k := 0 to |groups|
      invariant |totals| == |shards| == m
      invariant PlacedSoFar(groups, m, k, totals, shards)
    {
      var index := LeastTotal(groups, k, totals, shards);
      PlaceStep(groups, m, k, totals, shards, index);
      shards := shards[index := shards[index] + SortItems(groups[k].items)];
      totals := totals[index := totals[index] + WeightOf(groups[k].items)];
    }
    AllPlaced(groups, m, totals, shards);
  }

  lemma NothingPlaced(groups: seq<Group>, m: nat)
    requires m > 0
    ensures PlacedSoFar(groups, m, 0, seq(m, i => 0), seq(m, i => []))
  {
  }

  lemma AllPlaced(groups: seq<Group>, m: nat, totals: seq<int>, shards: seq<seq<Runnable>>)
    requires m > 0 && PlacedSoFar(groups, m, |groups|, totals, shards)
    ensures shards == AllShards(groups, Greedy(Weights(groups), m), m)
  {
    assert groups[..|groups|] == groups;
    assert Greedy(Weights(groups), m)[..|groups|] == Greedy(Weights(groups), m);
  }

  lemma TotalsStep(w: seq<int>, f: seq<nat>, m: nat, k: nat)
    requires |f| == |w| && k < |w| && f[k] < m
    ensures
      var totals := Loads(w[..k], f[..k], m);
      Loads(w[..k + 1], f[..k + 1], m) == totals[f[k] := totals[f[k]] + w[k]]
  {
    var totals, after := Loads(w[..k], f[..k], m), Loads(w[..k + 1], f[..k + 1], m);
    forall i | 0 <= i < m ensures after[i] == totals[f[k] := totals[f[k]] + w[k]][i] {
      assert w[..k + 1][..k] == w[..k] && f[..k + 1][..k] == f[..k];
    }
  }

  lemma ShardsStep(groups: seq<Group>, f: seq<nat>, m: nat, k: nat)
    requires |f| == |groups| && k < |groups| && f[k] < m
    ensures
      var shards := AllShards(groups[..k], f[..k], m);
      AllShards(groups[..k + 1], f[..k + 1], m) == shards[f[k] := shards[f[k]] + SortItems(groups[k].items)]
  {
    hide SortItems;
    var shards, after := AllShards(groups[..k], f[..k], m), AllShards(groups[..k + 1], f[..k + 1], m);
    var added := SortItems(groups[k].items);
    forall i | 0 <= i < m ensures after[i] == shards[f[k] := shards[f[k]] + added][i] {
      assert groups[..k + 1][..k] == groups[..k] && f[..k + 1][..k] == f[..k];
      assert ShardOf(groups[..k + 1], f[..k + 1], i) == ShardOf(groups[..k], f[..k], i) + if f[k] == i then added else [];
    }
  }

  lemma PlacedNext(groups: seq<Group>, f: seq<nat>, m: nat, k: nat, totals: seq<int>, shards: seq<seq<Runnable>>)
    requires |f| == |groups| && k < |groups| && f[k] < m && PlacedBy(groups, f, m, k, totals, shards)
    ensures |totals| == |shards| == m
    ensures PlacedBy(
      groups, f, m, k + 1,
      totals[f[k] := totals[f[k]] + WeightOf(groups[k].items)],
      shards[f[k] := shards[f[k]] + SortItems(groups[k].items)])
  {
    hide SortItems, WeightOf;
    TotalsStep(Weights(groups), f, m, k);
    ShardsStep(groups, f, m, k);
  }

  lemma PlaceStep(groups: seq<Group>, m: nat, k: nat, totals: seq<int>, shards: seq<seq<Runnable>>, index: nat)
    requires m > 0 && k < |groups| && PlacedSoFar(groups, m, k, totals, shards)
    requires
      var w := Weights(groups);
      index == LeastLoaded(w[..k], Greedy(w, m)[..k], m)
    ensures |totals| == |shards| == m && index < m
    ensures PlacedSoFar(
      groups, m, k + 1,
      totals[index := totals[index] + WeightOf(groups[k].items)],
      shards[index := shards[index] + SortItems(groups[k].items)])
  {
    hide PlacedBy, SortItems, WeightOf, Greedy, LeastLoaded;
    SameLeast(Weights(groups), m, k, index);
    PlacedNext(groups, Greedy(Weights(groups), m), m, k, totals, shards);
  }

  lemma {:induction false} GreedyPrefix(p: seq<int>, m: nat, k: nat)
    requires m > 0 && k <= |p|
    ensures Greedy(p, m)[..k] == Greedy(p[..k], m)
    decreases |p|
  {
    if k == |p| {
      assert p[..k] == p;
    } else {
      GreedyPrefix(p[..|p| - 1], m, k);
      assert p[..|p| - 1][..k] == p[..k];
    }
  }

  lemma SameLeast(w: seq<int>, m: nat, k: nat, index: nat)
    requires m > 0 && k < |w| && index == LeastLoaded(w[..k], Greedy(w, m)[..k], m)
    ensures Greedy(w, m)[k] == index
  {
    GreedyPrefix(w, m, k);
    GreedyPrefix(w, m, k + 1);
    assert w[..k + 1][..k] == w[..k];
    assert Greedy(w, m)[k] == Greedy(w, m)[..k + 1][k];
  }

  /** min(range(shard_count), key=(total, index)). */
  method LeastTotal(groups: seq<Group>, ghost k: nat, totals: seq<int>, ghost shards: seq<seq<Runnable>>)
    returns (index: nat)
    requires |totals| > 0 && k <= |groups| && PlacedSoFar(groups, |totals|, k, totals, shards)
    ensures index < |totals|
    ensures
      var w := Weights(groups);
      index == LeastLoaded(w[..k], Greedy(w, |totals|)[..k], |totals|)
  {
    ghost var w := Weights(groups);
    ghost var f := Greedy(w, |totals|);
    index := 0;
    for i := 1 to |totals|
      invariant index == LeastLoaded(w[..k], f[..k], i) < i
    {
      if totals[i] < totals[index] { index := i; }
    }
  }
}
