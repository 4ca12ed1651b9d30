/** Every pair lands in one shard with its group, and no shard is much heavier than it must be. */
module ShardingProperties {
  import opened LongestFirst
  import opened Sharding

  // ---------------------------------------------------------------- sums over groups

  function Values(groups: seq<Group>, v: Group -> int): (r: seq<int>)
    ensures |r| == |groups| && forall k :: 0 <= k < |groups| ==> r[k] == v(groups[k])
  {
    seq(|groups|, k requires 0 <= k < |groups| => v(groups[k]))
  }

  function ItemSum(items: seq<Runnable>, u: Runnable -> int): int {
    if items == [] then 0 else ItemSum(items[..|items| - 1], u) + u(items[|items| - 1])
  }

  lemma {:induction false} SumConcat(a: seq<int>, b: seq<int>)
    ensures Sum(a + b) == Sum(a) + Sum(b)
    decreases |b|
  {
    if b == [] {
      assert a + b == a;
    } else {
      assert (a + b)[..|a + b| - 1] == a + b[..|b| - 1];
      SumConcat(a, b[..|b| - 1]);
    }
  }

  lemma ValuesConcat(a: seq<Group>, b: seq<Group>, v: Group -> int)
    ensures Sum(Values(a + b, v)) == Sum(Values(a, v)) + Sum(Values(b, v))
  {
    assert Values(a + b, v) == Values(a, v) + Values(b, v);
    SumConcat(Values(a, v), Values(b, v));
  }

  lemma ValuesOne(g: Group, v: Group -> int)
    ensures Sum(Values([g], v)) == v(g)
  {
  }

  /** A group's value grows by each item's. */
  ghost predicate Additive(v: Group -> int, u: Runnable -> int) {
    forall key: GroupKey, items: seq<Runnable>, item: Runnable ::
      item.Key() == key ==> v(Group(key, items + [item])) == (if items == [] then 0 else v(Group(key, items))) + u(item)
  }

  lemma {:induction false} AddToGroupSum(groups: seq<Group>, item: Runnable, v: Group -> int, u: Runnable -> int)
    requires Additive(v, u) && forall g :: g in groups ==> g.items != []
    ensures Sum(Values(AddToGroup(groups, item), v)) == Sum(Values(groups, v)) + u(item)
    ensures forall g :: g in AddToGroup(groups, item) ==> g.items != []
    decreases |groups|
  {
    if groups == [] {
      assert [] + [item] == [item];
      assert v(Group(item.Key(), [] + [item])) == u(item);
      ValuesOne(Group(item.Key(), [item]), v);
    } else {
      var g, rest := groups[0], groups[1..];
      assert groups == [g] + rest;
      ValuesConcat([g], rest, v);
      ValuesOne(g, v);
      if g.key == item.Key() {
        var grown := Group(g.key, g.items + [item]);
        ValuesConcat([grown], rest, v);
        ValuesOne(grown, v);
        assert v(Group(g.key, g.items + [item])) == v(Group(g.key, g.items)) + u(item);
      } else {
        AddToGroupSum(rest, item, v, u);
        ValuesConcat([g], AddToGroup(rest, item), v);
      }
    }
  }

  lemma {:induction false} GroupAllSum(items: seq<Runnable>, v: Group -> int, u: Runnable -> int)
    requires Additive(v, u)
    ensures Sum(Values(GroupAll(items), v)) == ItemSum(items, u)
    ensures forall g :: g in GroupAll(items) ==> g.items != []
    decreases |items|
  {
    if items != [] {
      var n := |items| - 1;
      GroupAllSum(items[..n], v, u);
      AddToGroupSum(GroupAll(items[..n]), items[n], v, u);
    }
  }

  lemma {:induction false} InsertGroupSum(groups: seq<Group>, g: Group, v: Group -> int)
    ensures Sum(Values(InsertGroup(groups, g), v)) == Sum(Values(groups, v)) + v(g)
    decreases |groups|
  {
    ValuesOne(g, v);
    if groups == [] || !Precedes(g, groups[|groups| - 1]) {
      ValuesConcat(groups, [g], v);
    } else {
      var front, last := groups[..|groups| - 1], groups[|groups| - 1];
      assert groups == front + [last];
      InsertGroupSum(front, g, v);
      ValuesConcat(front, [last], v);
      ValuesConcat(InsertGroup(front, g), [last], v);
    }
  }

  lemma {:induction false} SortGroupsSum(groups: seq<Group>, v: Group -> int)
    ensures Sum(Values(SortGroups(groups), v)) == Sum(Values(groups, v))
    decreases |groups|
  {
    if groups != [] {
      var front, last := groups[..|groups| - 1], groups[|groups| - 1];
      assert groups == front + [last];
      SortGroupsSum(front, v);
      InsertGroupSum(SortGroups(front), last, v);
      ValuesConcat(front, [last], v);
      ValuesOne(last, v);
    }
  }

  /** Summing over the ordered groups is summing over the items. */
  lemma OrderedGroupsSum(items: seq<Runnable>, v: Group -> int, u: Runnable -> int)
    requires Additive(v, u)
    ensures Sum(Values(OrderedGroups(items), v)) == ItemSum(items, u)
  {
    GroupAllSum(items, v, u);
    SortGroupsSum(GroupAll(items), v);
  }

  // ---------------------------------------------------------------- longest first

  lemma {:induction false} InsertMembers(groups: seq<Group>, g: Group)
    ensures forall h :: h in InsertGroup(groups, g) <==> h in groups || h == g
    decreases |groups|
  {
    hide Precedes;
    if groups != [] {
      var n := |groups| - 1;
      assert groups == groups[..n] + [groups[n]];
      InsertMembers(groups[..n], g);
    }
  }

  /** Descending weights, and the weight after them. */
  lemma DescendingSnoc(groups: seq<Group>, last: Group)
    requires Descending(Weights(groups))
    requires forall h :: h in groups ==> WeightOf(h.items) >= WeightOf(last.items)
    ensures Descending(Weights(groups + [last]))
  {
  }

  lemma DescendingFront(groups: seq<Group>)
    requires groups != [] && Descending(Weights(groups))
    ensures
      var front, last := groups[..|groups| - 1], groups[|groups| - 1];
      Descending(Weights(front)) && forall h :: h in front ==> WeightOf(h.items) >= WeightOf(last.items)
  {
  }

  lemma {:induction false} InsertKeepsOrder(groups: seq<Group>, g: Group)
    requires Descending(Weights(groups))
    ensures Descending(Weights(InsertGroup(groups, g)))
    decreases |groups|
  {
    hide WeightOf, Descending;
    if groups == [] || !Precedes(g, groups[|groups| - 1]) {
      LastIsLightest(groups, g);
      DescendingSnoc(groups, g);
    } else {
      var front, last := groups[..|groups| - 1], groups[|groups| - 1];
      DescendingFront(groups);
      InsertKeepsOrder(front, g);
      InsertMembers(front, g);
      DescendingSnoc(InsertGroup(front, g), last);
    }
  }

  lemma LastIsLightest(groups: seq<Group>, g: Group)
    requires Descending(Weights(groups)) && (groups != [] ==> WeightOf(groups[|groups| - 1].items) >= WeightOf(g.items))
    ensures forall h :: h in groups ==> WeightOf(h.items) >= WeightOf(g.items)
  {
  }

  lemma {:induction false} SortIsLongestFirst(groups: seq<Group>)
    ensures Descending(Weights(SortGroups(groups)))
    decreases |groups|
  {
    if groups != [] {
      var front, last := groups[..|groups| - 1], groups[|groups| - 1];
      assert groups == front + [last];
      SortIsLongestFirst(front);
      InsertKeepsOrder(SortGroups(front), last);
    }
  }

  // ---------------------------------------------------------------- weights

  lemma {:induction false} WeightConcat(a: seq<Runnable>, b: seq<Runnable>)
    ensures WeightOf(a + b) == WeightOf(a) + WeightOf(b)
    decreases |b|
  {
    if b == [] {
      assert a + b == a;
    } else {
      assert (a + b)[..|a + b| - 1] == a + b[..|b| - 1];
      WeightConcat(a, b[..|b| - 1]);
    }
  }

  lemma {:induction false} InsertItemWeight(items: seq<Runnable>, item: Runnable)
    ensures WeightOf(InsertItem(items, item)) == WeightOf(items) + item.Weight()
    decreases |items|
  {
    if items != [] && TextLess(item.runKey, items[|items| - 1].runKey) {
      InsertItemWeight(items[..|items| - 1], item);
    }
  }

  lemma {:induction false} SortItemsWeight(items: seq<Runnable>)
    ensures WeightOf(SortItems(items)) == WeightOf(items)
    decreases |items|
  {
    if items != [] {
      SortItemsWeight(items[..|items| - 1]);
      InsertItemWeight(SortItems(items[..|items| - 1]), items[|items| - 1]);
    }
  }

  /** A shard weighs what the greedy placement counted for its machine. */
  lemma {:induction false} ShardWeight(groups: seq<Group>, f: seq<nat>, i: nat)
    requires |f| == |groups|
    ensures WeightOf(ShardOf(groups, f, i)) == LoadOn(Weights(groups), f, i)
    decreases |groups|
  {
    if groups != [] {
      var n := |groups| - 1;
      assert Weights(groups)[..n] == Weights(groups[..n]);
      ShardWeight(groups[..n], f[..n], i);
      SortItemsWeight(groups[n].items);
      WeightConcat(ShardOf(groups[..n], f[..n], i), SortItems(groups[n].items));
      assert ShardOf(groups[..n], f[..n], i) + [] == ShardOf(groups[..n], f[..n], i);
    }
  }

  // ---------------------------------------------------------------- any other placement of groups

  /** The weight a placement of the groups puts on worker `i`. */
  function LoadUnder(items: seq<Runnable>, place: GroupKey -> nat, i: nat): int {
    ItemSum(items, (r: Runnable) => if place(r.Key()) == i then r.Weight() else 0)
  }

  function Places(groups: seq<Group>, place: GroupKey -> nat): (f: seq<nat>)
    ensures |f| == |groups| && forall k :: 0 <= k < |groups| ==> f[k] == place(groups[k].key)
  {
    if groups == [] then [] else Places(groups[..|groups| - 1], place) + [place(groups[|groups| - 1].key)]
  }

  function WeightAt(place: GroupKey -> nat, i: nat): Group -> int {
    (g: Group) => if place(g.key) == i then WeightOf(g.items) else 0
  }

  lemma {:induction false} PlacesLoad(groups: seq<Group>, place: GroupKey -> nat, i: nat)
    ensures LoadOn(Weights(groups), Places(groups, place), i) == Sum(Values(groups, WeightAt(place, i)))
    decreases |groups|
  {
    if groups != [] {
      var n := |groups| - 1;
      assert Weights(groups)[..n] == Weights(groups[..n]);
      assert Places(groups, place)[..n] == Places(groups[..n], place);
      assert Values(groups, WeightAt(place, i))[..n] == Values(groups[..n], WeightAt(place, i));
      PlacesLoad(groups[..n], place, i);
    }
  }

  lemma WeightAtAdditive(place: GroupKey -> nat, i: nat)
    ensures Additive(WeightAt(place, i), (r: Runnable) => if place(r.Key()) == i then r.Weight() else 0)
  {
  }

  lemma LoadUnderIsLoadOn(items: seq<Runnable>, place: GroupKey -> nat, i: nat)
    ensures LoadOn(Weights(OrderedGroups(items)), Places(OrderedGroups(items), place), i) == LoadUnder(items, place, i)
  {
    WeightAtAdditive(place, i);
    OrderedGroupsSum(items, WeightAt(place, i), (r: Runnable) => if place(r.Key()) == i then r.Weight() else 0);
    PlacesLoad(OrderedGroups(items), place, i);
  }

  lemma {:induction false} KeptShards(shards: seq<seq<Runnable>>, shard: seq<Runnable>)
    ensures shard in DropEmpty(shards) <==> shard in shards && shard != []
    ensures |DropEmpty(shards)| <= |shards|
    decreases |shards|
  {
    if shards != [] {
      var n := |shards| - 1;
      KeptShards(shards[..n], shard);
      assert shards == shards[..n] + [shards[n]];
    }
  }

  /** A shard weighs what one machine of the greedy placement carries. */
  lemma ShardIsMachine(items: seq<Runnable>, workers: int, shard: seq<Runnable>) returns (i: nat)
    requires shard in BalancedShards(items, workers)
    ensures
      var m := ShardCount(workers, |items|);
      var w := Weights(OrderedGroups(items));
      i < m && WeightOf(shard) == LoadOn(w, Greedy(w, m), i)
  {
    var m := ShardCount(workers, |items|);
    var groups := OrderedGroups(items);
    var shards := AllShards(groups, Placement(items, m), m);
    hide OrderedGroups, DropEmpty, ShardOf;
    KeptShards(shards, shard);
    i :| 0 <= i < m && shards[i] == shard;
    ShardWeight(groups, Placement(items, m), i);
  }

  lemma PlacementFits(items: seq<Runnable>, m: nat, place: GroupKey -> nat, T: int)
    requires forall key :: place(key) < m
    requires forall i: nat :: i < m ==> LoadUnder(items, place, i) <= T
    ensures FitsWithin(Weights(OrderedGroups(items)), Places(OrderedGroups(items), place), m, T)
  {
    hide LoadUnder, OrderedGroups;
    forall j: nat | j < m ensures LoadOn(Weights(OrderedGroups(items)), Places(OrderedGroups(items), place), j) <= T {
      LoadUnderIsLoadOn(items, place, j);
    }
  }

  /** Graham's bound for the shards: with m workers, 3m times the heaviest shard is at most (4m - 1)
      times the makespan T of any placement of whole groups on those workers. */
  lemma ShardsNearOptimal(items: seq<Runnable>, workers: int, place: GroupKey -> nat, T: int, shard: seq<Runnable>)
    requires shard in BalancedShards(items, workers)
    requires forall key :: place(key) < ShardCount(workers, |items|)
    requires forall i: nat :: i < ShardCount(workers, |items|) ==> LoadUnder(items, place, i) <= T
    ensures
      var m := ShardCount(workers, |items|);
      3 * m * WeightOf(shard) <= (4 * m - 1) * T
  {
    hide LoadUnder, BalancedShards, Places, ShardCount;
    var m := ShardCount(workers, |items|);
    var groups := OrderedGroups(items);
    var i := ShardIsMachine(items, workers, shard);
    SortIsLongestFirst(GroupAll(items));
    PlacementFits(items, m, place, T);
    hide LoadOn, Greedy, OrderedGroups, FitsWithin;
    GrahamBound(Weights(groups), m, Places(groups, place), T, i);
  }

  /** The weight of one group. */
  function KeyWeight(items: seq<Runnable>, key: GroupKey): int {
    ItemSum(items, (r: Runnable) => if r.Key() == key then r.Weight() else 0)
  }

  lemma {:induction false} TermBelowSum(p: seq<int>, k: nat)
    requires Nonnegative(p) && k < |p|
    ensures p[k] <= Sum(p)
    decreases |p|
  {
    if k == |p| - 1 { SumNonnegative(p[..k]); } else { TermBelowSum(p[..|p| - 1], k); }
  }

  function OnlyKey(key: GroupKey): GroupKey -> nat {
    (other: GroupKey) => if other == key then 1 else 0
  }

  lemma {:induction false} KeyWeightIsLoad(items: seq<Runnable>, key: GroupKey)
    ensures KeyWeight(items, key) == LoadUnder(items, OnlyKey(key), 1)
    decreases |items|
  {
    if items != [] { KeyWeightIsLoad(items[..|items| - 1], key); }
  }

  /** No group of the ordered list outweighs its items. */
  lemma GroupWithinKeyWeight(items: seq<Runnable>, k: nat)
    requires k < |OrderedGroups(items)|
    ensures WeightOf(OrderedGroups(items)[k].items) <= KeyWeight(items, OrderedGroups(items)[k].key)
  {
    hide OrderedGroups, KeyWeight, LoadUnder, LoadOn;
    var groups := OrderedGroups(items);
    var place := OnlyKey(groups[k].key);
    KeyWeightIsLoad(items, groups[k].key);
    LoadUnderIsLoadOn(items, place, 1);
    PlacesLoad(groups, place, 1);
    var values := Values(groups, WeightAt(place, 1));
    assert values[k] == WeightOf(groups[k].items);
    TermBelowSum(values, k);
  }

  lemma {:induction false} SameItemSum(items: seq<Runnable>, u: Runnable -> int, v: Runnable -> int)
    requires forall r :: u(r) == v(r)
    ensures ItemSum(items, u) == ItemSum(items, v)
    decreases |items|
  {
    if items != [] { SameItemSum(items[..|items| - 1], u, v); }
  }

  lemma {:induction false} ItemSumIsWeight(items: seq<Runnable>)
    ensures ItemSum(items, (r: Runnable) => r.Weight()) == WeightOf(items)
    decreases |items|
  {
    if items != [] { ItemSumIsWeight(items[..|items| - 1]); }
  }

  /** The list-scheduling bound: m times the heaviest shard is at most the total weight plus m - 1
      times the heaviest group. */
  lemma ShardsBalanced(items: seq<Runnable>, workers: int, heaviest: int, shard: seq<Runnable>)
    requires shard in BalancedShards(items, workers)
    requires heaviest >= 0 && forall key :: KeyWeight(items, key) <= heaviest
    ensures
      var m := ShardCount(workers, |items|);
      m * WeightOf(shard) <= WeightOf(items) + (m - 1) * heaviest
  {
    var m := ShardCount(workers, |items|);
    var groups := OrderedGroups(items);
    var w := Weights(groups);
    var i := ShardIsMachine(items, workers, shard);
    hide OrderedGroups, KeyWeight, BalancedShards, LoadOn, Greedy, ShardCount;
    forall k | 0 <= k < |w| ensures w[k] <= heaviest {
      GroupWithinKeyWeight(items, k);
      assert KeyWeight(items, groups[k].key) <= heaviest;
    }
    GreedyListBound(w, m, heaviest, i);
    TotalWeight(items);
  }

  lemma TotalWeight(items: seq<Runnable>)
    ensures Sum(Weights(OrderedGroups(items))) == WeightOf(items)
  {
    var one := (key: GroupKey) => 0 as nat;
    var groups := OrderedGroups(items);
    LoadUnderIsLoadOn(items, one, 0);
    SameItemSum(items, (r: Runnable) => if one(r.Key()) == 0 then r.Weight() else 0, (r: Runnable) => r.Weight());
    ItemSumIsWeight(items);
    LoadsAddUp(Weights(groups), Places(groups, one), 1);
    assert LoadBelow(Weights(groups), Places(groups, one), 0) == 0;
  }

  // ---------------------------------------------------------------- a partition

  function CountIn(x: Runnable): Group -> int { (g: Group) => multiset(g.items)[x] }

  /** How often an item occurs in all shards together. */
  function Occurrences(shards: seq<seq<Runnable>>, x: Runnable): nat {
    if shards == [] then 0
    else Occurrences(shards[..|shards| - 1], x) + multiset(shards[|shards| - 1])[x]
  }

  lemma {:induction false} ShardCountIn(groups: seq<Group>, f: seq<nat>, i: nat, x: Runnable)
    requires |f| == |groups|
    ensures multiset(ShardOf(groups, f, i))[x] == LoadOn(Values(groups, CountIn(x)), f, i)
    decreases |groups|
  {
    if groups != [] {
      var n := |groups| - 1;
      assert Values(groups, CountIn(x))[..n] == Values(groups[..n], CountIn(x));
      ShardCountIn(groups[..n], f[..n], i, x);
    }
  }

  lemma {:induction false} OccurrencesAddUp(groups: seq<Group>, f: seq<nat>, m: nat, x: Runnable)
    requires |f| == |groups|
    ensures Occurrences(AllShards(groups, f, m), x) == LoadBelow(Values(groups, CountIn(x)), f, m)
    decreases m
  {
    if m > 0 {
      assert AllShards(groups, f, m)[..m - 1] == AllShards(groups, f, m - 1);
      OccurrencesAddUp(groups, f, m - 1, x);
      ShardCountIn(groups, f, m - 1, x);
    }
  }

  lemma {:induction false} DropEmptyKeepsOccurrences(shards: seq<seq<Runnable>>, x: Runnable)
    ensures Occurrences(DropEmpty(shards), x) == Occurrences(shards, x)
    decreases |shards|
  {
    if shards != [] {
      var n := |shards| - 1;
      DropEmptyKeepsOccurrences(shards[..n], x);
      var kept := DropEmpty(shards[..n]);
      if shards[n] != [] {
        assert (kept + [shards[n]])[..|kept|] == kept;
      } else {
        assert DropEmpty(shards) == kept;
        assert multiset(shards[n])[x] == 0;
      }
    }
  }

  lemma {:induction false} ItemSumCounts(items: seq<Runnable>, x: Runnable)
    ensures ItemSum(items, (r: Runnable) => if r == x then 1 else 0) == multiset(items)[x]
    decreases |items|
  {
    if items != [] {
      ItemSumCounts(items[..|items| - 1], x);
      assert items == items[..|items| - 1] + [items[|items| - 1]];
    }
  }

  /** Every run is in exactly one shard, as often as it was given; no shard is empty and there are
      at most as many as workers allow. */
  lemma ShardsPartition(items: seq<Runnable>, workers: int, x: Runnable)
    ensures
      var shards := BalancedShards(items, workers);
      && Occurrences(shards, x) == multiset(items)[x]
      && [] !in shards
      && |shards| <= ShardCount(workers, |items|)
  {
    var m := ShardCount(workers, |items|);
    var groups := OrderedGroups(items);
    var f := Placement(items, m);
    KeptShards(AllShards(groups, f, m), []);
    DropEmptyKeepsOccurrences(AllShards(groups, f, m), x);
    OccurrencesAddUp(groups, f, m, x);
    LoadsAddUp(Values(groups, CountIn(x)), f, m);
    OrderedGroupsSum(items, CountIn(x), (r: Runnable) => if r == x then 1 else 0);
    ItemSumCounts(items, x);
  }

  // ---------------------------------------------------------------- groups stay whole

  /** Each group holds items of its own key and no two groups share one. */
  ghost predicate WellGrouped(groups: seq<Group>) {
    && (forall g, r :: g in groups && r in g.items ==> r.Key() == g.key)
    && (forall a, b :: 0 <= a < b < |groups| ==> groups[a].key != groups[b].key)
  }

  lemma {:induction false} AddToGroupWell(groups: seq<Group>, item: Runnable)
    requires WellGrouped(groups)
    ensures WellGrouped(AddToGroup(groups, item))
    ensures forall g :: g in AddToGroup(groups, item) ==> g.key == item.Key() || exists h :: h in groups && h.key == g.key
    decreases |groups|
  {
    if groups != [] && groups[0].key != item.Key() {
      AddToGroupWell(groups[1..], item);
      var rest := AddToGroup(groups[1..], item);
      forall b | 0 <= b < |rest| ensures rest[b].key != groups[0].key {
        if rest[b].key != item.Key() {
          assert rest[b] in rest;
          var h :| h in groups[1..] && h.key == rest[b].key;
          var j :| 0 <= j < |groups| - 1 && groups[1..][j] == h;
          assert groups[j + 1].key != groups[0].key;
        }
      }
    }
  }

  lemma {:induction false} GroupAllWell(items: seq<Runnable>)
    ensures WellGrouped(GroupAll(items))
    decreases |items|
  {
    if items != [] {
      GroupAllWell(items[..|items| - 1]);
      AddToGroupWell(GroupAll(items[..|items| - 1]), items[|items| - 1]);
    }
  }

  lemma {:induction false} InsertGroupWell(groups: seq<Group>, g: Group)
    requires WellGrouped(groups) && WellGrouped([g]) && forall h :: h in groups ==> h.key != g.key
    ensures WellGrouped(InsertGroup(groups, g))
    decreases |groups|
  {
    if groups != [] && Precedes(g, groups[|groups| - 1]) {
      var front, last := groups[..|groups| - 1], groups[|groups| - 1];
      assert groups == front + [last];
      InsertGroupWell(front, g);
      InsertMembers(front, g);
      var r := InsertGroup(front, g);
      forall a | 0 <= a < |r| ensures r[a].key != last.key {
        assert r[a] in r;
        if r[a] != g {
          var j :| 0 <= j < |front| && front[j] == r[a];
          assert groups[j] == r[a];
        }
      }
    }
  }

  lemma {:induction false} SortGroupsWell(groups: seq<Group>)
    requires WellGrouped(groups)
    ensures WellGrouped(SortGroups(groups))
    ensures forall h :: h in SortGroups(groups) <==> h in groups
    decreases |groups|
  {
    if groups != [] {
      var front, last := groups[..|groups| - 1], groups[|groups| - 1];
      assert groups == front + [last];
      SortGroupsWell(front);
      forall h | h in SortGroups(front) ensures h.key != last.key {
        var j :| 0 <= j < |front| && front[j] == h;
        assert groups[j] == h;
      }
      InsertGroupWell(SortGroups(front), last);
      InsertMembers(SortGroups(front), last);
    }
  }

  /** An item of a shard comes from a group assigned to that shard. */
  lemma {:induction false} FromGroup(groups: seq<Group>, f: seq<nat>, i: nat, r: Runnable) returns (k: nat)
    requires |f| == |groups| && WellGrouped(groups) && r in ShardOf(groups, f, i)
    ensures k < |groups| && f[k] == i && groups[k].key == r.Key()
    decreases |groups|
  {
    var n := |groups| - 1;
    if r in ShardOf(groups[..n], f[..n], i) {
      k := FromGroup(groups[..n], f[..n], i, r);
    } else {
      k := n;
      assert r in multiset(SortItems(groups[n].items));
      assert groups[n] in groups && r in groups[n].items;
    }
  }

  /** No two shards hold items of one group. */
  ghost predicate Separated(shards: seq<seq<Runnable>>) {
    forall i, j, a, b :: 0 <= i < j < |shards| && a in shards[i] && b in shards[j] ==> a.Key() != b.Key()
  }

  lemma {:induction false} DropEmptySeparated(shards: seq<seq<Runnable>>)
    requires Separated(shards)
    ensures Separated(DropEmpty(shards))
    decreases |shards|
  {
    if shards != [] {
      var n := |shards| - 1;
      var front, last := shards[..n], shards[n];
      DropEmptySeparated(front);
      var kept := DropEmpty(front);
      forall i, a: Runnable, b: Runnable | 0 <= i < |kept| && a in kept[i] && b in last ensures a.Key() != b.Key() {
        KeptShards(front, kept[i]);
        var j :| 0 <= j < n && front[j] == kept[i];
        assert shards[j] == kept[i];
      }
    }
  }

  /** Pairs of one spot symbol and date are never split over shards. */
  lemma GroupsStayTogether(items: seq<Runnable>, workers: int)
    ensures Separated(BalancedShards(items, workers))
  {
    var m := ShardCount(workers, |items|);
    var groups := OrderedGroups(items);
    var f := Placement(items, m);
    var shards := AllShards(groups, f, m);
    GroupAllWell(items);
    SortGroupsWell(GroupAll(items));
    forall i, j, a: Runnable, b: Runnable | 0 <= i < j < m && a in shards[i] && b in shards[j] ensures a.Key() != b.Key() {
      var k := FromGroup(groups, f, i, a);
      var l := FromGroup(groups, f, j, b);
      assert k != l;
    }
    DropEmptySeparated(shards);
  }
}
