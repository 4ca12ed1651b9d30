/** What a run weighs and in which order groups and runs stand. */
module ShardOrder {
  import opened Wrappers
  import opened Sharding
  import opened ShardingProperties

  // ---------------------------------------------------------------- text order

  /** The first n characters agree, and there the first text ends or has the smaller character. */
  predicate LessAt(a: string, b: string, n: nat) {
    && n <= |a| && n < |b| && a[..n] == b[..n]
    && (n == |a| || a[n] < b[n])
  }

  lemma {:induction false} TextLessIff(a: string, b: string)
    ensures TextLess(a, b) <==> exists n: nat :: LessAt(a, b, n)
    decreases |a| + |b|
  {
    if b != [] && a != [] && a[0] == b[0] {
      TextLessIff(a[1..], b[1..]);
      if n: nat :| LessAt(a[1..], b[1..], n) {
        assert a[..n + 1] == [a[0]] + a[1..][..n] && b[..n + 1] == [b[0]] + b[1..][..n];
        assert LessAt(a, b, n + 1);
      }
      if n: nat :| LessAt(a, b, n) {
        assert n > 0;
        assert a[1..][..n - 1] == a[..n][1..] && b[1..][..n - 1] == b[..n][1..];
        assert LessAt(a[1..], b[1..], n - 1);
      }
    } else {
      if TextLess(a, b) { assert LessAt(a, b, 0); }
      if n: nat :| LessAt(a, b, n) {
        if n > 0 { assert a[..n][0] == b[..n][0]; }
      }
    }
  }

  lemma {:induction false} TextTotal(a: string, b: string)
    ensures !(TextLess(a, b) && TextLess(b, a)) && (!TextLess(a, b) && !TextLess(b, a) ==> a == b)
    decreases |a|
  {
    if a != [] && b != [] && a[0] == b[0] {
      TextTotal(a[1..], b[1..]);
      assert a == [a[0]] + a[1..] && b == [b[0]] + b[1..];
    }
  }

  /** Not after is transitive. */
  lemma {:induction false} TextTransitive(a: string, b: string, c: string)
    requires !TextLess(b, a) && !TextLess(c, b)
    ensures !TextLess(c, a)
    decreases |a|
  {
    if a != [] && b != [] && c != [] && a[0] == b[0] == c[0] { TextTransitive(a[1..], b[1..], c[1..]); }
  }

  // ---------------------------------------------------------------- runs of a group

  ghost predicate InKeyOrder(items: seq<Runnable>) {
    forall i, j :: 0 <= i < j < |items| ==> !TextLess(items[j].runKey, items[i].runKey)
  }

  lemma {:induction false} InsertKeepsKeyOrder(items: seq<Runnable>, item: Runnable)
    requires InKeyOrder(items)
    ensures InKeyOrder(InsertItem(items, item))
  {
    if items != [] && TextLess(item.runKey, items[|items| - 1].runKey) {
      var n := |items| - 1;
      var front, last := items[..n], items[n];
      InsertKeepsKeyOrder(front, item);
      TextTotal(item.runKey, last.runKey);
      InsertStaysBefore(front, item, last.runKey);
      AppendKeepsKeyOrder(InsertItem(front, item), last);
    } else {
      forall i | 0 <= i < |items| - 1 ensures !TextLess(item.runKey, items[i].runKey) {
        TextTransitive(items[i].runKey, items[|items| - 1].runKey, item.runKey);
      }
      AppendKeepsKeyOrder(items, item);
    }
    hide TextLess, InKeyOrder;
  }

  lemma AppendKeepsKeyOrder(items: seq<Runnable>, item: Runnable)
    requires InKeyOrder(items) && forall i :: 0 <= i < |items| ==> !TextLess(item.runKey, items[i].runKey)
    ensures InKeyOrder(items + [item])
  {
    hide TextLess;
  }

  lemma InsertStaysBefore(items: seq<Runnable>, item: Runnable, key: string)
    requires !TextLess(key, item.runKey) && forall i :: 0 <= i < |items| ==> !TextLess(key, items[i].runKey)
    ensures var r := InsertItem(items, item); forall i :: 0 <= i < |r| ==> !TextLess(key, r[i].runKey)
  {
    hide TextLess;
    var r := InsertItem(items, item);
    forall i | 0 <= i < |r| ensures !TextLess(key, r[i].runKey) {
      assert r[i] in multiset(r);
      assert multiset(r) == multiset(items) + multiset{item};
      if r[i] in multiset(items) { assert r[i] in items; }
    }
  }

  /** The runs of one group stand in the order of their keys. */
  lemma {:induction false} RunsStandInKeyOrder(items: seq<Runnable>)
    ensures InKeyOrder(SortItems(items))
    decreases |items|
  {
    if items != [] {
      RunsStandInKeyOrder(items[..|items| - 1]);
      InsertKeepsKeyOrder(SortItems(items[..|items| - 1]), items[|items| - 1]);
    }
  }

  /** The key a group is named by among equal weights is the least key of its runs. */
  lemma {:induction false} LeastKeyIsLeast(items: seq<Runnable>)
    requires items != []
    ensures exists k :: 0 <= k < |items| && items[k].runKey == LeastRunKey(items)
    ensures forall k :: 0 <= k < |items| ==> !TextLess(items[k].runKey, LeastRunKey(items))
    decreases |items|
  {
    var n := |items| - 1;
    var last := items[n].runKey;
    TextTotal(last, last);
    if n > 0 {
      LeastKeyIsLeast(items[..n]);
      var least := LeastRunKey(items[..n]);
      var at :| 0 <= at < n && items[..n][at].runKey == least;
      assert items[at].runKey == least;
      TextTotal(last, least);
      forall k | 0 <= k < |items| ensures !TextLess(items[k].runKey, LeastRunKey(items)) {
        if k < n {
          assert items[k] == items[..n][k];
          if TextLess(last, least) { TextTransitive(last, least, items[k].runKey); }
        }
      }
    } else {
      assert items[0].runKey == LeastRunKey(items);
    }
  }

  // ---------------------------------------------------------------- groups

  ghost predicate InGroupOrder(groups: seq<Group>) {
    forall i, j :: 0 <= i < j < |groups| ==> !Precedes(groups[j], groups[i])
  }

  lemma PrecedesTransitive(a: Group, b: Group, c: Group)
    requires !Precedes(b, a) && !Precedes(c, b)
    ensures !Precedes(c, a)
  {
    if WeightOf(a.items) == WeightOf(b.items) == WeightOf(c.items) {
      TextTransitive(LeastRunKey(a.items), LeastRunKey(b.items), LeastRunKey(c.items));
    }
    hide WeightOf, LeastRunKey, TextLess;
  }

  lemma PrecedesOneWay(a: Group, b: Group)
    ensures !(Precedes(a, b) && Precedes(b, a))
  {
    TextTotal(LeastRunKey(a.items), LeastRunKey(b.items));
    hide WeightOf, LeastRunKey, TextLess;
  }

  lemma {:induction false} InsertedMembers(groups: seq<Group>, g: Group, i: nat)
    requires i < |InsertGroup(groups, g)|
    ensures InsertGroup(groups, g)[i] == g || InsertGroup(groups, g)[i] in groups
  {
    if groups != [] && Precedes(g, groups[|groups| - 1]) {
      var n := |groups| - 1;
      if i < |InsertGroup(groups[..n], g)| { InsertedMembers(groups[..n], g, i); }
    }
  }

  lemma {:induction false} InsertKeepsGroupOrder(groups: seq<Group>, g: Group)
    requires InGroupOrder(groups)
    ensures InGroupOrder(InsertGroup(groups, g))
  {
    hide Precedes;
    if groups != [] && Precedes(g, groups[|groups| - 1]) {
      var n := |groups| - 1;
      var front, last := groups[..n], groups[n];
      InsertKeepsGroupOrder(front, g);
      var r := InsertGroup(front, g);
      forall i | 0 <= i < |r| ensures !Precedes(last, r[i]) {
        InsertedMembers(front, g, i);
        PrecedesOneWay(g, last);
        if r[i] != g {
          var k :| 0 <= k < n && front[k] == r[i];
          assert groups[k] == front[k];
        }
      }
    } else {
      forall i | 0 <= i < |groups| ensures !Precedes(g, groups[i]) {
        if i < |groups| - 1 { PrecedesTransitive(groups[i], groups[|groups| - 1], g); }
      }
    }
  }

  predicate SameSpot(a: Runnable, b: Runnable) { a.tradeDate == b.tradeDate && a.spotSymbol == b.spotSymbol }

  /** Two runs are in one group exactly when they are of one date and one spot symbol. */
  lemma GroupsAreOfOneSpot(items: seq<Runnable>, g: Group, h: Group, a: Runnable, b: Runnable)
    requires g in GroupAll(items) && h in GroupAll(items) && a in g.items && b in h.items
    ensures g == h <==> SameSpot(a, b)
  {
    GroupAllWell(items);
    hide GroupAll;
    assert a.Key() == g.key && b.Key() == h.key;
  }

  /** Groups stand heaviest first, and among equals by their least key. */
  lemma {:induction false} GroupsStandInOrder(groups: seq<Group>)
    ensures InGroupOrder(SortGroups(groups))
    decreases |groups|
  {
    if groups != [] {
      GroupsStandInOrder(groups[..|groups| - 1]);
      InsertKeepsGroupOrder(SortGroups(groups[..|groups| - 1]), groups[|groups| - 1]);
    }
  }

  // ---------------------------------------------------------------- weights

  /** A pair run weighs the event rows of its two legs; without any, the sizes of its two files, of which
      a missing or empty one counts one. */
  lemma PairRunWeighs(run: Runnable, stock: int, future: int, stockFile: Option<int>, futureFile: Option<int>)
    requires run.legRows == [stock, future] && run.legFileSizes == [stockFile, futureFile]
    requires stock >= 0 && future >= 0
    requires (stockFile.Some? ==> stockFile.value >= 0) && (futureFile.Some? ==> futureFile.value >= 0)
    ensures stock + future > 0 ==> run.Weight() == stock + future
    ensures stock + future == 0 ==> run.Weight() == FileWeight(stockFile) + FileWeight(futureFile)
    ensures run.Weight() > 0
  {
    assert run.legRows[..1] == [stock] && [stock][..0] == [];
    assert run.legFileSizes[..1] == [stockFile] && [stockFile][..0] == [];
    TwoRows(stock, future);
    TwoSizes(stockFile, futureFile);
  }

  function FileWeight(size: Option<int>): nat {
    match size
    case None => 1
    case Some(n) => if n <= 0 then 1 else n
  }

  lemma TwoRows(a: int, b: int)
    ensures RowTotal([a, b]) == (if a > 0 then a else 0) + (if b > 0 then b else 0)
  {
    assert [a][..|[a]| - 1] == [] && [a, b][..|[a, b]| - 1] == [a];
    assert RowTotal([a]) == MaxInt(0, a);
  }

  lemma TwoSizes(a: Option<int>, b: Option<int>)
    ensures SizeTotal([a, b]) == FileWeight(a) + FileWeight(b)
  {
    assert [a][..|[a]| - 1] == [] && [a, b][..|[a, b]| - 1] == [a];
    assert SizeTotal([a]) == FileWeight(a);
  }
}
