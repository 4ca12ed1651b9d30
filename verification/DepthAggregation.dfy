/** The allocation-free aggregation over two work arrays. */
module DepthAggregation {
  import opened Events
  import opened DepthBook

  /** The first n entries of the work arrays as a list. */
  function Work(prices: array<real>, quantities: array<real>, n: nat): (w: seq<Quoted>)
    requires n <= prices.Length && n <= quantities.Length
    reads prices, quantities
    ensures |w| == n && forall k :: 0 <= k < n ==> w[k] == Quoted(prices[k], quantities[k])
  {
    seq(n, k requires 0 <= k < n reads prices, quantities => Quoted(prices[k], quantities[k]))
  }

  /** The entry loop: find the price among the first `count`, add to it or append it. */
  method AddLevel(prices: array<real>, quantities: array<real>, count: nat, px: real, qty: real) returns (after: nat)
    requires prices != quantities && count < prices.Length && count < quantities.Length
    requires DistinctPrices(Work(prices, quantities, count))
    modifies prices, quantities
    ensures count <= after <= count + 1
    ensures Work(prices, quantities, after) == AddQuoted(old(Work(prices, quantities, count)), px, qty)
  {
    ghost var before := Work(prices, quantities, count);
    var found := 0;
    while found < count && prices[found] != px
      invariant 0 <= found <= count
      invariant forall k :: 0 <= k < found ==> before[k].px != px
    {
      found := found + 1;
    }
    if found < count {
      AddKnownPrice(before, px, qty, found);
      quantities[found] := quantities[found] + qty;
      after := count;
    } else {
      AddNewPrice(before, px, qty);
      prices[count], quantities[count] := px, qty;
      after := count + 1;
    }
  }

  /** Shift the entries before `index` that are worse than the price one place right. */
  method ShiftWorse(side: BookSide, prices: array<real>, quantities: array<real>, index: nat, px: real) returns (cursor: nat)
    requires prices != quantities && index < prices.Length && index < quantities.Length
    modifies prices, quantities
    ensures cursor <= index
    ensures cursor > 0 ==> !Better(side, px, old(prices[cursor - 1]))
    ensures forall k :: cursor <= k < index ==> Better(side, px, old(prices[k]))
    ensures Shifted(old(prices[..]), prices[..], cursor, index) && Shifted(old(quantities[..]), quantities[..], cursor, index)
  {
    hide Better, Shifted;
    cursor := index;
    ghost var p0, q0 := prices[..], quantities[..];
    NothingShifted(p0, index);
    NothingShifted(q0, index);
    while cursor > 0 && Better(side, px, prices[cursor - 1])
      invariant cursor <= index
      invariant Shifted(p0, prices[..], cursor, index) && Shifted(q0, quantities[..], cursor, index)
      invariant forall k :: cursor <= k < index ==> Better(side, px, p0[k])
    {
      ShiftOne(p0, prices[..], cursor, index);
      ShiftOne(q0, quantities[..], cursor, index);
      prices[cursor], quantities[cursor] := prices[cursor - 1], quantities[cursor - 1];
      cursor := cursor - 1;
    }
    ShiftOne(p0, prices[..], cursor, index);
  }

  /** The entries from `cursor` up to `index` moved one place right; the one at `cursor` is free. */
  ghost predicate Shifted(before: seq<real>, after: seq<real>, cursor: nat, index: nat) {
    && cursor <= index < |before| == |after|
    && (forall k :: 0 <= k < cursor ==> after[k] == before[k])
    && (forall k :: cursor < k <= index ==> after[k] == before[k - 1])
    && (forall k :: index < k < |before| ==> after[k] == before[k])
  }

  lemma NothingShifted(values: seq<real>, index: nat)
    requires index < |values|
    ensures Shifted(values, values, index, index)
  {
  }

  lemma ShiftOne(before: seq<real>, after: seq<real>, cursor: nat, index: nat)
    requires Shifted(before, after, cursor, index)
    ensures |after| == |before|
    ensures cursor > 0 ==>
      && after[cursor - 1] == before[cursor - 1]
      && Shifted(before, after[cursor := after[cursor - 1]], cursor - 1, index)
  {
  }

  /** One pass of the insertion sort: move entry `index` left past every worse price. */
  method InsertEntry(side: BookSide, prices: array<real>, quantities: array<real>, index: nat)
    requires prices != quantities && index < prices.Length && index < quantities.Length
    modifies prices, quantities
    ensures Work(prices, quantities, index + 1)
         == InsertQuoted(side, old(Work(prices, quantities, index)), Quoted(old(prices[index]), old(quantities[index])))
    ensures forall k :: index < k < prices.Length ==> prices[k] == old(prices[k])
    ensures forall k :: index < k < quantities.Length ==> quantities[k] == old(quantities[k])
  {
    hide InsertQuoted, Better;
    ghost var sorted := Work(prices, quantities, index);
    var px, qty := prices[index], quantities[index];
    var cursor := ShiftWorse(side, prices, quantities, index, px);
    prices[cursor], quantities[cursor] := px, qty;
    InsertAt(side, sorted, Quoted(px, qty), cursor);
    InsertedAt(Work(prices, quantities, index + 1), sorted, Quoted(px, qty), cursor);
  }

  lemma InsertedAt(work: seq<Quoted>, sorted: seq<Quoted>, q: Quoted, at: nat)
    requires at <= |sorted| && |work| == |sorted| + 1 && work[at] == q
    requires forall k :: 0 <= k < at ==> work[k] == sorted[k]
    requires forall k :: at < k < |work| ==> work[k] == sorted[k - 1]
    ensures work == sorted[..at] + [q] + sorted[at..]
  {
  }

  /** Insertion lands where the prices behind are worse and the one before is not. */
  lemma {:induction false} InsertAt(side: BookSide, sorted: seq<Quoted>, q: Quoted, at: nat)
    requires at <= |sorted|
    requires at > 0 ==> !Better(side, q.px, sorted[at - 1].px)
    requires forall k :: at <= k < |sorted| ==> Better(side, q.px, sorted[k].px)
    ensures InsertQuoted(side, sorted, q) == sorted[..at] + [q] + sorted[at..]
  {
    if at < |sorted| {
      InsertAt(side, sorted[..|sorted| - 1], q, at);
    }
  }

  /** The first phase: distinct prices with summed quantities. */
  method CollectLevels(rule: QtyRule, levels: seq<SideLevel>, prices: array<real>, quantities: array<real>) returns (count: nat)
    requires prices != quantities && |levels| <= prices.Length && |levels| <= quantities.Length
    modifies prices, quantities
    ensures count <= |levels| && Work(prices, quantities, count) == Aggregate(rule, levels)
  {
    count := 0;
    for n := 0 to |levels|
      invariant count <= n
      invariant Work(prices, quantities, count) == Aggregate(rule, levels[..n])
    {
      assert levels[..n + 1][..n] == levels[..n];
      AggregateQuotes(rule, levels[..n]);
      var qty := LevelQty(rule, levels[n]);
      if ValidLevel(levels[n], qty) {
        count := AddLevel(prices, quantities, count, levels[n].px.value, qty.value);
      }
    }
    assert levels[..|levels|] == levels;
  }

  lemma SortQuotedOne(side: BookSide, q: Quoted)
    ensures SortQuoted(side, [q]) == [q]
  {
    assert [q][..0] == [];
  }

  lemma SortQuotedNext(side: BookSide, raw: seq<Quoted>, n: nat)
    requires n < |raw|
    ensures SortQuoted(side, raw[..n + 1]) == InsertQuoted(side, SortQuoted(side, raw[..n]), raw[n])
  {
    assert raw[..n + 1][..n] == raw[..n];
  }

  /** The second phase: insertion sort, best price first. */
  method SortWork(side: BookSide, prices: array<real>, quantities: array<real>, count: nat)
    requires prices != quantities && count <= prices.Length && count <= quantities.Length
    modifies prices, quantities
    ensures Work(prices, quantities, count) == SortQuoted(side, old(Work(prices, quantities, count)))
  {
    ghost var raw := Work(prices, quantities, count);
    if count == 0 {
      return;
    }
    SortQuotedOne(side, raw[0]);
    assert raw[..1] == [raw[0]];
    hide SortQuoted, InsertQuoted;
    for index := 1 to count
      invariant Work(prices, quantities, index) == SortQuoted(side, raw[..index])
      invariant forall k :: index <= k < count ==> prices[k] == raw[k].px && quantities[k] == raw[k].qty
    {
      SortQuotedNext(side, raw, index);
      InsertEntry(side, prices, quantities, index);
    }
    assert raw[..count] == raw;
  }

  /** aggregate_depth_side: the work arrays end up holding the side, best price first. */
  method AggregateDepthSide(
    rule: QtyRule, side: BookSide, levels: seq<SideLevel>, prices: array<real>, quantities: array<real>) returns (count: nat)
    requires prices != quantities && |levels| <= prices.Length && |levels| <= quantities.Length
    modifies prices, quantities
    ensures count <= |levels|
    ensures Work(prices, quantities, count) == SideBook(rule, side, levels)
  {
    count := CollectLevels(rule, levels, prices, quantities);
    SortWork(side, prices, quantities, count);
  }
}
