/** One side of a book image: valid levels with equal prices summed, best price first. */
module DepthBook {
  import opened Events

  datatype Quoted = Quoted(px: real, qty: real)

  /** A quantity cell: blank, or a number as parsed. */
  datatype Cell = Blank | Value(n: Num)

  datatype SideLevel = SideLevel(px: Num, qty: Cell)

  /** `blankOnly` tells the row converter from the columnar one: the row converter falls back to the
      price-only quantity for a blank cell, the columnar one for any cell that is not finite. */
  datatype QtyRule = QtyRule(volumeScale: real, priceOnlyQty: Num, blankOnly: bool)

  function LevelQty(rule: QtyRule, level: SideLevel): Num {
    var fallsBack := level.qty.Blank? || (!rule.blankOnly && level.qty.n.NaN?);
    var raw :=
      if fallsBack && rule.priceOnlyQty.Num? && level.px.Positive() then rule.priceOnlyQty
      else if level.qty.Blank? then NaN
      else level.qty.n;
    if raw.NaN? then NaN else Num(raw.value * rule.volumeScale)
  }

  /** The two converters read a level alike unless an explicit NaN stands at a valid price while a
      price-only quantity is set. */
  lemma LevelQtyAgreesIff(rule: QtyRule, level: SideLevel)
    ensures LevelQty(rule.(blankOnly := true), level) == LevelQty(rule.(blankOnly := false), level)
      <==> !(rule.priceOnlyQty.Num? && level.px.Positive() && level.qty == Value(NaN))
  {
  }

  /** A quantity scales with the volume scale; at scale one it is the cell's number, or the price-only
      quantity where the cell has none at a valid price. */
  lemma LevelQtyScales(rule: QtyRule, level: SideLevel, scale: real)
    ensures
      var one := LevelQty(rule.(volumeScale := 1.0), level);
      LevelQty(rule.(volumeScale := scale), level) == if one.NaN? then NaN else Num(one.value * scale)
    ensures level.qty.Value? && level.qty.n.Num? ==> LevelQty(rule.(volumeScale := 1.0), level) == level.qty.n
    ensures level.qty.Blank? ==>
      LevelQty(rule.(volumeScale := 1.0), level) == if rule.priceOnlyQty.Num? && level.px.Positive() then rule.priceOnlyQty else NaN
  {
  }

  /** Price a is a better price of its side than b: lower asks, higher bids. */
  predicate Better(side: BookSide, a: real, b: real) { if side.Ask? then a < b else a > b }

  /** The dictionary update: add to the price's quantity, new prices at the end. */
  function AddQuoted(book: seq<Quoted>, px: real, qty: real): seq<Quoted> {
    if book == [] then [Quoted(px, qty)]
    else if book[0].px == px then [Quoted(px, book[0].qty + qty)] + book[1..]
    else [book[0]] + AddQuoted(book[1..], px, qty)
  }

  predicate ValidLevel(level: SideLevel, qty: Num) { level.px.Positive() && qty.Positive() }

  /** The distinct prices of the valid levels in order of appearance, quantities summed. */
  function Aggregate(rule: QtyRule, levels: seq<SideLevel>): seq<Quoted> {
    if levels == [] then []
    else
      var front, level := Aggregate(rule, levels[..|levels| - 1]), levels[|levels| - 1];
      var qty := LevelQty(rule, level);
      if ValidLevel(level, qty) then AddQuoted(front, level.px.value, qty.value) else front
  }

  function InsertQuoted(side: BookSide, sorted: seq<Quoted>, q: Quoted): seq<Quoted> {
    if sorted == [] || !Better(side, q.px, sorted[|sorted| - 1].px) then sorted + [q]
    else InsertQuoted(side, sorted[..|sorted| - 1], q) + [sorted[|sorted| - 1]]
  }

  function SortQuoted(side: BookSide, book: seq<Quoted>): (r: seq<Quoted>)
    ensures |r| == |book|
  {
    if book == [] then []
    else
      InsertQuotedSize(side, SortQuoted(side, book[..|book| - 1]), book[|book| - 1]);
      InsertQuoted(side, SortQuoted(side, book[..|book| - 1]), book[|book| - 1])
  }

  lemma InsertQuotedSize(side: BookSide, sorted: seq<Quoted>, q: Quoted)
    ensures |InsertQuoted(side, sorted, q)| == |sorted| + 1
  {
  }

  /** The side of a book image. */
  function SideBook(rule: QtyRule, side: BookSide, levels: seq<SideLevel>): seq<Quoted> {
    SortQuoted(side, Aggregate(rule, levels))
  }

  // ---------------------------------------------------------------- what the side contains

  /** Total quantity quoted at a price by the valid levels. */
  function TotalAt(rule: QtyRule, levels: seq<SideLevel>, px: real): real {
    if levels == [] then 0.0
    else
      var front, level := TotalAt(rule, levels[..|levels| - 1], px), levels[|levels| - 1];
      var qty := LevelQty(rule, level);
      if ValidLevel(level, qty) && level.px.value == px then front + qty.value else front
  }

  predicate BestFirst(side: BookSide, book: seq<Quoted>) {
    forall a, b :: 0 <= a < b < |book| ==> Better(side, book[a].px, book[b].px)
  }

  ghost predicate HasPrice(book: seq<Quoted>, px: real) { exists k :: 0 <= k < |book| && book[k].px == px }

  /** Every quoted price is positive and carries its total. */
  ghost predicate QuotesTotals(rule: QtyRule, levels: seq<SideLevel>, book: seq<Quoted>) {
    forall k :: 0 <= k < |book| ==>
      book[k].px > 0.0 && book[k].qty > 0.0 && book[k].qty == TotalAt(rule, levels, book[k].px)
  }

  /** The book quotes exactly the prices with a positive total, at that total. */
  ghost predicate Quotes(rule: QtyRule, levels: seq<SideLevel>, book: seq<Quoted>) {
    && QuotesTotals(rule, levels, book)
    && (forall px :: TotalAt(rule, levels, px) > 0.0 ==> HasPrice(book, px))
  }

  predicate DistinctPrices(book: seq<Quoted>) {
    forall a, b :: 0 <= a < b < |book| ==> book[a].px != book[b].px
  }

  lemma {:induction false} AddKnownPrice(book: seq<Quoted>, px: real, qty: real, k: nat)
    requires DistinctPrices(book) && k < |book| && book[k].px == px
    ensures AddQuoted(book, px, qty) == book[k := Quoted(px, book[k].qty + qty)]
  {
    if k > 0 {
      assert book[0].px != book[k].px;
      AddKnownPrice(book[1..], px, qty, k - 1);
    }
  }

  lemma {:induction false} AddNewPrice(book: seq<Quoted>, px: real, qty: real)
    requires forall k :: 0 <= k < |book| ==> book[k].px != px
    ensures AddQuoted(book, px, qty) == book + [Quoted(px, qty)]
  {
    if book != [] {
      AddNewPrice(book[1..], px, qty);
    }
  }

  lemma AddQuotedEffect(book: seq<Quoted>, px: real, qty: real)
    requires DistinctPrices(book)
    ensures
      var r := AddQuoted(book, px, qty);
      && DistinctPrices(r)
      && |book| <= |r| <= |book| + 1
      && (forall k :: 0 <= k < |book| ==>
            r[k] == Quoted(book[k].px, if book[k].px == px then book[k].qty + qty else book[k].qty))
      && (|r| == |book| <==> HasPrice(book, px))
      && (|r| > |book| ==> r[|book|] == Quoted(px, qty))
  {
    if HasPrice(book, px) {
      var k :| 0 <= k < |book| && book[k].px == px;
      AddKnownPrice(book, px, qty, k);
    } else {
      AddNewPrice(book, px, qty);
    }
  }

  lemma {:induction false} TotalNonNegative(rule: QtyRule, levels: seq<SideLevel>, px: real)
    ensures TotalAt(rule, levels, px) >= 0.0
  {
    if levels != [] { TotalNonNegative(rule, levels[..|levels| - 1], px); }
  }

  /** One more valid level keeps the list exact. */
  lemma AddQuotedKeepsTotals(rule: QtyRule, levels: seq<SideLevel>, level: SideLevel, book: seq<Quoted>)
    requires DistinctPrices(book) && Quotes(rule, levels, book)
    requires ValidLevel(level, LevelQty(rule, level))
    ensures QuotesTotals(rule, levels + [level], AddQuoted(book, level.px.value, LevelQty(rule, level).value))
  {
    var px, qty := level.px.value, LevelQty(rule, level).value;
    var after := AddQuoted(book, px, qty);
    assert (levels + [level])[..|levels|] == levels;
    AddQuotedEffect(book, px, qty);
    TotalNonNegative(rule, levels, px);
    forall k | 0 <= k < |after|
      ensures after[k].px > 0.0 && after[k].qty > 0.0 && after[k].qty == TotalAt(rule, levels + [level], after[k].px)
    {
      if k == |book| {
        assert !HasPrice(book, px);
      }
    }
  }

  lemma AddQuotedKeepsPrices(rule: QtyRule, levels: seq<SideLevel>, level: SideLevel, book: seq<Quoted>, px: real)
    requires DistinctPrices(book) && Quotes(rule, levels, book)
    requires ValidLevel(level, LevelQty(rule, level))
    requires TotalAt(rule, levels + [level], px) > 0.0
    ensures HasPrice(AddQuoted(book, level.px.value, LevelQty(rule, level).value), px)
  {
    var after := AddQuoted(book, level.px.value, LevelQty(rule, level).value);
    assert (levels + [level])[..|levels|] == levels;
    AddQuotedEffect(book, level.px.value, LevelQty(rule, level).value);
    if HasPrice(book, px) {
      var k :| 0 <= k < |book| && book[k].px == px;
      assert after[k].px == px;
    } else {
      assert px == level.px.value;
      assert after[|book|].px == px;
    }
  }

  lemma {:induction false} AggregateQuotes(rule: QtyRule, levels: seq<SideLevel>)
    ensures DistinctPrices(Aggregate(rule, levels)) && |Aggregate(rule, levels)| <= |levels|
    ensures Quotes(rule, levels, Aggregate(rule, levels))
  {
    if levels != [] {
      var front, level := levels[..|levels| - 1], levels[|levels| - 1];
      AggregateQuotes(rule, front);
      assert front + [level] == levels;
      var qty, before := LevelQty(rule, level), Aggregate(rule, front);
      if ValidLevel(level, qty) {
        AddQuotedEffect(before, level.px.value, qty.value);
        AddQuotedKeepsTotals(rule, front, level, before);
        forall px | TotalAt(rule, levels, px) > 0.0 ensures HasPrice(Aggregate(rule, levels), px) {
          AddQuotedKeepsPrices(rule, front, level, before, px);
        }
      }
    }
  }

  lemma {:induction false} InsertQuotedContents(side: BookSide, sorted: seq<Quoted>, q: Quoted)
    ensures multiset(InsertQuoted(side, sorted, q)) == multiset(sorted) + multiset{q}
  {
    if sorted != [] && Better(side, q.px, sorted[|sorted| - 1].px) {
      assert sorted == sorted[..|sorted| - 1] + [sorted[|sorted| - 1]];
      InsertQuotedContents(side, sorted[..|sorted| - 1], q);
    }
  }

  /** Insertion into a best-first list of other prices keeps it best-first. */
  lemma {:induction false} InsertQuotedOrder(side: BookSide, sorted: seq<Quoted>, q: Quoted, worst: real)
    requires BestFirst(side, sorted) && forall k :: 0 <= k < |sorted| ==> sorted[k].px != q.px
    requires Better(side, q.px, worst) && forall k :: 0 <= k < |sorted| ==> Better(side, sorted[k].px, worst)
    ensures BestFirst(side, InsertQuoted(side, sorted, q))
    ensures forall k :: 0 <= k < |InsertQuoted(side, sorted, q)| ==> Better(side, InsertQuoted(side, sorted, q)[k].px, worst)
  {
    if sorted != [] && Better(side, q.px, sorted[|sorted| - 1].px) {
      InsertQuotedOrder(side, sorted[..|sorted| - 1], q, sorted[|sorted| - 1].px);
    } else if sorted != [] {
      forall k | 0 <= k < |sorted| ensures Better(side, sorted[k].px, q.px) {
        assert k < |sorted| - 1 ==> Better(side, sorted[k].px, sorted[|sorted| - 1].px);
      }
    }
  }

  /** A price worse than the given ones. */
  function BeyondAll(side: BookSide, book: seq<Quoted>, px: real): (worst: real)
    ensures Better(side, px, worst) && forall k :: 0 <= k < |book| ==> Better(side, book[k].px, worst)
  {
    if book == [] then (if side.Ask? then px + 1.0 else px - 1.0)
    else
      var rest, last := BeyondAll(side, book[..|book| - 1], px), book[|book| - 1].px;
      if Better(side, last, rest) then rest else if side.Ask? then last + 1.0 else last - 1.0
  }

  lemma {:induction false} SortQuotedEffect(side: BookSide, book: seq<Quoted>)
    requires DistinctPrices(book)
    ensures BestFirst(side, SortQuoted(side, book))
    ensures multiset(SortQuoted(side, book)) == multiset(book)
  {
    if book != [] {
      var front, last := book[..|book| - 1], book[|book| - 1];
      SortQuotedEffect(side, front);
      var sorted := SortQuoted(side, front);
      assert book == front + [last];
      forall k | 0 <= k < |sorted| ensures sorted[k].px != last.px {
        assert sorted[k] in multiset(front);
        var m :| 0 <= m < |front| && front[m] == sorted[k];
        assert book[m].px != book[|book| - 1].px;
      }
      InsertQuotedContents(side, sorted, last);
      InsertQuotedOrder(side, sorted, last, BeyondAll(side, sorted, last.px));
    }
  }

  /** The side is best-first and quotes exactly the valid prices at their summed quantities. */
  lemma SideBookQuotes(rule: QtyRule, side: BookSide, levels: seq<SideLevel>)
    ensures BestFirst(side, SideBook(rule, side, levels))
    ensures Quotes(rule, levels, SideBook(rule, side, levels))
    ensures |SideBook(rule, side, levels)| <= |levels|
  {
    var raw, book := Aggregate(rule, levels), SideBook(rule, side, levels);
    AggregateQuotes(rule, levels);
    SortQuotedEffect(side, raw);
    forall k | 0 <= k < |book|
      ensures book[k].px > 0.0 && book[k].qty > 0.0 && book[k].qty == TotalAt(rule, levels, book[k].px)
    {
      assert book[k] in multiset(raw);
      var m :| 0 <= m < |raw| && raw[m] == book[k];
    }
    forall px | TotalAt(rule, levels, px) > 0.0 ensures HasPrice(book, px) {
      var m :| 0 <= m < |raw| && raw[m].px == px;
      assert raw[m] in multiset(book);
      var k :| 0 <= k < |book| && book[k] == raw[m];
      assert book[k].px == px;
    }
  }

  /** Lists over the same prices have the same best price. */
  lemma SameBest(side: BookSide, a: seq<Quoted>, b: seq<Quoted>)
    requires BestFirst(side, a) && BestFirst(side, b) && a != [] && b != []
    requires HasPrice(b, a[0].px) && HasPrice(a, b[0].px)
    ensures a[0].px == b[0].px
  {
  }

  lemma TailPrice(side: BookSide, a: seq<Quoted>, b: seq<Quoted>, k: nat)
    requires BestFirst(side, a) && a != [] && b != [] && a[0].px == b[0].px
    requires k + 1 < |a| && HasPrice(b, a[k + 1].px)
    ensures HasPrice(b[1..], a[1..][k].px)
  {
  }

  /** No other best-first list quotes the same levels: any sort of the dictionary gives this one. */
  lemma {:induction false} BestFirstUnique(rule: QtyRule, side: BookSide, levels: seq<SideLevel>, a: seq<Quoted>, b: seq<Quoted>)
    requires BestFirst(side, a) && BestFirst(side, b)
    requires forall k :: 0 <= k < |a| ==> a[k].qty == TotalAt(rule, levels, a[k].px) && HasPrice(b, a[k].px)
    requires forall k :: 0 <= k < |b| ==> b[k].qty == TotalAt(rule, levels, b[k].px) && HasPrice(a, b[k].px)
    ensures a == b
  {
    if a == [] || b == [] {
      assert |a| > 0 ==> HasPrice(b, a[0].px);
      assert |b| > 0 ==> HasPrice(a, b[0].px);
    } else {
      SameBest(side, a, b);
      forall k | 0 <= k < |a[1..]| ensures HasPrice(b[1..], a[1..][k].px) { TailPrice(side, a, b, k); }
      forall k | 0 <= k < |b[1..]| ensures HasPrice(a[1..], b[1..][k].px) { TailPrice(side, b, a, k); }
      BestFirstUnique(rule, side, levels, a[1..], b[1..]);
      assert a == [a[0]] + a[1..] && b == [b[0]] + b[1..];
    }
  }
}
