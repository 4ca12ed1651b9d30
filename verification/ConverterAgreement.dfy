/** Exactly when the row converter and the columnar converter emit the same events. */
module ConverterAgreement {
  import opened Wrappers
  import opened Events
  import opened DepthBook
  import opened EventBuilder

  // ---------------------------------------------------------------- when two remembered quotes act alike

  /** Trades at prices above `at`, and at `at` itself when closed, are taken for buys. */
  datatype Threshold = Threshold(at: real, closed: bool) {
    predicate Buys(px: real) { px > at || (closed && px == at) }
  }

  /** Where buys begin after a quote and a last price: at the ask, or above the bid at the last price. */
  function BuyThreshold(bid: Num, ask: Num, last: Num): Threshold {
    var tick :=
      if last.Num? && (bid.NaN? || last.value > bid.value) then Threshold(last.value, true)
      else if bid.Num? then Threshold(bid.value, false)
      else Threshold(0.0, false);
    var either := if ask.Num? && ask.value <= tick.at then Threshold(ask.value, true) else tick;
    if either.at <= 0.0 then Threshold(0.0, false) else either
  }

  lemma FlagIsThreshold(px: real, bid: Num, ask: Num, last: Num)
    requires px > 0.0
    ensures InferFlag(px, bid, ask, last) == Bid <==> BuyThreshold(bid, ask, last).Buys(px)
  {
  }

  /** Two quotes flag every price alike iff their buys begin at the same threshold. */
  lemma FlagsAgreeIff(bid: Num, ask: Num, bid': Num, ask': Num, last: Num)
    ensures (forall px :: px > 0.0 ==> InferFlag(px, bid, ask, last) == InferFlag(px, bid', ask', last))
       <==> BuyThreshold(bid, ask, last) == BuyThreshold(bid', ask', last)
  {
    var t, u := BuyThreshold(bid, ask, last), BuyThreshold(bid', ask', last);
    forall px | px > 0.0
      ensures InferFlag(px, bid, ask, last) == InferFlag(px, bid', ask', last) <==> (t.Buys(px) <==> u.Buys(px))
    {
      FlagIsThreshold(px, bid, ask, last);
      FlagIsThreshold(px, bid', ask', last);
    }
    assert t.at >= 0.0 && u.at >= 0.0;
    hide BuyThreshold, InferFlag;
    if t.at < u.at {
      assert t.Buys((t.at + u.at) / 2.0) && !u.Buys((t.at + u.at) / 2.0);
    } else if u.at < t.at {
      assert u.Buys((t.at + u.at) / 2.0) && !t.Buys((t.at + u.at) / 2.0);
    } else if t.closed != u.closed {
      assert t.at > 0.0 ==> (t.Buys(t.at) <==> !u.Buys(t.at));
    }
  }

  /** Nothing that reads a remembered quote can tell the two apart: no inferred trade side at any
      price, and no marker of a trial row. */
  predicate QuotesAlike(s: Settings, bid: Num, ask: Num, bid': Num, ask': Num, last: Num) {
    && (s.trades && s.tradeSide.Infer? ==> BuyThreshold(bid, ask, last) == BuyThreshold(bid', ask', last))
    && (s.depth ==> FirstPositive([ask, bid]) == FirstPositive([ask', bid']))
  }

  /** The converters emit the same levels of a tradable row. */
  predicate BooksAlike(s: Settings, row: Row)
    requires 1 <= s.levels <= |row.bids| && s.levels <= |row.asks|
  {
    row.tradable ==>
      && EmittedBook(ByRow, s, row, NO_PREVIOUS, Bid) == EmittedBook(ByColumn, s, row, NO_PREVIOUS, Bid)
      && EmittedBook(ByRow, s, row, NO_PREVIOUS, Ask) == EmittedBook(ByColumn, s, row, NO_PREVIOUS, Ask)
  }

  /** The raw level 1 of a tradable row acts like the best valid level. */
  predicate LevelOneAlike(s: Settings, row: Row)
    requires 1 <= s.levels <= |row.bids| && s.levels <= |row.asks|
  {
    row.tradable ==>
      QuotesAlike(s, row.bids[0].px, row.asks[0].px, BestOf(FullBook(ByColumn, s, row, Bid)),
                  BestOf(FullBook(ByColumn, s, row, Ask)), row.lastPrice)
  }

  predicate StatesAlike(s: Settings, u: Previous, v: Previous) {
    u.volume == v.volume && u.last == v.last && QuotesAlike(s, u.bid, u.ask, v.bid, v.ask, u.last)
  }

  // ---------------------------------------------------------------- alike rows give the same events

  lemma MarkersAgree(row: Row, u: Previous, v: Previous)
    requires row.bids != [] && row.asks != []
    requires FirstPositive([u.ask, u.bid]) == FirstPositive([v.ask, v.bid])
    ensures Marker(row, u) == Marker(row, v)
  {
    MarkerParts(row, u);
    MarkerParts(row, v);
  }

  lemma MarkerParts(row: Row, u: Previous)
    requires row.bids != [] && row.asks != []
    ensures
      var own := FirstPositive([row.asks[0].px, row.bids[0].px, row.lastPrice]);
      Marker(row, u) == if own.Num? then own else FirstPositive([u.ask, u.bid])
  {
    var a, b, l := row.asks[0].px, row.bids[0].px, row.lastPrice;
    FirstPositiveCons(a, [b, l, u.ask, u.bid]);
    FirstPositiveCons(b, [l, u.ask, u.bid]);
    FirstPositiveCons(l, [u.ask, u.bid]);
    FirstPositiveCons(a, [b, l]);
    FirstPositiveCons(b, [l]);
    FirstPositiveCons(l, []);
    assert [a] + [b, l, u.ask, u.bid] == [a, b, l, u.ask, u.bid];
    assert [b] + [l, u.ask, u.bid] == [b, l, u.ask, u.bid];
    assert [l] + [u.ask, u.bid] == [l, u.ask, u.bid];
    assert [a] + [b, l] == [a, b, l] && [b] + [l] == [b, l] && [l] + [] == [l];
    hide FirstPositive;
  }

  lemma FirstPositiveCons(x: Num, rest: seq<Num>)
    ensures FirstPositive([x] + rest) == if x.Positive() then x else FirstPositive(rest)
    ensures FirstPositive([]) == NaN
    ensures FirstPositive(rest).Num? ==> FirstPositive(rest).Positive()
  {
    assert ([x] + rest)[1..] == rest;
  }

  /** Alike states give a row the same trade. */
  lemma TradesAgree(s: Settings, row: Row, u: Previous, v: Previous)
    requires StatesAlike(s, u, v)
    ensures TradeEvents(s, row, u) == TradeEvents(s, row, v)
  {
    hide FirstPositive;
    var t, t' := TradeEvents(s, row, u), TradeEvents(s, row, v);
    if t != [] {
      FlagsAgreeIff(u.bid, u.ask, v.bid, v.ask, u.last);
      assert TradeFlag(s, row.lastPrice.value, u) == TradeFlag(s, row.lastPrice.value, v);
      hide TradeFlag, BuyThreshold;
      assert t[0].qty == t'[0].qty;
      assert t[0] == t'[0];
    }
  }

  lemma AlikeEvents(s: Settings, row: Row, u: Previous, v: Previous)
    requires 1 <= s.levels <= |row.bids| && s.levels <= |row.asks|
    requires StatesAlike(s, u, v) && BooksAlike(s, row)
    ensures RowEvents(ByRow, s, row, u) == RowEvents(ByColumn, s, row, v)
  {
    hide SideEvents, FullBook, FirstPositive, BuyThreshold, TradeEvents;
    if row.tradable {
      TradesAgree(s, row, u, v);
    } else if s.depth {
      MarkersAgree(row, u, v);
    }
  }

  lemma AlikeNext(s: Settings, row: Row, u: Previous, v: Previous)
    requires 1 <= s.levels <= |row.bids| && s.levels <= |row.asks|
    requires StatesAlike(s, u, v) && LevelOneAlike(s, row)
    ensures StatesAlike(s, NextPrevious(ByRow, s, row, u), NextPrevious(ByColumn, s, row, v))
  {
    hide FullBook, FirstPositive, BuyThreshold;
  }

  // ---------------------------------------------------------------- prefixes of a conversion

  /** What a converter remembers after some rows. */
  function After(c: Converter, s: Settings, rows: seq<Row>, width: nat): Previous
    requires SourceRows(s, rows, width)
  {
    if rows == [] then NO_PREVIOUS else NextPrevious(c, s, rows[|rows| - 1], After(c, s, rows[..|rows| - 1], width))
  }

  /** Converting one row more appends that row's events. */
  lemma {:induction false} BuildAppend(c: Converter, s: Settings, rows: seq<Row>, row: Row, width: nat)
    requires SourceRows(s, rows, width) && |row.bids| == |row.asks| == width
    ensures SourceRows(s, rows + [row], width)
    ensures BuildFrom(c, s, rows + [row], width, NO_PREVIOUS)
         == BuildFrom(c, s, rows, width, NO_PREVIOUS) + RowEvents(c, s, row, After(c, s, rows, width))
    ensures After(c, s, rows + [row], width) == NextPrevious(c, s, row, After(c, s, rows, width))
  {
    hide RowEvents, NextPrevious;
    assert (rows + [row])[..|rows|] == rows;
    BuildFromAppend(c, s, rows, row, width, NO_PREVIOUS, 0);
    assert rows[0..] == rows;
  }

  lemma {:induction false} BuildFromAppend(c: Converter, s: Settings, rows: seq<Row>, row: Row, width: nat, previous: Previous, k: nat)
    requires SourceRows(s, rows, width) && |row.bids| == |row.asks| == width && k <= |rows|
    requires previous == After(c, s, rows[..k], width)
    ensures BuildFrom(c, s, rows[k..] + [row], width, previous)
         == BuildFrom(c, s, rows[k..], width, previous) + RowEvents(c, s, row, After(c, s, rows, width))
    decreases |rows| - k
  {
    hide RowEvents, NextPrevious;
    var rest := rows[k..];
    if rest == [] {
      assert rows[..k] == rows && ([] + [row])[1..] == [];
      assert BuildFrom(c, s, [], width, NextPrevious(c, s, row, previous)) == [];
    } else {
      assert rows[..k + 1][..k] == rows[..k] && rest[1..] == rows[k + 1..];
      assert (rest + [row])[1..] == rest[1..] + [row];
      BuildFromAppend(c, s, rows, row, width, NextPrevious(c, s, rows[k], previous), k + 1);
    }
  }

  /** Both converters make the same of the rows. */
  predicate Agree(s: Settings, rows: seq<Row>, width: nat)
    requires SourceRows(s, rows, width)
  {
    BuildFrom(ByRow, s, rows, width, NO_PREVIOUS) == BuildFrom(ByColumn, s, rows, width, NO_PREVIOUS)
  }

  /** A row that may come next: it has the source columns, and both converters read its own levels
      alike. */
  predicate NextRow(s: Settings, row: Row, width: nat)
    requires 1 <= s.levels <= width
  {
    |row.bids| == |row.asks| == width && BooksAlike(s, row)
  }

  /** The converters agree on the rows cut anywhere and continued by any row. */
  ghost predicate AgreeWherever(s: Settings, rows: seq<Row>, width: nat)
    requires SourceRows(s, rows, width)
  {
    forall n: nat, next: Row :: n <= |rows| && NextRow(s, next, width) ==> AgreeAfter(s, rows[..n], next, width)
  }

  predicate AgreeAfter(s: Settings, rows: seq<Row>, next: Row, width: nat)
    requires SourceRows(s, rows, width) && |next.bids| == |next.asks| == width
  {
    Agree(s, rows + [next], width)
  }

  /** What each tradable row has to meet. */
  predicate Alike(s: Settings, row: Row)
    requires 1 <= s.levels <= |row.bids| && s.levels <= |row.asks|
  {
    BooksAlike(s, row) && LevelOneAlike(s, row)
  }

  lemma {:induction false} AlikeAgree(s: Settings, rows: seq<Row>, width: nat)
    requires SourceRows(s, rows, width) && forall k :: 0 <= k < |rows| ==> Alike(s, rows[k])
    ensures Agree(s, rows, width) && StatesAlike(s, After(ByRow, s, rows, width), After(ByColumn, s, rows, width))
    decreases |rows|
  {
    hide BooksAlike, LevelOneAlike, RowEvents, NextPrevious, QuotesAlike;
    if rows == [] {
      assert StatesAlike(s, NO_PREVIOUS, NO_PREVIOUS) by { NoQuotesAlike(s); }
    } else {
      var n := |rows| - 1;
      var front, row := rows[..n], rows[n];
      assert rows == front + [row];
      AlikeAgree(s, front, width);
      BuildAppend(ByRow, s, front, row, width);
      BuildAppend(ByColumn, s, front, row, width);
      AlikeEvents(s, row, After(ByRow, s, front, width), After(ByColumn, s, front, width));
      AlikeNext(s, row, After(ByRow, s, front, width), After(ByColumn, s, front, width));
      hide StatesAlike, After, BuildFrom;
    }
  }

  lemma NoQuotesAlike(s: Settings)
    ensures QuotesAlike(s, NaN, NaN, NaN, NaN, NaN)
  {
  }

  // ---------------------------------------------------------------- rows that tell states apart

  function BlankSide(width: nat): (levels: seq<SideLevel>)
    ensures |levels| == width && forall k :: 0 <= k < width ==> levels[k] == SideLevel(NaN, Blank)
  {
    seq(width, _ => SideLevel(NaN, Blank))
  }

  /** A row without levels. */
  function BareRow(width: nat, volume: int, last: Num, tradable: bool): Row {
    Row(0, 0, volume, last, BlankSide(width), BlankSide(width), tradable)
  }

  lemma {:induction false} NothingAggregates(rule: QtyRule, levels: seq<SideLevel>)
    requires forall k :: 0 <= k < |levels| ==> levels[k] == SideLevel(NaN, Blank)
    ensures Aggregate(rule, levels) == []
    decreases |levels|
  {
    if levels != [] { NothingAggregates(rule, levels[..|levels| - 1]); }
  }

  lemma BareBook(c: Converter, s: Settings, width: nat, volume: int, last: Num, tradable: bool, side: BookSide)
    requires 1 <= s.levels <= width
    ensures FullBook(c, s, BareRow(width, volume, last, tradable), side) == []
  {
    var row := BareRow(width, volume, last, tradable);
    NothingAggregates(s.rule.(blankOnly := true), row.Side(side)[..s.levels]);
    NothingAggregates(s.rule.(blankOnly := false), row.Side(side));
  }

  lemma BareTradableEvents(c: Converter, s: Settings, width: nat, volume: int, last: Num, u: Previous)
    requires 1 <= s.levels <= width
    ensures RowEvents(c, s, BareRow(width, volume, last, true), u) == TradeEvents(s, BareRow(width, volume, last, true), u)
    ensures NextRow(s, BareRow(width, volume, last, true), width)
  {
    BareBook(ByRow, s, width, volume, last, true, Bid);
    BareBook(ByRow, s, width, volume, last, true, Ask);
    BareBook(ByColumn, s, width, volume, last, true, Bid);
    BareBook(ByColumn, s, width, volume, last, true, Ask);
    hide FullBook, TradeEvents;
  }

  lemma BareTrialEvents(c: Converter, s: Settings, width: nat, u: Previous)
    requires 1 <= s.levels <= width && s.depth
    ensures
      var row, marker := BareRow(width, 0, NaN, false), FirstPositive([u.ask, u.bid]);
      RowEvents(c, s, row, u)
      == if marker.NaN? then []
         else SideEvents(Bid, 0, 0, [Quoted(marker.value, 1.0)]) + SideEvents(Ask, 0, 0, [Quoted(marker.value, 1.0)])
    ensures NextRow(s, BareRow(width, 0, NaN, false), width)
  {
    var row := BareRow(width, 0, NaN, false);
    MarkerParts(row, u);
    assert [NaN, NaN, NaN][1..] == [NaN, NaN] && [NaN, NaN][1..] == [NaN] && [NaN][1..] == [];
    assert FirstPositive([NaN, NaN, NaN]) == NaN;
    hide FirstPositive, Marker;
  }

  /** States after the same rows that no next row can tell apart are alike. */
  lemma ToldApart(s: Settings, width: nat, u: Previous, v: Previous)
    requires 1 <= s.levels <= width && u.volume == v.volume && u.volume.Some? && u.last == v.last
    requires forall next: Row :: NextRow(s, next, width) ==> RowEvents(ByRow, s, next, u) == RowEvents(ByColumn, s, next, v)
    ensures StatesAlike(s, u, v)
  {
    hide NextRow, RowEvents, FirstPositive, BuyThreshold;
    if s.trades && s.tradeSide.Infer? {
      forall px | px > 0.0 ensures InferFlag(px, u.bid, u.ask, u.last) == InferFlag(px, v.bid, v.ask, u.last) {
        var row := BareRow(width, u.volume.value + 1, Num(px), true);
        BareTradableEvents(ByRow, s, width, u.volume.value + 1, Num(px), u);
        BareTradableEvents(ByColumn, s, width, u.volume.value + 1, Num(px), v);
        assert TradeEvents(s, row, u)[0].side == InferFlag(px, u.bid, u.ask, u.last);
        assert TradeEvents(s, row, v)[0].side == InferFlag(px, v.bid, v.ask, v.last);
      }
      FlagsAgreeIff(u.bid, u.ask, v.bid, v.ask, u.last);
    }
    if s.depth {
      BareTrialEvents(ByRow, s, width, u);
      BareTrialEvents(ByColumn, s, width, v);
      var m, n := FirstPositive([u.ask, u.bid]), FirstPositive([v.ask, v.bid]);
      if m.Num? && n.Num? {
        assert RowEvents(ByRow, s, BareRow(width, 0, NaN, false), u)[0].px == m;
        assert RowEvents(ByColumn, s, BareRow(width, 0, NaN, false), v)[0].px == n;
      }
    }
  }

  // ---------------------------------------------------------------- agreeing rows are alike

  lemma SideEventsTell(side: BookSide, exchTs: int, localTs: int, a: seq<Quoted>, b: seq<Quoted>)
    requires SideEvents(side, exchTs, localTs, a) == SideEvents(side, exchTs, localTs, b)
    ensures a == b
  {
    var e, f := SideEvents(side, exchTs, localTs, a), SideEvents(side, exchTs, localTs, b);
    assert |a| == |b|;
    forall k | 0 <= k < |a| ensures a[k] == b[k] {
      assert e[k + 1] == Snapshots(side, exchTs, localTs, a)[k] && f[k + 1] == Snapshots(side, exchTs, localTs, b)[k];
    }
  }

  lemma SidesSplit(a: seq<Event>, b: seq<Event>, a': seq<Event>, b': seq<Event>)
    requires a + b == a' + b'
    requires (forall k :: 0 <= k < |a| ==> a[k].side == Bid) && (forall k :: 0 <= k < |a'| ==> a'[k].side == Bid)
    requires (forall k :: 0 <= k < |b| ==> b[k].side == Ask) && (forall k :: 0 <= k < |b'| ==> b'[k].side == Ask)
    ensures a == a' && b == b'
  {
    LeadingBidsOf(a, b);
    LeadingBidsOf(a', b');
    assert a == (a + b)[..|a|] && a' == (a' + b')[..|a'|] && b == (a + b)[|a|..] && b' == (a' + b')[|a'|..];
  }

  function LeadingBids(events: seq<Event>): nat {
    if events == [] || events[0].side.Ask? then 0 else 1 + LeadingBids(events[1..])
  }

  lemma {:induction false} LeadingBidsOf(a: seq<Event>, b: seq<Event>)
    requires (forall k :: 0 <= k < |a| ==> a[k].side == Bid) && (forall k :: 0 <= k < |b| ==> b[k].side == Ask)
    ensures LeadingBids(a + b) == |a|
    decreases |a|
  {
    if a == [] {
      assert a + b == b;
    } else {
      assert (a + b)[1..] == a[1..] + b;
      LeadingBidsOf(a[1..], b);
    }
  }

  lemma SideOfEvents(side: BookSide, exchTs: int, localTs: int, book: seq<Quoted>)
    ensures forall k :: 0 <= k < |SideEvents(side, exchTs, localTs, book)| ==> SideEvents(side, exchTs, localTs, book)[k].side == side
  {
  }

  lemma DropTrade(trade: seq<Event>, x: seq<Event>, y: seq<Event>, x': seq<Event>, y': seq<Event>)
    requires trade + x + y == trade + x' + y'
    ensures x + y == x' + y'
  {
    assert (trade + x + y)[|trade|..] == x + y && (trade + x' + y')[|trade|..] == x' + y';
  }

  /** From alike states, equal events of a row mean equal emitted levels. */
  lemma EqualEventsEqualBooks(s: Settings, row: Row, u: Previous, v: Previous)
    requires 1 <= s.levels <= |row.bids| && s.levels <= |row.asks|
    requires StatesAlike(s, u, v) && RowEvents(ByRow, s, row, u) == RowEvents(ByColumn, s, row, v)
    ensures BooksAlike(s, row)
  {
    if row.tradable {
      var trade, trade' := TradeEvents(s, row, u), TradeEvents(s, row, v);
      TradesAgree(s, row, u, v);
      var bid, ask := EmittedBook(ByRow, s, row, u, Bid), EmittedBook(ByRow, s, row, u, Ask);
      var bid', ask' := EmittedBook(ByColumn, s, row, v, Bid), EmittedBook(ByColumn, s, row, v, Ask);
      assert bid == EmittedBook(ByRow, s, row, NO_PREVIOUS, Bid) && ask == EmittedBook(ByRow, s, row, NO_PREVIOUS, Ask);
      assert bid' == EmittedBook(ByColumn, s, row, NO_PREVIOUS, Bid) && ask' == EmittedBook(ByColumn, s, row, NO_PREVIOUS, Ask);
      hide EmittedBook, TradeEvents, FullBook, StatesAlike, SideEvents;
      var x, y := SideEvents(Bid, row.exchTs, row.localTs, bid), SideEvents(Ask, row.exchTs, row.localTs, ask);
      var x', y' := SideEvents(Bid, row.exchTs, row.localTs, bid'), SideEvents(Ask, row.exchTs, row.localTs, ask');
      assert trade + x + y == trade + x' + y';
      hide RowEvents;
      DropTrade(trade, x, y, x', y');
      SideOfEvents(Bid, row.exchTs, row.localTs, bid);
      SideOfEvents(Bid, row.exchTs, row.localTs, bid');
      SideOfEvents(Ask, row.exchTs, row.localTs, ask);
      SideOfEvents(Ask, row.exchTs, row.localTs, ask');
      SidesSplit(x, y, x', y');
      SideEventsTell(Bid, row.exchTs, row.localTs, bid, bid');
      SideEventsTell(Ask, row.exchTs, row.localTs, ask, ask');
    }
  }

  lemma SameEndSameStart(a: seq<Event>, a': seq<Event>, b: seq<Event>)
    requires a + b == a' + b
    ensures a == a'
  {
    assert |a| == |a'|;
    assert a == (a + b)[..|a|] && a' == (a' + b)[..|a'|];
  }

  lemma SameStartSameEnd(a: seq<Event>, b: seq<Event>, b': seq<Event>)
    requires a + b == a + b'
    ensures b == b'
  {
    assert b == (a + b)[|a|..] && b' == (a + b')[|a|..];
  }

  /** A row that emits nothing shows that the rows before it agree. */
  lemma AgreeHere(s: Settings, rows: seq<Row>, width: nat, n: nat)
    requires SourceRows(s, rows, width) && AgreeWherever(s, rows, width) && n <= |rows|
    ensures Agree(s, rows[..n], width)
  {
    var silent := BareRow(width, 0, NaN, true);
    BareTradableEvents(ByRow, s, width, 0, NaN, After(ByRow, s, rows[..n], width));
    BareTradableEvents(ByColumn, s, width, 0, NaN, After(ByColumn, s, rows[..n], width));
    hide RowEvents, BuildFrom, After, NextRow;
    assert AgreeAfter(s, rows[..n], silent, width);
    BuildAppend(ByRow, s, rows[..n], silent, width);
    BuildAppend(ByColumn, s, rows[..n], silent, width);
    SameEndSameStart(BuildFrom(ByRow, s, rows[..n], width, NO_PREVIOUS), BuildFrom(ByColumn, s, rows[..n], width, NO_PREVIOUS), []);
  }

  /** So any next row gives the same events after them. */
  lemma NextEventsAgree(s: Settings, rows: seq<Row>, width: nat, n: nat, next: Row)
    requires SourceRows(s, rows, width) && AgreeWherever(s, rows, width) && n <= |rows| && NextRow(s, next, width)
    ensures RowEvents(ByRow, s, next, After(ByRow, s, rows[..n], width)) == RowEvents(ByColumn, s, next, After(ByColumn, s, rows[..n], width))
  {
    AgreeHere(s, rows, width, n);
    hide RowEvents, BuildFrom, After;
    assert AgreeAfter(s, rows[..n], next, width);
    BuildAppend(ByRow, s, rows[..n], next, width);
    BuildAppend(ByColumn, s, rows[..n], next, width);
    SameStartSameEnd(BuildFrom(ByRow, s, rows[..n], width, NO_PREVIOUS),
                     RowEvents(ByRow, s, next, After(ByRow, s, rows[..n], width)),
                     RowEvents(ByColumn, s, next, After(ByColumn, s, rows[..n], width)));
  }

  lemma StatesStartAlike(s: Settings, rows: seq<Row>, width: nat)
    requires SourceRows(s, rows, width)
    ensures After(ByRow, s, rows, width).volume == After(ByColumn, s, rows, width).volume
    ensures After(ByRow, s, rows, width).last == After(ByColumn, s, rows, width).last
    ensures rows != [] ==> After(ByRow, s, rows, width).volume.Some?
    decreases |rows|
  {
    hide FullBook;
    if rows != [] { StatesStartAlike(s, rows[..|rows| - 1], width); }
  }

  /** Converters that agree wherever the rows are cut have alike rows, and alike states after them. */
  lemma {:induction false} AgreeingRowsAlike(s: Settings, rows: seq<Row>, width: nat, n: nat)
    requires SourceRows(s, rows, width) && AgreeWherever(s, rows, width) && n <= |rows|
    ensures forall k :: 0 <= k < n ==> Alike(s, rows[k])
    ensures StatesAlike(s, After(ByRow, s, rows[..n], width), After(ByColumn, s, rows[..n], width))
    decreases n
  {
    hide RowEvents, BuildFrom, BooksAlike, AgreeWherever, StatesAlike, NextPrevious;
    if n == 0 {
      NoStatesAlike(s);
    } else {
      AgreeingRowsAlike(s, rows, width, n - 1);
      var row, front := rows[n - 1], rows[..n - 1];
      var u, v := After(ByRow, s, front, width), After(ByColumn, s, front, width);
      var u', v' := After(ByRow, s, rows[..n], width), After(ByColumn, s, rows[..n], width);
      assert rows[..n] == front + [row] && rows[..n][..n - 1] == front;
      AgreeHere(s, rows, width, n - 1);
      AgreeHere(s, rows, width, n);
      BuildAppend(ByRow, s, front, row, width);
      BuildAppend(ByColumn, s, front, row, width);
      SameStartSameEnd(BuildFrom(ByRow, s, front, width, NO_PREVIOUS), RowEvents(ByRow, s, row, u), RowEvents(ByColumn, s, row, v));
      EqualEventsEqualBooks(s, row, u, v);
      StatesStartAlike(s, rows[..n], width);
      forall next: Row | NextRow(s, next, width) ensures RowEvents(ByRow, s, next, u') == RowEvents(ByColumn, s, next, v') {
        NextEventsAgree(s, rows, width, n, next);
      }
      ToldApart(s, width, u', v');
      LevelOneFromStates(s, row, u, v);
    }
  }

  lemma NoStatesAlike(s: Settings)
    ensures StatesAlike(s, NO_PREVIOUS, NO_PREVIOUS)
  {
  }

  lemma LevelOneFromStates(s: Settings, row: Row, u: Previous, v: Previous)
    requires 1 <= s.levels <= |row.bids| && s.levels <= |row.asks|
    requires StatesAlike(s, NextPrevious(ByRow, s, row, u), NextPrevious(ByColumn, s, row, v))
    ensures LevelOneAlike(s, row)
  {
    hide FullBook, FirstPositive, BuyThreshold;
  }

  /** The converters agree on the rows, cut anywhere and continued by any row, iff in each tradable row
      they emit the same levels and the raw level 1 acts like the best valid level. */
  lemma AgreeWhereverIff(s: Settings, rows: seq<Row>, width: nat)
    requires SourceRows(s, rows, width)
    ensures AgreeWherever(s, rows, width) <==> forall k :: 0 <= k < |rows| ==> Alike(s, rows[k])
  {
    if AgreeWherever(s, rows, width) {
      AgreeingRowsAlike(s, rows, width, |rows|);
    } else {
      hide Agree, Alike;
      var n: nat, next: Row :| n <= |rows| && NextRow(s, next, width) && !AgreeAfter(s, rows[..n], next, width);
      if forall k :: 0 <= k < |rows| ==> Alike(s, rows[k]) {
        AlikeContinue(s, rows[..n], next, width);
      }
    }
  }

  lemma AlikeContinue(s: Settings, rows: seq<Row>, next: Row, width: nat)
    requires SourceRows(s, rows, width) && (forall k :: 0 <= k < |rows| ==> Alike(s, rows[k])) && NextRow(s, next, width)
    ensures AgreeAfter(s, rows, next, width)
  {
    hide RowEvents, After, BuildFrom, StatesAlike, BooksAlike;
    AlikeAgree(s, rows, width);
    BuildAppend(ByRow, s, rows, next, width);
    BuildAppend(ByColumn, s, rows, next, width);
    AlikeEvents(s, next, After(ByRow, s, rows, width), After(ByColumn, s, rows, width));
  }

  // ---------------------------------------------------------------- well-quoted rows

  /** No explicit NaN quantity at a valid price in price-only mode. */
  predicate PlainQuantities(s: Settings, levels: seq<SideLevel>) {
    s.rule.priceOnlyQty.Num? ==> forall k :: 0 <= k < |levels| ==> levels[k].px.Positive() ==> levels[k].qty != Value(NaN)
  }

  /** Level 1 holds the best valid price, or no price when the side has no valid level. */
  predicate LevelOneIsBest(s: Settings, row: Row, side: BookSide)
    requires 1 <= s.levels <= |row.Side(side)|
  {
    row.Side(side)[0].px == BestOf(FullBook(ByColumn, s, row, side))
  }

  predicate WellQuoted(s: Settings, row: Row)
    requires 1 <= s.levels <= |row.bids| && s.levels <= |row.asks|
  {
    row.tradable ==>
      && PlainQuantities(s, row.bids) && PlainQuantities(s, row.asks)
      && LevelOneIsBest(s, row, Bid) && LevelOneIsBest(s, row, Ask)
  }

  lemma {:induction false} AggregateAgrees(s: Settings, levels: seq<SideLevel>)
    requires PlainQuantities(s, levels)
    ensures Aggregate(s.rule.(blankOnly := true), levels) == Aggregate(s.rule.(blankOnly := false), levels)
  {
    if levels != [] {
      AggregateAgrees(s, levels[..|levels| - 1]);
      LevelQtyAgreesIff(s.rule, levels[|levels| - 1]);
    }
  }

  lemma FullBooksAgree(s: Settings, row: Row, side: BookSide)
    requires |row.Side(side)| == s.levels && PlainQuantities(s, row.Side(side))
    ensures FullBook(ByRow, s, row, side) == FullBook(ByColumn, s, row, side)
  {
    assert row.Side(side)[..s.levels] == row.Side(side);
    AggregateAgrees(s, row.Side(side));
  }

  /** A well-quoted row without deeper source columns than the selected levels is alike. */
  lemma WellQuotedAlike(s: Settings, row: Row)
    requires 1 <= s.levels == |row.bids| == |row.asks| && WellQuoted(s, row)
    ensures Alike(s, row)
  {
    if row.tradable {
      FullBooksAgree(s, row, Bid);
      FullBooksAgree(s, row, Ask);
    }
    hide FullBook, BuyThreshold, FirstPositive;
  }

  /** With no deeper source columns than the selected levels and a best valid level 1, the columnar
      converter emits the row converter's events: trial rows and inferred trade sides included. */
  lemma ConvertersAgree(s: Settings, rows: seq<Row>, width: nat)
    requires SourceRows(s, rows, width) && width == s.levels
    requires forall k :: 0 <= k < |rows| ==> WellQuoted(s, rows[k])
    ensures Agree(s, rows, width)
  {
    forall k | 0 <= k < |rows| ensures Alike(s, rows[k]) { WellQuotedAlike(s, rows[k]); }
    hide Alike, WellQuoted;
    AlikeAgree(s, rows, width);
  }

  // ---------------------------------------------------------------- inputs

  /** Level 1 has a price but no quantity; level 2 is the best quoted bid. */
  function UnquotedBids(): seq<SideLevel> {
    [SideLevel(Num(100.0), Value(Num(0.0))), SideLevel(Num(99.0), Value(Num(1.0)))]
  }

  function NoAsks(): seq<SideLevel> { [SideLevel(NaN, Blank), SideLevel(NaN, Blank)] }

  function UnquotedSettings(): Settings { Settings(2, QtyRule(1.0, NaN, false), true, Infer, true) }

  function UnquotedRow(ts: int, volume: int, last: Num): Row { Row(ts, ts, volume, last, UnquotedBids(), NoAsks(), true) }

  lemma UnquotedBidBook(c: Converter)
    ensures FullBook(c, UnquotedSettings(), UnquotedRow(1, 10, NaN), Bid) == [Quoted(99.0, 1.0)]
  {
    var bids := UnquotedBids();
    assert bids[..2] == bids && bids[..1][..0] == [] && bids[..1][0] == bids[0];
    assert Aggregate(UnquotedSettings().rule.(blankOnly := c.ByRow?), bids) == [Quoted(99.0, 1.0)];
    assert [Quoted(99.0, 1.0)][..0] == [];
    assert SortQuoted(Bid, [Quoted(99.0, 1.0)]) == [Quoted(99.0, 1.0)];
  }

  lemma UnquotedAskBook(c: Converter)
    ensures FullBook(c, UnquotedSettings(), UnquotedRow(1, 10, NaN), Ask) == []
  {
    var asks := NoAsks();
    assert asks[..2] == asks && asks[..1][..0] == [] && asks[..1][0] == asks[0];
    assert Aggregate(UnquotedSettings().rule.(blankOnly := c.ByRow?), asks) == [];
  }

  /** A level 1 without quantity: the row converter remembers its price, the columnar one the next
      valid level, and the following trade changes side. */
  lemma UnquotedLevelOneDiffers()
    ensures
      var rows := [UnquotedRow(1, 10, NaN), UnquotedRow(2, 11, Num(100.0))];
      && SourceRows(UnquotedSettings(), rows, 2)
      && BuildFrom(ByRow, UnquotedSettings(), rows, 2, NO_PREVIOUS)
         != BuildFrom(ByColumn, UnquotedSettings(), rows, 2, NO_PREVIOUS)
  {
    hide BuildFrom, RowEvents, TradeEvents, Aggregate, SortQuoted;
    var first, second := UnquotedRow(1, 10, NaN), UnquotedRow(2, 11, Num(100.0));
    UnquotedBidBook(ByRow);
    UnquotedBidBook(ByColumn);
    UnquotedAskBook(ByRow);
    UnquotedAskBook(ByColumn);
    SamePrefix(UnquotedSettings(), [first, second], ByRow, ByColumn, first, second);
  }

  /** The flag of the second row's trade tells the two builds apart. */
  lemma SamePrefix(s: Settings, rows: seq<Row>, c: Converter, d: Converter, first: Row, second: Row)
    requires SourceRows(s, rows, s.levels) && rows == [first, second]
    requires |first.bids| == |first.asks| == |second.bids| == |second.asks| == s.levels
    requires first.tradable && second.tradable && s.trades && s.tradeSide.Infer?
    requires second.lastPrice.Positive() && second.totalVolume > first.totalVolume
    requires TradeFlag(s, second.lastPrice.value, NextPrevious(c, s, first, NO_PREVIOUS))
          != TradeFlag(s, second.lastPrice.value, NextPrevious(d, s, first, NO_PREVIOUS))
    ensures BuildFrom(c, s, rows, s.levels, NO_PREVIOUS) != BuildFrom(d, s, rows, s.levels, NO_PREVIOUS)
  {
    assert rows[1..] == [second];
    FirstTrade(c, s, first, second);
    FirstTrade(d, s, first, second);
  }

  /** The first trade event of a list, if any. */
  function FirstTradeFlag(events: seq<Event>): Option<BookSide> {
    if events == [] then None else if events[0].kind.Trade? then Some(events[0].side) else FirstTradeFlag(events[1..])
  }

  lemma {:induction false} FirstTradeAfter(a: seq<Event>, b: seq<Event>)
    requires forall k :: 0 <= k < |a| ==> !a[k].kind.Trade?
    ensures FirstTradeFlag(a + b) == FirstTradeFlag(b)
  {
    if a == [] {
      assert a + b == b;
    } else {
      assert (a + b)[1..] == a[1..] + b;
      FirstTradeAfter(a[1..], b);
    }
  }

  lemma FirstTrade(c: Converter, s: Settings, first: Row, second: Row)
    requires SourceRows(s, [first, second], s.levels)
    requires |first.bids| == |first.asks| == |second.bids| == |second.asks| == s.levels
    requires first.tradable && second.tradable && s.trades && s.tradeSide.Infer?
    requires second.lastPrice.Positive() && second.totalVolume > first.totalVolume
    ensures FirstTradeFlag(BuildFrom(c, s, [first, second], s.levels, NO_PREVIOUS))
         == Some(TradeFlag(s, second.lastPrice.value, NextPrevious(c, s, first, NO_PREVIOUS)))
  {
    var next := NextPrevious(c, s, first, NO_PREVIOUS);
    var head := RowEvents(c, s, first, NO_PREVIOUS);
    var tail := RowEvents(c, s, second, next);
    FirstRowHasNoTrade(c, s, first);
    SecondRowTrades(c, s, second, next);
    hide RowEvents, NextPrevious, TradeEvents;
    TwoRows(c, s, first, second);
    FirstTradeAfter(head, tail);
  }

  lemma TwoRows(c: Converter, s: Settings, first: Row, second: Row)
    requires SourceRows(s, [first, second], s.levels)
    requires |first.bids| == |first.asks| == |second.bids| == |second.asks| == s.levels
    ensures BuildFrom(c, s, [first, second], s.levels, NO_PREVIOUS)
         == RowEvents(c, s, first, NO_PREVIOUS) + RowEvents(c, s, second, NextPrevious(c, s, first, NO_PREVIOUS))
  {
    hide RowEvents, NextPrevious;
    assert [first, second][1..] == [second] && [second][1..] == [];
    assert BuildFrom(c, s, [second], s.levels, NextPrevious(c, s, first, NO_PREVIOUS))
        == RowEvents(c, s, second, NextPrevious(c, s, first, NO_PREVIOUS));
  }

  lemma FirstRowHasNoTrade(c: Converter, s: Settings, row: Row)
    requires 1 <= s.levels <= |row.bids| && s.levels <= |row.asks|
    ensures
      var events := RowEvents(c, s, row, NO_PREVIOUS);
      forall k :: 0 <= k < |events| ==> !events[k].kind.Trade?
  {
  }

  lemma SecondRowTrades(c: Converter, s: Settings, row: Row, previous: Previous)
    requires 1 <= s.levels <= |row.bids| && s.levels <= |row.asks|
    requires row.tradable && TradeEvents(s, row, previous) != []
    ensures RowEvents(c, s, row, previous) != []
    ensures RowEvents(c, s, row, previous)[0] == TradeEvents(s, row, previous)[0]
  {
  }

  /** A side without orders quoted at price zero. */
  function ZeroAskRow(ts: int, volume: int, last: Num): Row {
    Row(ts, ts, volume, last, [SideLevel(Num(99.0), Value(Num(1.0)))], [SideLevel(Num(0.0), Blank)], true)
  }

  function ZeroAskSettings(): Settings { Settings(1, QtyRule(1.0, NaN, false), true, Infer, true) }

  lemma ZeroAskBook(side: BookSide)
    ensures FullBook(ByColumn, ZeroAskSettings(), ZeroAskRow(1, 10, NaN), side)
         == if side.Bid? then [Quoted(99.0, 1.0)] else []
  {
    var levels := ZeroAskRow(1, 10, NaN).Side(side);
    assert levels[..1] == levels && levels[..0] == [];
    assert [Quoted(99.0, 1.0)][..0] == [];
  }

  /** A raw ask of zero: the row converter takes every later trade for a buy, the columnar one not. */
  lemma ZeroAskDiffers()
    ensures
      var rows := [ZeroAskRow(1, 10, NaN), ZeroAskRow(2, 11, Num(98.0))];
      && SourceRows(ZeroAskSettings(), rows, 1)
      && BuildFrom(ByRow, ZeroAskSettings(), rows, 1, NO_PREVIOUS)
         != BuildFrom(ByColumn, ZeroAskSettings(), rows, 1, NO_PREVIOUS)
  {
    hide BuildFrom, RowEvents, TradeEvents, Aggregate, SortQuoted;
    ZeroAskBook(Bid);
    ZeroAskBook(Ask);
    var first, second := ZeroAskRow(1, 10, NaN), ZeroAskRow(2, 11, Num(98.0));
    SamePrefix(ZeroAskSettings(), [first, second], ByRow, ByColumn, first, second);
  }
}
