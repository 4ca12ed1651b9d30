/** Replaying converted events rebuilds each side of the latest book image. */
module BookReplay {
  import opened Events
  import opened DepthBook
  import opened EventBuilder

  type DepthMap = map<real, real>

  /** At least as good a price of its side. */
  predicate AsGood(side: BookSide, a: real, b: real) { a == b || Better(side, a, b) }

  /** What one event does to the price levels of a side; depth events carry a price. */
  function ApplySide(depth: DepthMap, side: BookSide, e: Event): DepthMap {
    if e.side != side || e.kind.Trade? || e.px.NaN? then depth
    else if e.kind.DepthClear? then map p | p in depth && !AsGood(side, p, e.px.value) :: depth[p]
    else if e.qty.Positive() then depth[e.px.value := e.qty.value]
    else depth - {e.px.value}
  }

  function ReplaySide(depth: DepthMap, side: BookSide, events: seq<Event>): DepthMap
    decreases |events|
  {
    if events == [] then depth else ReplaySide(ApplySide(depth, side, events[0]), side, events[1..])
  }

  /** The best price among the levels, NaN when there is none. */
  ghost predicate IsBest(side: BookSide, best: Num, prices: set<real>) {
    if prices == {} then best == NaN
    else best.Num? && best.value in prices && forall p :: p in prices ==> AsGood(side, best.value, p)
  }

  lemma EmptyOrInhabited(prices: set<real>)
    ensures prices == {} || exists p :: p in prices
  {
    assert (forall p :: p !in prices) ==> prices == {};
  }

  /** The mutable replay state. */
  class ReplayState {
    var bidDepth: DepthMap
    var askDepth: DepthMap
    var bestBid: Num
    var bestAsk: Num

    ghost predicate Valid()
      reads this
    {
      IsBest(Bid, bestBid, bidDepth.Keys) && IsBest(Ask, bestAsk, askDepth.Keys)
    }

    constructor ()
      ensures Valid() && bidDepth == map[] && askDepth == map[]
    {
      bidDepth, askDepth := map[], map[];
      bestBid, bestAsk := NaN, NaN;
    }

    method Apply(e: Event)
      requires Valid() && e.px.Num?
      modifies this
      ensures Valid()
      ensures bidDepth == ApplySide(old(bidDepth), Bid, e)
      ensures askDepth == ApplySide(old(askDepth), Ask, e)
    {
      if e.side.Bid? {
        bidDepth := Updated(bidDepth, e);
        bestBid := BestPrice(Bid, bidDepth.Keys);
      } else {
        askDepth := Updated(askDepth, e);
        bestAsk := BestPrice(Ask, askDepth.Keys);
      }
    }

    static method Updated(depth: DepthMap, e: Event) returns (after: DepthMap)
      requires e.px.Num?
      ensures after == ApplySide(depth, e.side, e)
    {
      after := depth;
      if e.kind.DepthClear? {
        var prices := depth.Keys;
        while prices != {}
          invariant prices <= depth.Keys
          invariant after == map p | p in depth && (p in prices || !AsGood(e.side, p, e.px.value)) :: depth[p]
          decreases prices
        {
          var p := Pick(prices);
          if AsGood(e.side, p, e.px.value) {
            after := after - {p};
          }
          prices := prices - {p};
        }
      } else if e.kind.Depth? || e.kind.DepthSnapshot? {
        if e.qty.Positive() {
          after := after[e.px.value := e.qty.value];
        } else {
          after := after - {e.px.value};
        }
      }
    }

    static method Pick(prices: set<real>) returns (p: real)
      requires prices != {}
      ensures p in prices
    {
      EmptyOrInhabited(prices);
      p :| p in prices;
    }

    /** max or min of the price levels. */
    static method BestPrice(side: BookSide, prices: set<real>) returns (best: Num)
      ensures IsBest(side, best, prices)
    {
      best := NaN;
      var rest := prices;
      while rest != {}
        invariant rest <= prices
        invariant IsBest(side, best, prices - rest)
        decreases rest
      {
        var p := Pick(rest);
        assert prices - (rest - {p}) == (prices - rest) + {p};
        rest := rest - {p};
        if best.NaN? || Better(side, p, best.value) {
          best := Num(p);
        }
      }
      assert prices - rest == prices;
    }
  }

  // ---------------------------------------------------------------- one side of one row

  /** The levels from a book's best to its worst price are exactly the book's. */
  ghost predicate ShowsBook(depth: DepthMap, side: BookSide, book: seq<Quoted>) {
    if book == [] then depth == map[]
    else
      && (forall k :: 0 <= k < |book| ==> book[k].px in depth && depth[book[k].px] == book[k].qty)
      && (forall p :: p in depth && AsGood(side, p, book[|book| - 1].px) ==> HasPrice(book, p))
  }

  lemma {:induction false} ReplayConcat(depth: DepthMap, side: BookSide, a: seq<Event>, b: seq<Event>)
    ensures ReplaySide(depth, side, a + b) == ReplaySide(ReplaySide(depth, side, a), side, b)
    decreases |a|
  {
    if a == [] {
      assert a + b == b;
    } else {
      assert (a + b)[1..] == a[1..] + b;
      ReplayConcat(ApplySide(depth, side, a[0]), side, a[1..], b);
    }
  }

  lemma {:induction false} ReplayIgnores(depth: DepthMap, side: BookSide, events: seq<Event>)
    requires forall k :: 0 <= k < |events| ==> events[k].side != side || events[k].kind.Trade?
    ensures ReplaySide(depth, side, events) == depth
    decreases |events|
  {
    if events != [] { ReplayIgnores(depth, side, events[1..]); }
  }

  /** Inserting snapshot levels adds exactly them and leaves every other level alone. */
  lemma {:induction false} ReplaySnapshots(depth: DepthMap, side: BookSide, exchTs: int, localTs: int, book: seq<Quoted>)
    requires DistinctPrices(book) && forall k :: 0 <= k < |book| ==> book[k].qty > 0.0
    ensures
      var r := ReplaySide(depth, side, Snapshots(side, exchTs, localTs, book));
      && (forall k :: 0 <= k < |book| ==> book[k].px in r && r[book[k].px] == book[k].qty)
      && (forall p :: !HasPrice(book, p) ==> (p in r <==> p in depth) && (p in r ==> r[p] == depth[p]))
    decreases |book|
  {
    if book != [] {
      var front, last := book[..|book| - 1], book[|book| - 1];
      var events := Snapshots(side, exchTs, localTs, front);
      var one := Snapshots(side, exchTs, localTs, [last]);
      assert Snapshots(side, exchTs, localTs, book) == events + one;
      ReplayConcat(depth, side, events, one);
      ReplaySnapshots(depth, side, exchTs, localTs, front);
      var before := ReplaySide(depth, side, events);
      assert one[1..] == [];
      assert ReplaySide(before, side, one) == before[last.px := last.qty];
      forall k | 0 <= k < |book| - 1 ensures book[k].px in before && before[book[k].px] == book[k].qty && book[k].px != last.px {
        assert front[k] == book[k] && book[k].px != book[|book| - 1].px;
      }
      assert HasPrice(book, last.px) by { assert book[|book| - 1].px == last.px; }
      forall p | HasPrice(front, p) ensures HasPrice(book, p) {
        var k :| 0 <= k < |front| && front[k].px == p;
        assert book[k].px == p;
      }
    }
  }

  lemma BestFirstDistinct(side: BookSide, book: seq<Quoted>)
    requires BestFirst(side, book)
    ensures DistinctPrices(book)
    ensures forall k :: 0 <= k < |book| ==> AsGood(side, book[0].px, book[k].px) && AsGood(side, book[k].px, book[|book| - 1].px)
  {
  }

  /** Clearing to the worst price and inserting the levels makes the side show the book. */
  lemma ReplaySideEvents(depth: DepthMap, side: BookSide, exchTs: int, localTs: int, book: seq<Quoted>)
    requires BestFirst(side, book) && book != [] && forall k :: 0 <= k < |book| ==> book[k].qty > 0.0
    ensures ShowsBook(ReplaySide(depth, side, SideEvents(side, exchTs, localTs, book)), side, book)
  {
    var worst := book[|book| - 1].px;
    var events := SideEvents(side, exchTs, localTs, book);
    var cleared := ApplySide(depth, side, events[0]);
    assert events[1..] == Snapshots(side, exchTs, localTs, book);
    BestFirstDistinct(side, book);
    ReplaySnapshots(cleared, side, exchTs, localTs, book);
  }

  /** The best price of a side that shows a book is the book's best. */
  lemma BestOfShown(depth: DepthMap, side: BookSide, book: seq<Quoted>, best: Num)
    requires ShowsBook(depth, side, book) && BestFirst(side, book) && IsBest(side, best, depth.Keys)
    ensures best == BestOf(book)
  {
  }

  // ---------------------------------------------------------------- whole conversions

  /** The last nonempty book emitted for a side, or `book` if no row emits one. */
  function LatestBook(
    c: Converter, s: Settings, rows: seq<Row>, width: nat, previous: Previous, side: BookSide, book: seq<Quoted>): seq<Quoted>
    requires SourceRows(s, rows, width)
  {
    if rows == [] then book
    else
      var emitted := EmittedBook(c, s, rows[0], previous, side);
      LatestBook(c, s, rows[1..], width, NextPrevious(c, s, rows[0], previous), side, if emitted == [] then book else emitted)
  }

  lemma FirstPositiveIsPositive(values: seq<Num>)
    ensures FirstPositive(values).Num? ==> FirstPositive(values).Positive()
  {
  }

  lemma EmittedIsBook(c: Converter, s: Settings, row: Row, previous: Previous, side: BookSide)
    requires 1 <= s.levels <= |row.bids| && s.levels <= |row.asks|
    ensures
      var book := EmittedBook(c, s, row, previous, side);
      BestFirst(side, book) && forall k :: 0 <= k < |book| ==> book[k].qty > 0.0 && book[k].px > 0.0
  {
    FirstPositiveIsPositive([row.asks[0].px, row.bids[0].px, row.lastPrice, previous.ask, previous.bid]);
    var rule := s.rule.(blankOnly := c.ByRow?);
    var levels := if c.ByRow? then row.Side(side)[..s.levels] else row.Side(side);
    SideBookQuotes(rule, side, levels);
    assert FullBook(c, s, row, side) == SideBook(rule, side, levels);
  }

  /** A row's events act on a side only through the book the row emits for it. */
  lemma RowActsOnSide(depth: DepthMap, c: Converter, s: Settings, row: Row, previous: Previous, side: BookSide)
    requires 1 <= s.levels <= |row.bids| && s.levels <= |row.asks|
    ensures ReplaySide(depth, side, RowEvents(c, s, row, previous))
         == ReplaySide(depth, side, SideEvents(side, row.exchTs, row.localTs, EmittedBook(c, s, row, previous, side)))
  {
    var trades := if row.tradable then TradeEvents(s, row, previous) else [];
    var bids := SideEvents(Bid, row.exchTs, row.localTs, EmittedBook(c, s, row, previous, Bid));
    var asks := SideEvents(Ask, row.exchTs, row.localTs, EmittedBook(c, s, row, previous, Ask));
    assert RowEvents(c, s, row, previous) == trades + bids + asks;
    assert forall k :: 0 <= k < |trades| ==> trades[k].kind.Trade?;
    assert forall k :: 0 <= k < |bids| ==> bids[k].side == Bid;
    assert forall k :: 0 <= k < |asks| ==> asks[k].side == Ask;
    hide RowEvents, EmittedBook, SideEvents, TradeEvents, ApplySide;
    ReplayConcat(depth, side, trades + bids, asks);
    ReplayConcat(depth, side, trades, bids);
    ReplayIgnores(depth, side, trades);
    if side.Bid? {
      ReplayIgnores(ReplaySide(depth, Bid, bids), Bid, asks);
    } else {
      ReplayIgnores(depth, Ask, bids);
    }
  }

  lemma RowShowsBook(
    depth: DepthMap, c: Converter, s: Settings, row: Row, previous: Previous, side: BookSide, book: seq<Quoted>)
    requires 1 <= s.levels <= |row.bids| && s.levels <= |row.asks|
    requires ShowsBook(depth, side, book) && BestFirst(side, book)
    ensures
      var emitted := EmittedBook(c, s, row, previous, side);
      && ShowsBook(ReplaySide(depth, side, RowEvents(c, s, row, previous)), side, if emitted == [] then book else emitted)
      && BestFirst(side, if emitted == [] then book else emitted)
  {
    RowActsOnSide(depth, c, s, row, previous, side);
    EmittedIsBook(c, s, row, previous, side);
    hide RowEvents, ApplySide;
    if EmittedBook(c, s, row, previous, side) != [] {
      ReplaySideEvents(depth, side, row.exchTs, row.localTs, EmittedBook(c, s, row, previous, side));
    }
  }

  /** After replaying the events of any rows, each side shows exactly the latest book emitted for it. */
  lemma {:induction false} ReplayShowsLatest(
    depth: DepthMap, c: Converter, s: Settings, rows: seq<Row>, width: nat, previous: Previous, side: BookSide, book: seq<Quoted>)
    requires SourceRows(s, rows, width) && ShowsBook(depth, side, book) && BestFirst(side, book)
    ensures
      var latest := LatestBook(c, s, rows, width, previous, side, book);
      && ShowsBook(ReplaySide(depth, side, BuildFrom(c, s, rows, width, previous)), side, latest)
      && BestFirst(side, latest)
    decreases |rows|
  {
    if rows != [] {
      var emitted := EmittedBook(c, s, rows[0], previous, side);
      var events := RowEvents(c, s, rows[0], previous);
      var next := NextPrevious(c, s, rows[0], previous);
      RowShowsBook(depth, c, s, rows[0], previous, side, book);
      hide RowEvents, NextPrevious, EmittedBook, ShowsBook;
      ReplayConcat(depth, side, events, BuildFrom(c, s, rows[1..], width, next));
      ReplayShowsLatest(ReplaySide(depth, side, events), c, s, rows[1..], width, next, side, if emitted == [] then book else emitted);
    }
  }

  /** Right after a trial row with a valid marker both sides have the marker as their best price, so
      the book is not uncrossed and no quote can be taken from it. */
  lemma TrialRowLocksBook(
    c: Converter, s: Settings, row: Row, previous: Previous, bids: DepthMap, asks: DepthMap, bidBook: seq<Quoted>, askBook: seq<Quoted>,
    bestBid: Num, bestAsk: Num)
    requires 1 <= s.levels <= |row.bids| && s.levels <= |row.asks|
    requires ShowsBook(bids, Bid, bidBook) && BestFirst(Bid, bidBook)
    requires ShowsBook(asks, Ask, askBook) && BestFirst(Ask, askBook)
    requires !row.tradable && s.depth && Marker(row, previous).Num?
    requires IsBest(Bid, bestBid, ReplaySide(bids, Bid, RowEvents(c, s, row, previous)).Keys)
    requires IsBest(Ask, bestAsk, ReplaySide(asks, Ask, RowEvents(c, s, row, previous)).Keys)
    ensures bestBid == bestAsk == Marker(row, previous)
  {
    RowShowsBook(bids, c, s, row, previous, Bid, bidBook);
    RowShowsBook(asks, c, s, row, previous, Ask, askBook);
    var marked := [Quoted(Marker(row, previous).value, 1.0)];
    BestOfShown(ReplaySide(bids, Bid, RowEvents(c, s, row, previous)), Bid, marked, bestBid);
    BestOfShown(ReplaySide(asks, Ask, RowEvents(c, s, row, previous)), Ask, marked, bestAsk);
  }
}
