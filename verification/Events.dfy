/** Market events, and numbers that may be NaN. */
module Events {

  datatype Num = NaN | Num(value: real) {
    predicate Positive() { Num? && value > 0.0 }
  }

  datatype Kind = Depth | Trade | DepthClear | DepthSnapshot

  datatype BookSide = Bid | Ask

  /** The event code is its kind, its side and the two processing flags; the order id and the two
      spare fields of the record are always zero. */
  datatype Event = Event(
    kind: Kind, side: BookSide, exch: bool, local: bool, exchTs: int, localTs: int, px: Num, qty: Num)

  /** An event as the builders write it: no processing flag yet. */
  function MakeEvent(kind: Kind, side: BookSide, exchTs: int, localTs: int, px: Num, qty: Num): Event {
    Event(kind, side, false, false, exchTs, localTs, px, qty)
  }

  function Unflagged(e: Event): Event { e.(exch := false, local := false) }

  /** What the builders emit: unflagged rows that carry a quantity. */
  predicate Clean(data: seq<Event>) {
    forall k :: 0 <= k < |data| ==> !data[k].exch && !data[k].local && data[k].qty.Num?
  }
}
