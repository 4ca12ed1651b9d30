/** Ordering events on the exchange and the local clock: latency shift, stable two-clock merge and
    validation. */
module EventOrder {
  import opened Events

  // ---------------------------------------------------------------- stable order

  /** Index a stands before index b in the stable order of the keys. */
  predicate KeyBefore(keys: seq<int>, a: nat, b: nat)
    requires a < |keys| && b < |keys|
  {
    keys[a] < keys[b] || (keys[a] == keys[b] && a < b)
  }

  /** `order` lists every index once, by key and among equal keys by position. */
  ghost predicate IsStableOrder(keys: seq<int>, order: seq<nat>) {
    && |order| == |keys|
    && (forall k :: 0 <= k < |order| ==> order[k] < |keys|)
    && (forall a, b :: 0 <= a < b < |order| ==> KeyBefore(keys, order[a], order[b]))
  }

  function InsertIndex(keys: seq<int>, order: seq<nat>, index: nat): seq<nat>
    requires index < |keys| && forall k :: 0 <= k < |order| ==> order[k] < |keys|
  {
    if order == [] || KeyBefore(keys, order[|order| - 1], index) then order + [index]
    else InsertIndex(keys, order[..|order| - 1], index) + [order[|order| - 1]]
  }

  /** Inserting a new index keeps the list ordered and adds exactly that index. */
  lemma {:induction false} InsertIndexOrdered(keys: seq<int>, order: seq<nat>, index: nat)
    requires index < |keys| && (forall k :: 0 <= k < |order| ==> order[k] < index)
    requires forall a, b :: 0 <= a < b < |order| ==> KeyBefore(keys, order[a], order[b])
    ensures
      var r := InsertIndex(keys, order, index);
      && |r| == |order| + 1
      && (forall k :: 0 <= k < |r| ==> r[k] <= index && (r[k] == index || r[k] in order))
      && (forall a, b :: 0 <= a < b < |r| ==> KeyBefore(keys, r[a], r[b]))
  {
    if order != [] && !KeyBefore(keys, order[|order| - 1], index) {
      var front, last := order[..|order| - 1], order[|order| - 1];
      InsertIndexOrdered(keys, front, index);
      var rest := InsertIndex(keys, front, index);
      forall a | 0 <= a < |rest| ensures KeyBefore(keys, rest[a], last) {
        if rest[a] != index {
          var k :| 0 <= k < |front| && front[k] == rest[a];
          assert KeyBefore(keys, order[k], order[|order| - 1]);
        }
      }
    }
  }

  /** A stable argsort. */
  function StableOrder(keys: seq<int>): (order: seq<nat>)
    ensures IsStableOrder(keys, order)
  {
    StableOrderOf(keys, |keys|)
  }

  function StableOrderOf(keys: seq<int>, count: nat): (order: seq<nat>)
    requires count <= |keys|
    ensures |order| == count && (forall k :: 0 <= k < |order| ==> order[k] < count)
    ensures forall a, b :: 0 <= a < b < |order| ==> KeyBefore(keys, order[a], order[b])
  {
    if count == 0 then []
    else
      var rest := StableOrderOf(keys, count - 1);
      InsertIndexOrdered(keys, rest, count - 1);
      InsertIndex(keys, rest, count - 1)
  }

  /** Strictly increasing indices below n, n of them, are 0, 1, ..., n - 1. */
  lemma {:induction false} IncreasingIsIdentity(order: seq<nat>, n: nat)
    requires |order| == n && (forall k :: 0 <= k < n ==> order[k] < n)
    requires forall a, b :: 0 <= a < b < n ==> order[a] < order[b]
    ensures forall k :: 0 <= k < n ==> order[k] == k
  {
    if n > 0 {
      var front := order[..n - 1];
      forall k | 0 <= k < n - 1 ensures front[k] < n - 1 {
        assert order[k] < order[n - 1];
      }
      IncreasingIsIdentity(front, n - 1);
      if n > 1 {
        assert front[n - 2] == order[n - 2] < order[n - 1];
      }
      forall k | 0 <= k < n ensures order[k] == k {
        if k < n - 1 { assert order[k] == front[k]; }
      }
    }
  }

  /** The stable order of keys already in order is the identity. */
  lemma SortedOrderIsIdentity(keys: seq<int>, order: seq<nat>)
    requires IsStableOrder(keys, order)
    requires forall a, b :: 0 <= a <= b < |keys| ==> keys[a] <= keys[b]
    ensures forall k :: 0 <= k < |keys| ==> order[k] == k
  {
    forall a, b | 0 <= a < b < |order| ensures order[a] < order[b] {
      assert KeyBefore(keys, order[a], order[b]);
    }
    IncreasingIsIdentity(order, |keys|);
  }

  lemma {:induction false} BelowIsSet(n: nat, s: set<nat>)
    requires forall k :: k in s ==> k < n
    ensures |s| <= n
    ensures |s| == n ==> forall k: nat :: k < n ==> k in s
  {
    if n > 0 {
      var rest := s - {n - 1};
      BelowIsSet(n - 1, rest);
      if |s| == n {
        assert n - 1 in s;
        forall k: nat | k < n ensures k in s {
          assert k < n - 1 ==> k in rest;
        }
      }
    }
  }

  /** Every index occurs in a stable order. */
  lemma StableOrderCovers(keys: seq<int>, order: seq<nat>, index: nat)
    requires IsStableOrder(keys, order) && index < |keys|
    ensures exists k :: 0 <= k < |order| && order[k] == index
  {
    DistinctSize(order);
    var indices := set k | 0 <= k < |order| :: order[k];
    BelowIsSet(|keys|, indices);
    assert index in indices;
  }

  lemma {:induction false} DistinctSize(order: seq<nat>)
    requires forall a, b :: 0 <= a < b < |order| ==> order[a] != order[b]
    ensures |(set k | 0 <= k < |order| :: order[k])| == |order|
  {
    if order != [] {
      var front := order[..|order| - 1];
      DistinctSize(front);
      var smaller := set k | 0 <= k < |front| :: front[k];
      assert (set k | 0 <= k < |order| :: order[k]) == smaller + {order[|order| - 1]};
      assert order[|order| - 1] !in smaller;
    }
  }

  // ---------------------------------------------------------------- the merge

  function ExchKeys(data: seq<Event>): (keys: seq<int>)
    ensures |keys| == |data| && forall k :: 0 <= k < |data| ==> keys[k] == data[k].exchTs
  {
    seq(|data|, k requires 0 <= k < |data| => data[k].exchTs)
  }

  function LocalKeys(data: seq<Event>): (keys: seq<int>)
    ensures |keys| == |data| && forall k :: 0 <= k < |data| ==> keys[k] == data[k].localTs
  {
    seq(|data|, k requires 0 <= k < |data| => data[k].localTs)
  }

  /** Two heads are the same event; a NaN quantity is never equal, a NaN price is. */
  predicate SameEvent(a: Event, b: Event) { a == b && a.qty.Num? }

  ghost predicate MergeInput(data: seq<Event>, byExch: seq<nat>, byLocal: seq<nat>) {
    IsStableOrder(ExchKeys(data), byExch) && IsStableOrder(LocalKeys(data), byLocal)
  }

  /** Which head the merge emits next. */
  datatype Choice = BothHeads | ExchHead | LocalHead

  function Choose(data: seq<Event>, byExch: seq<nat>, byLocal: seq<nat>, i: nat, j: nat): Choice
    requires |byExch| == |byLocal| == |data| && i <= |data| && j <= |data| && (i < |data| || j < |data|)
    requires forall k :: 0 <= k < |data| ==> byExch[k] < |data| && byLocal[k] < |data|
  {
    if i == |data| then LocalHead
    else if j == |data| then ExchHead
    else if SameEvent(data[byExch[i]], data[byLocal[j]]) then BothHeads
    else if data[byExch[i]].exchTs <= data[byLocal[j]].exchTs then ExchHead
    else LocalHead
  }

  function Emit(data: seq<Event>, byExch: seq<nat>, byLocal: seq<nat>, i: nat, j: nat): Event
    requires |byExch| == |byLocal| == |data| && i <= |data| && j <= |data| && (i < |data| || j < |data|)
    requires forall k :: 0 <= k < |data| ==> byExch[k] < |data| && byLocal[k] < |data|
  {
    match Choose(data, byExch, byLocal, i, j)
    case BothHeads => data[byExch[i]].(exch := true, local := true)
    case ExchHead => data[byExch[i]].(exch := true)
    case LocalHead => data[byLocal[j]].(local := true)
  }

  /** _merge_event_order from the exchange head i and the local head j. */
  function Merge(data: seq<Event>, byExch: seq<nat>, byLocal: seq<nat>, i: nat, j: nat): seq<Event>
    requires |byExch| == |byLocal| == |data| && i <= |data| && j <= |data|
    requires forall k :: 0 <= k < |data| ==> byExch[k] < |data| && byLocal[k] < |data|
    decreases 2 * |data| - i - j
  {
    if i == |data| && j == |data| then []
    else
      var choice := Choose(data, byExch, byLocal, i, j);
      [Emit(data, byExch, byLocal, i, j)]
      + Merge(data, byExch, byLocal, if choice.LocalHead? then i else i + 1, if choice.ExchHead? then j else j + 1)
  }

  lemma MergeNext(data: seq<Event>, byExch: seq<nat>, byLocal: seq<nat>, i: nat, j: nat)
    requires |byExch| == |byLocal| == |data| && i <= |data| && j <= |data| && (i < |data| || j < |data|)
    requires forall k :: 0 <= k < |data| ==> byExch[k] < |data| && byLocal[k] < |data|
    ensures
      var choice := Choose(data, byExch, byLocal, i, j);
      Merge(data, byExch, byLocal, i, j)
      == [Emit(data, byExch, byLocal, i, j)]
         + Merge(data, byExch, byLocal, if choice.LocalHead? then i else i + 1, if choice.ExchHead? then j else j + 1)
  {
  }

  lemma MergeEnds(data: seq<Event>, byExch: seq<nat>, byLocal: seq<nat>)
    requires |byExch| == |byLocal| == |data|
    requires forall k :: 0 <= k < |data| ==> byExch[k] < |data| && byLocal[k] < |data|
    ensures Merge(data, byExch, byLocal, |data|, |data|) == []
  {
  }

  /** The loop over the preallocated output of 2n records. */
  method MergeEventOrder(data: seq<Event>, byExch: seq<nat>, byLocal: seq<nat>, out: array<Event>) returns (written: nat)
    requires |byExch| == |byLocal| == |data| && out.Length == 2 * |data|
    requires forall k :: 0 <= k < |data| ==> byExch[k] < |data| && byLocal[k] < |data|
    modifies out
    ensures written <= out.Length && out[..written] == Merge(data, byExch, byLocal, 0, 0)
  {
    hide Merge, Emit, Choose;
    written := 0;
    var i, j := 0, 0;
    while i < |data| || j < |data|
      invariant 0 <= i <= |data| && 0 <= j <= |data| && written <= i + j
      invariant Merge(data, byExch, byLocal, 0, 0) == out[..written] + Merge(data, byExch, byLocal, i, j)
      decreases 2 * |data| - i - j
    {
      MergeNext(data, byExch, byLocal, i, j);
      ghost var done := out[..written];
      var e;
      e, i, j := EmitNext(data, byExch, byLocal, i, j);
      out[written] := e;
      written := written + 1;
      assert out[..written] == done + [e];
      assert done + ([e] + Merge(data, byExch, byLocal, i, j)) == (done + [e]) + Merge(data, byExch, byLocal, i, j);
    }
    MergeEnds(data, byExch, byLocal);
  }

  /** One iteration: the next record and the heads after it. */
  method EmitNext(data: seq<Event>, byExch: seq<nat>, byLocal: seq<nat>, i: nat, j: nat)
    returns (e: Event, i': nat, j': nat)
    requires |byExch| == |byLocal| == |data| && i <= |data| && j <= |data| && (i < |data| || j < |data|)
    requires forall k :: 0 <= k < |data| ==> byExch[k] < |data| && byLocal[k] < |data|
    ensures e == Emit(data, byExch, byLocal, i, j)
    ensures i' == (if Choose(data, byExch, byLocal, i, j).LocalHead? then i else i + 1) <= |data|
    ensures j' == (if Choose(data, byExch, byLocal, i, j).ExchHead? then j else j + 1) <= |data|
  {
    i', j' := i, j;
    if i < |data| && j < |data| {
      var x, l := data[byExch[i]], data[byLocal[j]];
      if SameEvent(x, l) {
        e := x.(exch := true, local := true);
        i', j' := i + 1, j + 1;
      } else if x.exchTs <= l.exchTs {
        e := x.(exch := true);
        i' := i + 1;
      } else {
        e := l.(local := true);
        j' := j + 1;
      }
    } else if i < |data| {
      e := data[byExch[i]].(exch := true);
      i' := i + 1;
    } else {
      e := data[byLocal[j]].(local := true);
      j' := j + 1;
    }
  }

  // ---------------------------------------------------------------- what the merge emits

  function ExchRows(events: seq<Event>): seq<Event> {
    if events == [] then []
    else (if events[0].exch then [Unflagged(events[0])] else []) + ExchRows(events[1..])
  }

  function LocalRows(events: seq<Event>): seq<Event> {
    if events == [] then []
    else (if events[0].local then [Unflagged(events[0])] else []) + LocalRows(events[1..])
  }

  /** The rows of an order from position k on. */
  function Rows(data: seq<Event>, order: seq<nat>, k: nat): seq<Event>
    requires |order| == |data| && k <= |data| && forall a :: 0 <= a < |data| ==> order[a] < |data|
    decreases |data| - k
  {
    if k == |data| then [] else [data[order[k]]] + Rows(data, order, k + 1)
  }

  /** The EXCH-flagged rows are exactly the stable sort by exchange time, the LOCAL-flagged rows
      exactly the stable sort by local time, and no record is written beyond 2n. */
  lemma {:induction false} MergeSplits(data: seq<Event>, byExch: seq<nat>, byLocal: seq<nat>, i: nat, j: nat)
    requires Clean(data) && i <= |data| && j <= |data| && |byExch| == |byLocal| == |data|
    requires forall k :: 0 <= k < |data| ==> byExch[k] < |data| && byLocal[k] < |data|
    ensures ExchRows(Merge(data, byExch, byLocal, i, j)) == Rows(data, byExch, i)
    ensures LocalRows(Merge(data, byExch, byLocal, i, j)) == Rows(data, byLocal, j)
    ensures |Merge(data, byExch, byLocal, i, j)| <= (|data| - i) + (|data| - j)
    decreases 2 * |data| - i - j
  {
    if i < |data| || j < |data| {
      var choice := Choose(data, byExch, byLocal, i, j);
      var e := Emit(data, byExch, byLocal, i, j);
      assert choice.BothHeads? ==> Unflagged(e) == data[byExch[i]] == data[byLocal[j]];
      assert choice.ExchHead? ==> Unflagged(e) == data[byExch[i]] && !e.local;
      assert choice.LocalHead? ==> Unflagged(e) == data[byLocal[j]] && !e.exch;
      MergeSplits(data, byExch, byLocal, if choice.LocalHead? then i else i + 1, if choice.ExchHead? then j else j + 1);
    }
  }

  /** A row without a quantity is never emitted on both clocks at once. */
  lemma {:induction false} SharedRowsHaveQuantities(data: seq<Event>, byExch: seq<nat>, byLocal: seq<nat>, i: nat, j: nat)
    requires i <= |data| && j <= |data| && |byExch| == |byLocal| == |data|
    requires forall k :: 0 <= k < |data| ==> byExch[k] < |data| && byLocal[k] < |data|
    requires forall k :: 0 <= k < |data| ==> !data[k].exch && !data[k].local
    ensures forall e :: e in Merge(data, byExch, byLocal, i, j) && e.exch && e.local ==> e.qty.Num?
    decreases 2 * |data| - i - j
  {
    if i < |data| || j < |data| {
      var choice := Choose(data, byExch, byLocal, i, j);
      SharedRowsHaveQuantities(
        data, byExch, byLocal, if choice.LocalHead? then i else i + 1, if choice.ExchHead? then j else j + 1);
    }
  }
}
