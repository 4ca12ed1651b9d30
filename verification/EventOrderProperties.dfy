/** What ordering guarantees: validation never fails, how LOCAL-only rows are placed, the fast path,
    and exactly when the merged stream is monotone in its own clock. */
module EventOrderProperties {
  import opened Events
  import opened EventOrder

  /** Exchange and local head positions of a merge in progress over stable orders. */
  ghost predicate Heads(data: seq<Event>, byExch: seq<nat>, byLocal: seq<nat>, i: nat, j: nat) {
    Clean(data) && MergeInput(data, byExch, byLocal) && i <= |data| && j <= |data|
  }

  /** The next heads, and how the emitted row stands to them on each clock. */
  lemma StepHeads(data: seq<Event>, byExch: seq<nat>, byLocal: seq<nat>, i: nat, j: nat)
    requires Heads(data, byExch, byLocal, i, j) && (i < |data| || j < |data|)
    ensures
      var choice, e := Choose(data, byExch, byLocal, i, j), Emit(data, byExch, byLocal, i, j);
      var i', j' := if choice.LocalHead? then i else i + 1, if choice.ExchHead? then j else j + 1;
      && Heads(data, byExch, byLocal, i', j')
      && (e.exch <==> !choice.LocalHead?) && (e.local <==> !choice.ExchHead?)
      && (e.exch ==> i < |data| && e.exchTs == data[byExch[i]].exchTs)
      && (e.local ==> j < |data| && e.localTs == data[byLocal[j]].localTs)
      && (i < |data| && i' < |data| ==> data[byExch[i]].exchTs <= data[byExch[i']].exchTs)
      && (j < |data| && j' < |data| ==> data[byLocal[j]].localTs <= data[byLocal[j']].localTs)
      && (LocalOnly(e) && i < |data| ==> e.exchTs < data[byExch[i]].exchTs)
  {
  }

  /** Nothing emitted from the heads on is earlier than the heads, clock by clock. */
  lemma {:induction false} MergeBounds(data: seq<Event>, byExch: seq<nat>, byLocal: seq<nat>, i: nat, j: nat)
    requires Heads(data, byExch, byLocal, i, j)
    ensures forall e :: e in Merge(data, byExch, byLocal, i, j) ==>
      && (e.exch || e.local)
      && (e.exch ==> i < |data| && data[byExch[i]].exchTs <= e.exchTs)
      && (e.local ==> j < |data| && data[byLocal[j]].localTs <= e.localTs)
    decreases 2 * |data| - i - j
  {
    if i < |data| || j < |data| {
      StepHeads(data, byExch, byLocal, i, j);
      var choice := Choose(data, byExch, byLocal, i, j);
      MergeBounds(data, byExch, byLocal, if choice.LocalHead? then i else i + 1, if choice.ExchHead? then j else j + 1);
    }
  }

  // ---------------------------------------------------------------- validation

  /** validate_event_order raises unless both flagged subsequences are in order. */
  predicate ValidEventOrder(events: seq<Event>) {
    && (forall a, b :: 0 <= a < b < |events| && events[a].exch && events[b].exch ==> events[a].exchTs <= events[b].exchTs)
    && (forall a, b :: 0 <= a < b < |events| && events[a].local && events[b].local ==> events[a].localTs <= events[b].localTs)
  }

  predicate LocalOnly(e: Event) { e.local && !e.exch }

  /** A LOCAL-only row stands after every row with an exchange time up to its own. */
  predicate LocalOnlyAfterExch(events: seq<Event>) {
    forall a, b :: 0 <= a < b < |events| && LocalOnly(events[a]) && events[b].exch ==> events[a].exchTs < events[b].exchTs
  }

  lemma ConsOrdered(e: Event, rest: seq<Event>)
    requires ValidEventOrder(rest) && LocalOnlyAfterExch(rest)
    requires forall r :: r in rest && r.exch && e.exch ==> e.exchTs <= r.exchTs
    requires forall r :: r in rest && r.local && e.local ==> e.localTs <= r.localTs
    requires forall r :: r in rest && r.exch && LocalOnly(e) ==> e.exchTs < r.exchTs
    ensures ValidEventOrder([e] + rest) && LocalOnlyAfterExch([e] + rest)
  {
  }

  /** The merge of any data passes validation, and no LOCAL-only row precedes an exchange row at or
      before its own exchange time. */
  lemma {:induction false} MergeOrdered(data: seq<Event>, byExch: seq<nat>, byLocal: seq<nat>, i: nat, j: nat)
    requires Heads(data, byExch, byLocal, i, j)
    ensures ValidEventOrder(Merge(data, byExch, byLocal, i, j))
    ensures LocalOnlyAfterExch(Merge(data, byExch, byLocal, i, j))
    decreases 2 * |data| - i - j
  {
    if i < |data| || j < |data| {
      StepHeads(data, byExch, byLocal, i, j);
      var choice := Choose(data, byExch, byLocal, i, j);
      var i', j' := if choice.LocalHead? then i else i + 1, if choice.ExchHead? then j else j + 1;
      MergeOrdered(data, byExch, byLocal, i', j');
      MergeBounds(data, byExch, byLocal, i', j');
      ConsOrdered(Emit(data, byExch, byLocal, i, j), Merge(data, byExch, byLocal, i', j'));
    }
  }

  // ---------------------------------------------------------------- the fast path

  /** The vectorized test: no key is smaller than the one before it. */
  predicate Ordered(keys: seq<int>) { forall k :: 0 < k < |keys| ==> keys[k - 1] <= keys[k] }

  lemma {:induction false} OrderedPairs(keys: seq<int>, a: nat, b: nat)
    requires Ordered(keys) && a <= b < |keys|
    ensures keys[a] <= keys[b]
    decreases b
  {
    if a < b { OrderedPairs(keys, a, b - 1); }
  }

  function FlagBoth(data: seq<Event>): (r: seq<Event>)
    ensures |r| == |data| && forall k :: 0 <= k < |data| ==> r[k] == data[k].(exch := true, local := true)
  {
    seq(|data|, k requires 0 <= k < |data| => data[k].(exch := true, local := true))
  }

  lemma {:induction false} IdentityMerge(data: seq<Event>, order: seq<nat>, k: nat)
    requires Clean(data) && |order| == |data| && k <= |data|
    requires forall a :: 0 <= a < |data| ==> order[a] == a
    ensures Merge(data, order, order, k, k) == FlagBoth(data)[k..]
    decreases |data| - k
  {
    if k < |data| {
      IdentityMerge(data, order, k + 1);
      assert FlagBoth(data)[k..] == [FlagBoth(data)[k]] + FlagBoth(data)[k + 1..];
    }
  }

  /** On data already ordered on both clocks, flagging every row gives exactly the merge. */
  lemma FastPathEqualsMerge(data: seq<Event>, byExch: seq<nat>, byLocal: seq<nat>)
    requires Heads(data, byExch, byLocal, 0, 0)
    requires Ordered(ExchKeys(data)) && Ordered(LocalKeys(data))
    ensures Merge(data, byExch, byLocal, 0, 0) == FlagBoth(data)
  {
    var exchKeys, localKeys := ExchKeys(data), LocalKeys(data);
    forall a, b | 0 <= a <= b < |exchKeys| ensures exchKeys[a] <= exchKeys[b] { OrderedPairs(exchKeys, a, b); }
    forall a, b | 0 <= a <= b < |localKeys| ensures localKeys[a] <= localKeys[b] { OrderedPairs(localKeys, a, b); }
    SortedOrderIsIdentity(ExchKeys(data), byExch);
    SortedOrderIsIdentity(LocalKeys(data), byLocal);
    assert byExch == byLocal;
    IdentityMerge(data, byExch, 0);
  }

  // ---------------------------------------------------------------- the whole ordering step

  /** The smallest difference between local and exchange time. */
  ghost predicate IsSmallestLatency(events: seq<Event>, latency: int) {
    && (exists k :: 0 <= k < |events| && events[k].localTs - events[k].exchTs == latency)
    && (forall k :: 0 <= k < |events| ==> latency <= events[k].localTs - events[k].exchTs)
  }

  /** correct_local_timestamp: when some row arrives before it is sent, shift every local time so
      that the smallest latency is the base latency; otherwise leave the data alone. */
  method CorrectLocalTimestamp(data: array<Event>, baseLatencyNs: int)
    modifies data
    ensures forall k :: 0 <= k < data.Length ==> data[k] == old(data[k]).(localTs := data[k].localTs)
    ensures forall m :: IsSmallestLatency(old(data[..]), m) ==>
      if m < 0 then
        (forall k :: 0 <= k < data.Length ==> data[k].localTs == old(data[k].localTs) - m + baseLatencyNs)
        && IsSmallestLatency(data[..], baseLatencyNs)
      else data[..] == old(data[..])
    ensures baseLatencyNs >= 0 ==> forall k :: 0 <= k < data.Length ==> data[k].exchTs <= data[k].localTs
  {
    if data.Length == 0 {
      return;
    }
    var minLatency := data[0].localTs - data[0].exchTs;
    ghost var at := 0;
    for n := 1 to data.Length
      invariant forall k :: 0 <= k < n ==> minLatency <= data[k].localTs - data[k].exchTs
      invariant 0 <= at < n && minLatency == data[at].localTs - data[at].exchTs
    {
      var latency := data[n].localTs - data[n].exchTs;
      if latency < minLatency {
        minLatency, at := latency, n;
      }
    }
    assert IsSmallestLatency(data[..], minLatency) by { assert data[..][at] == data[at]; }
    SmallestLatencyUnique(data[..], minLatency);
    if minLatency < 0 {
      var shift := -minLatency + baseLatencyNs;
      for n := 0 to data.Length
        invariant forall k :: n <= k < data.Length ==> data[k] == old(data[k])
        invariant forall k :: 0 <= k < n ==> data[k] == old(data[k]).(localTs := old(data[k].localTs) + shift)
      {
        data[n] := data[n].(localTs := data[n].localTs + shift);
      }
      assert data[..][at] == data[at];
    }
  }

  lemma SmallestLatencyUnique(events: seq<Event>, latency: int)
    requires IsSmallestLatency(events, latency)
    ensures forall m :: IsSmallestLatency(events, m) ==> m == latency
  {
    var k :| 0 <= k < |events| && events[k].localTs - events[k].exchTs == latency;
  }

  /** correct_event_order: both paths return the merge of the stable orders, which validation
      accepts. */
  method CorrectEventOrder(data: seq<Event>) returns (events: seq<Event>)
    requires Clean(data)
    ensures events == Merge(data, StableOrder(ExchKeys(data)), StableOrder(LocalKeys(data)), 0, 0)
    ensures |events| <= 2 * |data|
    ensures ExchRows(events) == Rows(data, StableOrder(ExchKeys(data)), 0)
    ensures LocalRows(events) == Rows(data, StableOrder(LocalKeys(data)), 0)
    ensures ValidEventOrder(events) && LocalOnlyAfterExch(events)
  {
    var byExch, byLocal := StableOrder(ExchKeys(data)), StableOrder(LocalKeys(data));
    MergeSplits(data, byExch, byLocal, 0, 0);
    MergeOrdered(data, byExch, byLocal, 0, 0);
    if |data| == 0 {
      return [];
    }
    if Ordered(ExchKeys(data)) && Ordered(LocalKeys(data)) {
      FastPathEqualsMerge(data, byExch, byLocal);
      return FlagBoth(data);
    }
    var out := new Event[2 * |data|](_ => data[0]);
    var written := MergeEventOrder(data, byExch, byLocal, out);
    events := out[..written];
  }
}
