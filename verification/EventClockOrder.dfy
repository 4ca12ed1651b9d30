/** Where the merge puts its LOCAL-only rows: exactly when each waits for every exchange row up to its
    local time, and exactly when the stream is ordered by "exchange time if EXCH, else local time". */
module EventClockOrder {
  import opened Wrappers
  import opened Events
  import opened EventOrder
  import opened EventOrderProperties

  /** The time at which a merged row acts: on the exchange if it is flagged EXCH. */
  function ClockKey(e: Event): int { if e.exch then e.exchTs else e.localTs }

  predicate InClockOrder(events: seq<Event>) {
    forall a, b :: 0 <= a < b < |events| ==> ClockKey(events[a]) <= ClockKey(events[b])
  }

  /** Every exchange row after a LOCAL-only row was sent at least `slack` after that row's local time. */
  predicate SentAfter(events: seq<Event>, slack: int) {
    forall a, b :: 0 <= a < b < |events| && LocalOnly(events[a]) && events[b].exch ==>
      events[a].localTs + slack <= events[b].exchTs
  }

  // ---------------------------------------------------------------- late arrivals, read from the data

  /** The rows sent at time t, in exchange order from position i on. */
  function SentFrom(data: seq<Event>, byExch: seq<nat>, i: nat, t: int): seq<Event>
    requires |byExch| == |data| && i <= |data| && forall k :: 0 <= k < |data| ==> byExch[k] < |data|
    decreases |data| - i
  {
    if i == |data| then []
    else (if data[byExch[i]].exchTs == t then [data[byExch[i]]] else []) + SentFrom(data, byExch, i + 1, t)
  }

  /** The rows sent at time t among the first j arrivals, in order of arrival. */
  function Arrived(data: seq<Event>, byLocal: seq<nat>, j: nat, t: int): seq<Event>
    requires |byLocal| == |data| && j <= |data| && forall k :: 0 <= k < |data| ==> byLocal[k] < |data|
  {
    if j == 0 then []
    else
      var row := data[byLocal[j - 1]];
      Arrived(data, byLocal, j - 1, t) + if row.exchTs == t then [row] else []
  }

  /** What is left of `list` behind the first occurrence of `part` as a subsequence, if it is one. */
  function Behind(part: seq<Event>, list: seq<Event>): Option<seq<Event>>
    decreases |list|
  {
    if part == [] then Some(list)
    else if list == [] then None
    else Behind(if part[0] == list[0] then part[1..] else part, list[1..])
  }

  /** Some of the first j arrivals was sent after time t. */
  predicate Overtaken(data: seq<Event>, byLocal: seq<nat>, j: nat, t: int)
    requires |byLocal| == |data| && j <= |data| && forall k :: 0 <= k < |data| ==> byLocal[k] < |data|
  {
    exists b :: 0 <= b < j && data[byLocal[b]].exchTs > t
  }

  /** The j-th arrival is late: a row sent at a later time has arrived before it, or the rows of its
      own time that have arrived are not in the order in which they were sent. */
  predicate Late(data: seq<Event>, byExch: seq<nat>, byLocal: seq<nat>, j: nat)
    requires Heads(data, byExch, byLocal, 0, 0) && j < |data|
  {
    var t := data[byLocal[j]].exchTs;
    Overtaken(data, byLocal, j, t) || Behind(Arrived(data, byLocal, j + 1, t), SentFrom(data, byExch, 0, t)).None?
  }

  /** The rows sent at time t that the first j arrivals leave to come: none if one sent later has
      arrived, else those sent behind the arrived ones. */
  function ToCome(data: seq<Event>, byExch: seq<nat>, byLocal: seq<nat>, j: nat, t: int): seq<Event>
    requires Heads(data, byExch, byLocal, 0, 0) && j <= |data|
  {
    var behind := Behind(Arrived(data, byLocal, j, t), SentFrom(data, byExch, 0, t));
    if Overtaken(data, byLocal, j, t) || behind.None? then [] else behind.value
  }

  /** A late arrival with rows still to come that were sent less than `slack` after its local time. */
  predicate Reversal(data: seq<Event>, byExch: seq<nat>, byLocal: seq<nat>, slack: int, j: nat, t: int)
    requires Heads(data, byExch, byLocal, 0, 0)
  {
    && j < |data|
    && Late(data, byExch, byLocal, j)
    && ToCome(data, byExch, byLocal, j + 1, t) != []
    && t < data[byLocal[j]].localTs + slack
  }

  // ---------------------------------------------------------------- the exchange head

  /** Where the exchange head stops for an arrival, and whether it found the arrival itself. */
  function Advance(data: seq<Event>, byExch: seq<nat>, i: nat, arrival: Event): (r: (nat, bool))
    requires |byExch| == |data| && i <= |data| && forall k :: 0 <= k < |data| ==> byExch[k] < |data|
    ensures i <= r.0 <= |data|
    decreases |data| - i
  {
    if i == |data| then (i, false)
    else if SameEvent(data[byExch[i]], arrival) then (i + 1, true)
    else if data[byExch[i]].exchTs <= arrival.exchTs then Advance(data, byExch, i + 1, arrival)
    else (i, false)
  }

  /** The exchange head after the first j arrivals. */
  function HeadAfter(data: seq<Event>, byExch: seq<nat>, byLocal: seq<nat>, j: nat): (i: nat)
    requires Heads(data, byExch, byLocal, 0, 0) && j <= |data|
    ensures i <= |data|
  {
    if j == 0 then 0
    else Advance(data, byExch, HeadAfter(data, byExch, byLocal, j - 1), data[byLocal[j - 1]]).0
  }

  lemma {:induction false} NothingSentBefore(data: seq<Event>, byExch: seq<nat>, byLocal: seq<nat>, i: nat, t: int)
    requires Heads(data, byExch, byLocal, 0, 0) && i <= |data|
    requires i < |data| ==> t < data[byExch[i]].exchTs
    ensures SentFrom(data, byExch, i, t) == []
    decreases |data| - i
  {
    if i < |data| {
      if i + 1 < |data| { assert KeyBefore(ExchKeys(data), byExch[i], byExch[i + 1]); }
      NothingSentBefore(data, byExch, byLocal, i + 1, t);
    }
  }

  lemma BehindCons(arrival: Event, row: Event, rest: seq<Event>)
    ensures Behind([arrival], [row] + rest) == if arrival == row then Some(rest) else Behind([arrival], rest)
  {
    assert ([row] + rest)[1..] == rest;
  }

  /** The head leaves nothing sent before the arrival and everything sent after it. */
  lemma {:induction false} AdvanceLeavesOthers(
    data: seq<Event>, byExch: seq<nat>, byLocal: seq<nat>, i: nat, arrival: Event, t: int)
    requires Heads(data, byExch, byLocal, 0, 0) && i <= |data| && t != arrival.exchTs
    ensures SentFrom(data, byExch, Advance(data, byExch, i, arrival).0, t)
         == if t < arrival.exchTs then [] else SentFrom(data, byExch, i, t)
    decreases |data| - i
  {
    if i < |data| {
      var row := data[byExch[i]];
      assert row.exchTs != t ==> SentFrom(data, byExch, i, t) == SentFrom(data, byExch, i + 1, t);
      if i + 1 < |data| { assert KeyBefore(ExchKeys(data), byExch[i], byExch[i + 1]); }
      hide Heads;
      if SameEvent(row, arrival) {
        if t < arrival.exchTs { NothingSentBefore(data, byExch, byLocal, i + 1, t); }
      } else if row.exchTs <= arrival.exchTs {
        AdvanceLeavesOthers(data, byExch, byLocal, i + 1, arrival, t);
      } else if t < arrival.exchTs {
        NothingSentBefore(data, byExch, byLocal, i, t);
      }
    }
  }

  /** The arrival is found iff a row equal to it is still to come, and then the rows behind that one
      are left of its time. */
  lemma {:induction false} AdvanceLeavesBehind(
    data: seq<Event>, byExch: seq<nat>, byLocal: seq<nat>, i: nat, arrival: Event)
    requires Heads(data, byExch, byLocal, 0, 0) && i <= |data| && arrival.qty.Num?
    ensures
      var (i', found) := Advance(data, byExch, i, arrival);
      var behind := Behind([arrival], SentFrom(data, byExch, i, arrival.exchTs));
      && (found <==> behind.Some?)
      && SentFrom(data, byExch, i', arrival.exchTs) == if found then behind.value else []
    decreases |data| - i
  {
    var t := arrival.exchTs;
    if i < |data| {
      var row := data[byExch[i]];
      assert row.exchTs != t ==> SentFrom(data, byExch, i, t) == SentFrom(data, byExch, i + 1, t);
      BehindCons(arrival, row, SentFrom(data, byExch, i + 1, t));
      hide Behind;
      if !SameEvent(row, arrival) && row.exchTs <= t {
        AdvanceLeavesBehind(data, byExch, byLocal, i + 1, arrival);
      } else if row.exchTs > t {
        NothingSentBefore(data, byExch, byLocal, i, t);
        BehindNothing(arrival);
      }
    } else {
      BehindNothing(arrival);
    }
  }

  lemma BehindNothing(arrival: Event)
    ensures Behind([arrival], []).None?
  {
  }

  lemma {:induction false} BehindAppend(part: seq<Event>, last: Event, list: seq<Event>)
    ensures Behind(part + [last], list)
         == if Behind(part, list).None? then None else Behind([last], Behind(part, list).value)
    decreases |list|
  {
    if part == [] {
      assert part + [last] == [last];
    } else if list != [] {
      if part[0] == list[0] {
        assert (part + [last])[1..] == part[1..] + [last];
        BehindAppend(part[1..], last, list[1..]);
      } else {
        BehindAppend(part, last, list[1..]);
      }
    }
  }

  /** How the rows to come change with one more arrival, and when that arrival is late. */
  lemma ToComeNext(data: seq<Event>, byExch: seq<nat>, byLocal: seq<nat>, j: nat, t: int)
    requires Heads(data, byExch, byLocal, 0, 0) && j < |data|
    ensures
      var arrival := data[byLocal[j]];
      var behind := Behind([arrival], ToCome(data, byExch, byLocal, j, arrival.exchTs));
      && (Late(data, byExch, byLocal, j) <==> behind.None?)
      && ToCome(data, byExch, byLocal, j + 1, t)
         == if t < arrival.exchTs then []
            else if t > arrival.exchTs then ToCome(data, byExch, byLocal, j, t)
            else if behind.Some? then behind.value else []
  {
    var arrival := data[byLocal[j]];
    var before, sent := Arrived(data, byLocal, j, arrival.exchTs), SentFrom(data, byExch, 0, arrival.exchTs);
    assert Arrived(data, byLocal, j + 1, arrival.exchTs) == before + [arrival];
    assert t != arrival.exchTs ==> Arrived(data, byLocal, j + 1, t) == Arrived(data, byLocal, j, t);
    assert Behind([arrival], []).None?;
    BehindAppend(before, arrival, sent);
    OvertakenNext(data, byLocal, j, t);
    OvertakenNext(data, byLocal, j, arrival.exchTs);
    hide Overtaken, SentFrom, Arrived, Behind;
    if t < arrival.exchTs {
      assert Overtaken(data, byLocal, j + 1, t);
    }
  }

  lemma OvertakenNext(data: seq<Event>, byLocal: seq<nat>, j: nat, t: int)
    requires |byLocal| == |data| && j < |data| && forall k :: 0 <= k < |data| ==> byLocal[k] < |data|
    ensures Overtaken(data, byLocal, j + 1, t) <==> Overtaken(data, byLocal, j, t) || data[byLocal[j]].exchTs > t
  {
    if data[byLocal[j]].exchTs > t { assert Overtaken(data, byLocal, j + 1, t); }
  }

  /** The exchange head after any number of arrivals has exactly the rows to come before it. */
  lemma {:induction false} HeadLeavesToCome(data: seq<Event>, byExch: seq<nat>, byLocal: seq<nat>, j: nat, t: int)
    requires Heads(data, byExch, byLocal, 0, 0) && j <= |data|
    ensures SentFrom(data, byExch, HeadAfter(data, byExch, byLocal, j), t) == ToCome(data, byExch, byLocal, j, t)
    decreases j
  {
    hide ToCome, Late, Advance, SentFrom, Behind, Arrived, KeyBefore, ExchKeys, LocalKeys;
    if j == 0 {
      NothingArrived(data, byExch, byLocal, t);
    } else {
      var arrival, i := data[byLocal[j - 1]], HeadAfter(data, byExch, byLocal, j - 1);
      HeadLeavesToCome(data, byExch, byLocal, j - 1, t);
      ToComeNext(data, byExch, byLocal, j - 1, t);
      if t == arrival.exchTs {
        AdvanceLeavesBehind(data, byExch, byLocal, i, arrival);
      } else {
        AdvanceLeavesOthers(data, byExch, byLocal, i, arrival, t);
      }
    }
  }

  lemma NothingArrived(data: seq<Event>, byExch: seq<nat>, byLocal: seq<nat>, t: int)
    requires Heads(data, byExch, byLocal, 0, 0)
    ensures ToCome(data, byExch, byLocal, 0, t) == SentFrom(data, byExch, 0, t)
  {
    hide SentFrom;
  }

  /** An arrival is late exactly when the exchange head does not find it. */
  lemma LateIffNotFound(data: seq<Event>, byExch: seq<nat>, byLocal: seq<nat>, j: nat)
    requires Heads(data, byExch, byLocal, 0, 0) && j < |data|
    ensures Late(data, byExch, byLocal, j)
       <==> !Advance(data, byExch, HeadAfter(data, byExch, byLocal, j), data[byLocal[j]]).1
  {
    var arrival := data[byLocal[j]];
    HeadLeavesToCome(data, byExch, byLocal, j, arrival.exchTs);
    AdvanceLeavesBehind(data, byExch, byLocal, HeadAfter(data, byExch, byLocal, j), arrival);
    ToComeNext(data, byExch, byLocal, j, arrival.exchTs);
  }

  // ---------------------------------------------------------------- the merge, arrival by arrival

  /** The exchange head is on its way to where the arrival at hand makes it stop. */
  predicate Aligned(data: seq<Event>, byExch: seq<nat>, byLocal: seq<nat>, i: nat, j: nat)
    requires Heads(data, byExch, byLocal, i, j)
  {
    j < |data| ==>
      Advance(data, byExch, i, data[byLocal[j]]) == Advance(data, byExch, HeadAfter(data, byExch, byLocal, j), data[byLocal[j]])
  }

  /** The j-th arrival, if late, arrives at least `slack` before the next exchange row was sent. */
  predicate Waits(data: seq<Event>, byExch: seq<nat>, byLocal: seq<nat>, slack: int, j: nat)
    requires Heads(data, byExch, byLocal, 0, 0) && j < |data|
  {
    var next := HeadAfter(data, byExch, byLocal, j + 1);
    Late(data, byExch, byLocal, j) && next < |data| ==> data[byLocal[j]].localTs + slack <= data[byExch[next]].exchTs
  }

  /** One merge step keeps the heads aligned; a LOCAL-only row is a late arrival. */
  lemma AlignedNext(data: seq<Event>, byExch: seq<nat>, byLocal: seq<nat>, i: nat, j: nat)
    requires Heads(data, byExch, byLocal, i, j) && Aligned(data, byExch, byLocal, i, j)
    requires i < |data| || j < |data|
    ensures
      var choice := Choose(data, byExch, byLocal, i, j);
      var i', j' := if choice.LocalHead? then i else i + 1, if choice.ExchHead? then j else j + 1;
      && Heads(data, byExch, byLocal, i', j') && Aligned(data, byExch, byLocal, i', j')
      && (!choice.ExchHead? ==> HeadAfter(data, byExch, byLocal, j + 1) == i')
      && (!choice.ExchHead? ==> (choice.LocalHead? <==> Late(data, byExch, byLocal, j)))
  {
    if j < |data| { LateIffNotFound(data, byExch, byLocal, j); }
    hide Late;
  }

  lemma ExchRowAppears(data: seq<Event>, byExch: seq<nat>, byLocal: seq<nat>, i: nat, j: nat) returns (r: Event)
    requires Heads(data, byExch, byLocal, i, j) && i < |data|
    ensures r in Merge(data, byExch, byLocal, i, j) && r.exch && r.exchTs == data[byExch[i]].exchTs
    decreases 2 * |data| - i - j
  {
    StepHeads(data, byExch, byLocal, i, j);
    var choice := Choose(data, byExch, byLocal, i, j);
    if choice.LocalHead? {
      r := ExchRowAppears(data, byExch, byLocal, i, j + 1);
    } else {
      r := Emit(data, byExch, byLocal, i, j);
    }
  }

  lemma ConsSentAfter(e: Event, rest: seq<Event>, slack: int)
    ensures SentAfter([e] + rest, slack)
       <==> SentAfter(rest, slack) && forall r :: r in rest && r.exch && LocalOnly(e) ==> e.localTs + slack <= r.exchTs
  {
    var events := [e] + rest;
    assert forall k :: 0 <= k < |rest| ==> events[k + 1] == rest[k];
    if SentAfter(events, slack) {
      forall r | r in rest && r.exch && LocalOnly(e) ensures e.localTs + slack <= r.exchTs {
        var k :| 0 <= k < |rest| && rest[k] == r;
        assert events[0] == e && events[k + 1] == r;
      }
      forall a, b | 0 <= a < b < |rest| && LocalOnly(rest[a]) && rest[b].exch ensures rest[a].localTs + slack <= rest[b].exchTs {
        assert events[a + 1] == rest[a] && events[b + 1] == rest[b];
      }
    }
  }

  /** What one step adds to the condition: a LOCAL-only row has to wait for the exchange head. */
  lemma StepWaits(data: seq<Event>, byExch: seq<nat>, byLocal: seq<nat>, i: nat, j: nat, slack: int)
    requires Heads(data, byExch, byLocal, i, j) && Aligned(data, byExch, byLocal, i, j)
    requires i < |data| || j < |data|
    ensures
      var choice := Choose(data, byExch, byLocal, i, j);
      var rest := Merge(data, byExch, byLocal, if choice.LocalHead? then i else i + 1, if choice.ExchHead? then j else j + 1);
      SentAfter(Merge(data, byExch, byLocal, i, j), slack)
      <==> SentAfter(rest, slack) && (!choice.ExchHead? ==> Waits(data, byExch, byLocal, slack, j))
  {
    hide Late, SentAfter, HeadAfter, Aligned, Merge, Choose, Emit, KeyBefore, Clean;
    var choice, e := Choose(data, byExch, byLocal, i, j), Emit(data, byExch, byLocal, i, j);
    var i', j' := if choice.LocalHead? then i else i + 1, if choice.ExchHead? then j else j + 1;
    StepHeads(data, byExch, byLocal, i, j);
    AlignedNext(data, byExch, byLocal, i, j);
    MergeBounds(data, byExch, byLocal, i', j');
    MergeNext(data, byExch, byLocal, i, j);
    ConsSentAfter(e, Merge(data, byExch, byLocal, i', j'), slack);
    if choice.LocalHead? {
      assert e.localTs == data[byLocal[j]].localTs;
      if i < |data| {
        var r := ExchRowAppears(data, byExch, byLocal, i, j + 1);
      }
    }
  }

  lemma {:induction false} MergeWaits(data: seq<Event>, byExch: seq<nat>, byLocal: seq<nat>, i: nat, j: nat, slack: int)
    requires Heads(data, byExch, byLocal, i, j) && Aligned(data, byExch, byLocal, i, j)
    ensures SentAfter(Merge(data, byExch, byLocal, i, j), slack)
       <==> forall k :: j <= k < |data| ==> Waits(data, byExch, byLocal, slack, k)
    decreases 2 * |data| - i - j
  {
    hide Late, Waits, HeadAfter, Aligned;
    if i < |data| || j < |data| {
      var choice := Choose(data, byExch, byLocal, i, j);
      var i', j' := if choice.LocalHead? then i else i + 1, if choice.ExchHead? then j else j + 1;
      AlignedNext(data, byExch, byLocal, i, j);
      StepWaits(data, byExch, byLocal, i, j, slack);
      hide SentAfter, Merge;
      MergeWaits(data, byExch, byLocal, i', j', slack);
    }
  }

  /** A late arrival waits exactly when no row to come was sent too early for it. */
  lemma WaitsIff(data: seq<Event>, byExch: seq<nat>, byLocal: seq<nat>, slack: int, j: nat)
    requires Heads(data, byExch, byLocal, 0, 0) && j < |data|
    ensures Waits(data, byExch, byLocal, slack, j) <==> forall t :: !Reversal(data, byExch, byLocal, slack, j, t)
  {
    hide Late, ToCome, HeadAfter;
    var n := j + 1;
    var next := HeadAfter(data, byExch, byLocal, n);
    forall t ensures ToCome(data, byExch, byLocal, n, t) != [] ==> next < |data| && data[byExch[next]].exchTs <= t {
      HeadLeavesToCome(data, byExch, byLocal, j + 1, t);
      if next == |data| || t < data[byExch[next]].exchTs { NothingSentBefore(data, byExch, byLocal, next, t); }
    }
    if next < |data| {
      var t := data[byExch[next]].exchTs;
      HeadLeavesToCome(data, byExch, byLocal, j + 1, t);
      assert SentFrom(data, byExch, next, t) != [];
      if !Waits(data, byExch, byLocal, slack, j) { assert Reversal(data, byExch, byLocal, slack, j, t); }
    }
  }

  /** LOCAL-only rows wait by `slack` iff the data holds no such reversal. */
  lemma SentAfterIff(data: seq<Event>, byExch: seq<nat>, byLocal: seq<nat>, slack: int)
    requires Heads(data, byExch, byLocal, 0, 0)
    ensures SentAfter(Merge(data, byExch, byLocal, 0, 0), slack)
       <==> forall j: nat, t :: !Reversal(data, byExch, byLocal, slack, j, t)
  {
    MergeWaits(data, byExch, byLocal, 0, 0, slack);
    hide Waits, SentAfter, Merge, Late, ToCome;
    if j: nat, t :| Reversal(data, byExch, byLocal, slack, j, t) {
      WaitsIff(data, byExch, byLocal, slack, j);
    } else {
      forall j: nat | j < |data| ensures Waits(data, byExch, byLocal, slack, j) { WaitsIff(data, byExch, byLocal, slack, j); }
    }
  }

  // ---------------------------------------------------------------- the two properties

  /** A LOCAL-only row comes after every exchange row sent up to its local time. */
  predicate LocalOnlyAfterAllSent(events: seq<Event>) {
    forall a, b :: 0 <= a < b < |events| && LocalOnly(events[a]) && events[b].exch ==> events[a].localTs < events[b].exchTs
  }

  /** Every LOCAL-only row comes after every exchange row sent up to its local time iff no late
      arrival has a row to come that was sent by its local time. */
  lemma LocalOnlyAfterAllSentIff(data: seq<Event>, byExch: seq<nat>, byLocal: seq<nat>)
    requires Heads(data, byExch, byLocal, 0, 0)
    ensures LocalOnlyAfterAllSent(Merge(data, byExch, byLocal, 0, 0))
       <==> forall j: nat, t :: !Reversal(data, byExch, byLocal, 1, j, t)
  {
    SentAfterIff(data, byExch, byLocal, 1);
    hide Merge, Reversal;
  }

  /** No row was received before it was sent; the latency correction sees to that. */
  predicate Received(data: seq<Event>) { forall a :: 0 <= a < |data| ==> data[a].exchTs <= data[a].localTs }

  /** An exchange row stands before no local row of an earlier local time. */
  predicate ExchBeforeLocal(events: seq<Event>) {
    forall a, b :: 0 <= a < b < |events| && events[a].exch && events[b].local ==> events[a].exchTs <= events[b].localTs
  }

  lemma ConsExchBeforeLocal(e: Event, rest: seq<Event>)
    requires ExchBeforeLocal(rest) && forall r :: r in rest && r.local && e.exch ==> e.exchTs <= r.localTs
    ensures ExchBeforeLocal([e] + rest)
  {
  }

  lemma {:induction false} MergeExchBeforeLocal(data: seq<Event>, byExch: seq<nat>, byLocal: seq<nat>, i: nat, j: nat)
    requires Heads(data, byExch, byLocal, i, j) && Received(data)
    ensures ExchBeforeLocal(Merge(data, byExch, byLocal, i, j))
    decreases 2 * |data| - i - j
  {
    if i < |data| || j < |data| {
      var choice, e := Choose(data, byExch, byLocal, i, j), Emit(data, byExch, byLocal, i, j);
      var i', j' := if choice.LocalHead? then i else i + 1, if choice.ExchHead? then j else j + 1;
      StepHeads(data, byExch, byLocal, i, j);
      MergeExchBeforeLocal(data, byExch, byLocal, i', j');
      MergeBounds(data, byExch, byLocal, i', j');
      assert j < |data| && e.exch ==> e.exchTs <= data[byLocal[j]].localTs;
      ConsExchBeforeLocal(e, Merge(data, byExch, byLocal, i', j'));
    }
  }

  lemma InClockOrderParts(events: seq<Event>)
    requires ValidEventOrder(events) && ExchBeforeLocal(events)
    requires forall k :: 0 <= k < |events| ==> events[k].exch || events[k].local
    ensures InClockOrder(events) <==> SentAfter(events, 0)
  {
  }

  /** The merged stream is in clock order iff no late arrival has a row to come that was sent before
      its local time. */
  lemma InClockOrderIff(data: seq<Event>, byExch: seq<nat>, byLocal: seq<nat>)
    requires Heads(data, byExch, byLocal, 0, 0) && Received(data)
    ensures InClockOrder(Merge(data, byExch, byLocal, 0, 0)) <==> forall j: nat, t :: !Reversal(data, byExch, byLocal, 0, j, t)
  {
    MergeOrdered(data, byExch, byLocal, 0, 0);
    MergeExchBeforeLocal(data, byExch, byLocal, 0, 0);
    MergeBounds(data, byExch, byLocal, 0, 0);
    SentAfterIff(data, byExch, byLocal, 0);
    hide Merge, Reversal;
    InClockOrderParts(Merge(data, byExch, byLocal, 0, 0));
  }

  // ---------------------------------------------------------------- inputs

  function Row(exchTs: int, localTs: int): Event { MakeEvent(Trade, Bid, exchTs, localTs, Num(1.0), Num(1.0)) }

  /** Three rows whose merge is valid and yet out of clock order: the slow first row is emitted at
      local time 10, before the exchange row of time 7. */
  function SlowFirstRow(): seq<Event> { [Row(1, 10), Row(2, 5), Row(7, 20)] }

  lemma SlowFirstRowReversed(slack: int)
    requires slack >= 0
    ensures Heads(SlowFirstRow(), [0, 1, 2], [1, 0, 2], 0, 0) && Received(SlowFirstRow())
    ensures Reversal(SlowFirstRow(), [0, 1, 2], [1, 0, 2], slack, 1, 7)
  {
    var data, byExch, byLocal := SlowFirstRow(), [0, 1, 2], [1, 0, 2];
    assert Overtaken(data, byLocal, 1, 1) by { assert data[byLocal[0]].exchTs > 1; }
    assert Arrived(data, byLocal, 2, 7) == [];
    assert SentFrom(data, byExch, 0, 7) == [data[2]];
    assert ToCome(data, byExch, byLocal, 2, 7) == [data[2]];
  }

  lemma MergeNeedNotBeInClockOrder()
    ensures
      var merged := Merge(SlowFirstRow(), [0, 1, 2], [1, 0, 2], 0, 0);
      && Heads(SlowFirstRow(), [0, 1, 2], [1, 0, 2], 0, 0) && Received(SlowFirstRow())
      && ValidEventOrder(merged) && !InClockOrder(merged) && !LocalOnlyAfterAllSent(merged)
  {
    SlowFirstRowReversed(0);
    SlowFirstRowReversed(1);
    hide Merge, Reversal, SlowFirstRow;
    MergeOrdered(SlowFirstRow(), [0, 1, 2], [1, 0, 2], 0, 0);
    InClockOrderIff(SlowFirstRow(), [0, 1, 2], [1, 0, 2]);
    LocalOnlyAfterAllSentIff(SlowFirstRow(), [0, 1, 2], [1, 0, 2]);
  }

  /** The two properties are not the same: here the slow first row's local time is the exchange time
      of the last row, so the merge is in clock order and still does not wait for that row. */
  lemma ClockOrderDoesNotWait()
    ensures
      var data := [Row(1, 7), Row(2, 5), Row(7, 20)];
      var merged := Merge(data, [0, 1, 2], [1, 0, 2], 0, 0);
      Heads(data, [0, 1, 2], [1, 0, 2], 0, 0) && InClockOrder(merged) && !LocalOnlyAfterAllSent(merged)
  {
    var data, byExch, byLocal := [Row(1, 7), Row(2, 5), Row(7, 20)], [0, 1, 2], [1, 0, 2];
    MergeEnds(data, byExch, byLocal);
    var merged := Merge(data, byExch, byLocal, 0, 0);
    assert merged == [
      data[0].(exch := true), data[1].(exch := true, local := true),
      data[0].(local := true), data[2].(exch := true, local := true)];
    assert LocalOnly(merged[2]) && merged[3].exch;
  }
}
