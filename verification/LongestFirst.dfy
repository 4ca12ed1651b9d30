/** Greedy placement on the least loaded machine: its load bounds, and Graham's bound when the jobs
    come longest first. */
module LongestFirst {

  function Sum(values: seq<int>): int {
    if values == [] then 0 else Sum(values[..|values| - 1]) + values[|values| - 1]
  }

  /** An assignment of jobs to machines 0..m-1. */
  predicate Assigns(f: seq<nat>, jobs: nat, m: nat) {
    |f| == jobs && forall x :: 0 <= x < jobs ==> f[x] < m
  }

  /** The values of the jobs on machine `i`, added up. */
  function LoadOn(values: seq<int>, f: seq<nat>, i: nat): int
    requires |f| == |values|
  {
    if values == [] then 0
    else
      var n := |values| - 1;
      LoadOn(values[..n], f[..n], i) + if f[n] == i then values[n] else 0
  }

  /** The load over the first `m` machines. */
  function LoadBelow(values: seq<int>, f: seq<nat>, m: nat): int
    requires |f| == |values|
  {
    if m == 0 then 0 else LoadBelow(values, f, m - 1) + LoadOn(values, f, m - 1)
  }

  lemma {:induction false} LoadBelowStep(values: seq<int>, f: seq<nat>, m: nat)
    requires |f| == |values| && values != []
    ensures
      var n := |values| - 1;
      LoadBelow(values, f, m) == LoadBelow(values[..n], f[..n], m) + if f[n] < m then values[n] else 0
    decreases m
  {
    if m > 0 { LoadBelowStep(values, f, m - 1); }
  }

  /** All machines together carry all jobs. */
  lemma {:induction false} LoadsAddUp(values: seq<int>, f: seq<nat>, m: nat)
    requires Assigns(f, |values|, m)
    ensures LoadBelow(values, f, m) == Sum(values)
    decreases |values|
  {
    if values == [] {
      NoJobs(f, m);
    } else {
      LoadsAddUp(values[..|values| - 1], f[..|values| - 1], m);
      LoadBelowStep(values, f, m);
    }
  }

  lemma {:induction false} NoJobs(f: seq<nat>, m: nat)
    requires f == []
    ensures LoadBelow([], f, m) == 0
    decreases m
  {
    if m > 0 { NoJobs(f, m - 1); }
  }

  lemma {:induction false} AllAtLeast(values: seq<int>, f: seq<nat>, m: nat, bound: int)
    requires |f| == |values| && forall i :: 0 <= i < m ==> LoadOn(values, f, i) >= bound
    ensures LoadBelow(values, f, m) >= m * bound
    decreases m
  {
    if m > 0 {
      AllAtLeast(values, f, m - 1, bound);
      assert m * bound == (m - 1) * bound + bound;
    }
  }

  lemma {:induction false} AllAtMost(values: seq<int>, f: seq<nat>, m: nat, bound: int)
    requires |f| == |values| && forall i :: 0 <= i < m ==> LoadOn(values, f, i) <= bound
    ensures LoadBelow(values, f, m) <= m * bound
    decreases m
  {
    if m > 0 {
      AllAtMost(values, f, m - 1, bound);
      assert m * bound == (m - 1) * bound + bound;
    }
  }

  // ---------------------------------------------------------------- greedy placement

  /** The lowest index among the first `m` machines with the least load. */
  function LeastLoaded(p: seq<int>, f: seq<nat>, m: nat): (c: nat)
    requires m > 0 && |f| == |p|
    ensures c < m
    ensures forall i :: 0 <= i < m ==> LoadOn(p, f, c) <= LoadOn(p, f, i)
    ensures forall i :: 0 <= i < c ==> LoadOn(p, f, c) < LoadOn(p, f, i)
  {
    if m == 1 then 0
    else
      var c := LeastLoaded(p, f, m - 1);
      if LoadOn(p, f, m - 1) < LoadOn(p, f, c) then m - 1 else c
  }

  function Greedy(p: seq<int>, m: nat): (f: seq<nat>)
    requires m > 0
    ensures Assigns(f, |p|, m)
  {
    if p == [] then []
    else
      var f := Greedy(p[..|p| - 1], m);
      f + [LeastLoaded(p[..|p| - 1], f, m)]
  }

  predicate Nonnegative(p: seq<int>) { forall x :: 0 <= x < |p| ==> p[x] >= 0 }

  predicate Descending(p: seq<int>) { forall x, y :: 0 <= x < y < |p| ==> p[x] >= p[y] }

  lemma GreedyStep(p: seq<int>, m: nat, i: nat)
    requires m > 0 && p != []
    ensures
      var n := |p| - 1;
      var before := Greedy(p[..n], m);
      && Greedy(p, m)[..n] == before
      && LoadOn(p, Greedy(p, m), i) == LoadOn(p[..n], before, i) + if LeastLoaded(p[..n], before, m) == i then p[n] else 0
  {
  }

  /** The least load is at most the average. */
  lemma LeastBelowAverage(p: seq<int>, f: seq<nat>, m: nat)
    requires m > 0 && Assigns(f, |p|, m)
    ensures m * LoadOn(p, f, LeastLoaded(p, f, m)) <= Sum(p)
  {
    AllAtLeast(p, f, m, LoadOn(p, f, LeastLoaded(p, f, m)));
    LoadsAddUp(p, f, m);
  }

  lemma {:induction false} SumNonnegative(p: seq<int>)
    requires Nonnegative(p)
    ensures Sum(p) >= 0
    decreases |p|
  {
    if p != [] { SumNonnegative(p[..|p| - 1]); }
  }

  lemma ListStep(p: seq<int>, m: nat, heaviest: int, i: nat)
    requires m > 0 && p != [] && 0 <= p[|p| - 1] <= heaviest
    requires
      var front := p[..|p| - 1];
      m * LoadOn(front, Greedy(front, m), i) <= Sum(front) + (m - 1) * heaviest
    ensures m * LoadOn(p, Greedy(p, m), i) <= Sum(p) + (m - 1) * heaviest
  {
    var front, last := p[..|p| - 1], p[|p| - 1];
    GreedyStep(p, m, i);
    assert Sum(p) == Sum(front) + last;
    if LeastLoaded(front, Greedy(front, m), m) == i {
      LeastBelowAverage(front, Greedy(front, m), m);
      hide LoadOn, Greedy, LeastLoaded, Sum;
      AddToLeast(m, LoadOn(front, Greedy(front, m), i), last, Sum(front), heaviest);
    } else {
      hide LoadOn, Greedy, LeastLoaded, Sum;
      assert LoadOn(p, Greedy(p, m), i) == LoadOn(front, Greedy(front, m), i);
    }
  }

  /** In any order of jobs, m times the heaviest machine is at most the total plus m - 1 times the
      heaviest job. */
  lemma {:induction false} GreedyListBound(p: seq<int>, m: nat, heaviest: int, i: nat)
    requires m > 0 && Nonnegative(p) && i < m
    requires heaviest >= 0 && forall x :: 0 <= x < |p| ==> p[x] <= heaviest
    ensures m * LoadOn(p, Greedy(p, m), i) <= Sum(p) + (m - 1) * heaviest
    decreases |p|
  {
    if p != [] {
      GreedyListBound(p[..|p| - 1], m, heaviest, i);
      hide LoadOn, Greedy, Sum;
      ListStep(p, m, heaviest, i);
    } else {
      MultiplyMonotone(m - 1, 0, heaviest);
    }
  }

  /** The last job on a machine no fuller than the average. */
  lemma AddToLeast(m: nat, least: int, last: int, before: int, heaviest: int)
    requires m > 0 && last <= heaviest && m * least <= before
    ensures m * (least + last) <= before + last + (m - 1) * heaviest
  {
    Distribute(m, least, last);
    MultiplyMonotone(m - 1, last, heaviest);
    assert m * last == (m - 1) * last + last;
  }

  lemma Distribute(m: int, a: int, b: int)
    ensures m * (a + b) == m * a + m * b
  {
  }

  lemma MultiplyMonotone(m: nat, a: int, b: int)
    requires a <= b
    ensures m * a <= m * b
  {
  }

  /** An assignment whose makespan is at most T. */
  predicate FitsWithin(p: seq<int>, g: seq<nat>, m: nat, T: int) {
    Assigns(g, |p|, m) && forall i :: 0 <= i < m ==> LoadOn(p, g, i) <= T
  }

  // ---------------------------------------------------------------- when every job is long

  /** A job that no job as long as `last` fits beside, within the makespan `T`, counts twice. */
  function Score(p: int, last: int, T: int): int {
    if p + last > T then 2 else 1
  }

  function Scores(p: seq<int>, last: int, T: int): (s: seq<int>)
    ensures |s| == |p| && forall x :: 0 <= x < |p| ==> s[x] == Score(p[x], last, T)
  {
    seq(|p|, x requires 0 <= x < |p| => Score(p[x], last, T))
  }

  /** With every job at least `last` and longer than a third of T: a score of three overfills. */
  lemma {:induction false} ScoreFills(p: seq<int>, f: seq<nat>, i: nat, last: int, T: int)
    requires |f| == |p| && 3 * last > T && last <= T && forall x :: 0 <= x < |p| ==> p[x] >= last
    ensures
      var s, load := LoadOn(Scores(p, last, T), f, i), LoadOn(p, f, i);
      && s >= 0
      && (s == 0 ==> load == 0)
      && (s >= 1 ==> load >= last)
      && (s >= 2 ==> load + last > T)
      && (s >= 3 ==> load > T)
      && (s == 1 ==> load + last <= T)
    decreases |p|
  {
    if p != [] {
      var n := |p| - 1;
      assert Scores(p, last, T)[..n] == Scores(p[..n], last, T);
      ScoreFills(p[..n], f[..n], i, last, T);
    }
  }

  /** The pigeonhole: if jobs longer than a third of T, the last the shortest, can all be placed
      within T, then wherever the others are, the least loaded machine has room for the last. */
  lemma SomeMachineFits(p: seq<int>, f: seq<nat>, g: seq<nat>, m: nat, T: int)
    requires p != [] && m > 0
    requires
      var n := |p| - 1;
      && Assigns(f, n, m) && FitsWithin(p, g, m, T)
      && 3 * p[n] > T && p[n] >= 0 && (forall x :: 0 <= x < n ==> p[x] >= p[n])
    ensures
      var n := |p| - 1;
      LoadOn(p[..n], f, LeastLoaded(p[..n], f, m)) + p[n] <= T
  {
    var n := |p| - 1;
    var last, others := p[n], p[..n];
    LastJobCounts(p, g, g[n], last);
    assert last <= T;
    if LoadOn(others, f, LeastLoaded(others, f, m)) + last > T {
      var scores := Scores(others, last, T);
      forall i | 0 <= i < m ensures LoadOn(scores, f, i) >= 2 {
        ScoreFills(others, f, i, last, T);
      }
      AllAtLeast(scores, f, m, 2);
      LoadsAddUp(scores, f, m);
      var all := scores + [1];
      assert all[..n] == scores;
      forall i | 0 <= i < m ensures LoadOn(all, g, i) <= 2 {
        ScoreFills(others, g[..n], i, last, T);
        assert LoadOn(p, g, i) == LoadOn(others, g[..n], i) + if g[n] == i then last else 0;
        assert LoadOn(all, g, i) == LoadOn(scores, g[..n], i) + if g[n] == i then 1 else 0;
      }
      AllAtMost(all, g, m, 2);
      LoadsAddUp(all, g, m);
    }
  }

  lemma {:induction false} LastJobCounts(p: seq<int>, g: seq<nat>, i: nat, least: int)
    requires p != [] && |g| == |p| && g[|p| - 1] == i && least >= 0 && forall x :: 0 <= x < |p| ==> p[x] >= least
    ensures LoadOn(p, g, i) >= p[|p| - 1]
  {
    LoadNonnegative(p[..|p| - 1], g[..|p| - 1], i);
  }

  lemma {:induction false} LoadNonnegative(p: seq<int>, g: seq<nat>, i: nat)
    requires |g| == |p| && Nonnegative(p)
    ensures LoadOn(p, g, i) >= 0
    decreases |p|
  {
    if p != [] { LoadNonnegative(p[..|p| - 1], g[..|p| - 1], i); }
  }

  // ---------------------------------------------------------------- Graham's bound

  /** Dropping the last job lowers no load of an assignment. */
  lemma FrontFits(p: seq<int>, g: seq<nat>, m: nat, T: int)
    requires p != [] && Nonnegative(p) && FitsWithin(p, g, m, T)
    ensures FitsWithin(p[..|p| - 1], g[..|p| - 1], m, T)
  {
    var n := |p| - 1;
    forall j | 0 <= j < m ensures LoadOn(p[..n], g[..n], j) <= T {
      assert LoadOn(p, g, j) == LoadOn(p[..n], g[..n], j) + if g[n] == j then p[n] else 0;
    }
  }

  /** The machine that receives the last, shortest job. */
  lemma LastJobBound(p: seq<int>, m: nat, f: seq<nat>, g: seq<nat>, T: int)
    requires m > 0 && p != [] && Nonnegative(p) && Descending(p)
    requires Assigns(f, |p| - 1, m)
    requires FitsWithin(p, g, m, T)
    ensures
      var n := |p| - 1;
      3 * m * (LoadOn(p[..n], f, LeastLoaded(p[..n], f, m)) + p[n]) <= (4 * m - 1) * T
  {
    var n := |p| - 1;
    var front, last := p[..n], p[n];
    LeastBelowAverage(front, f, m);
    LoadsAddUp(p, g, m);
    AllAtMost(p, g, m, T);
    LoadNonnegative(p, g, 0);
    if 3 * last > T {
      SomeMachineFits(p, f, g, m, T);
    }
    assert Sum(p) == Sum(front) + last;
    hide LoadOn, LeastLoaded, Sum, LoadBelow, Descending;
    LastPlacement(m, LoadOn(front, f, LeastLoaded(front, f, m)), last, Sum(front), T);
  }

  /** Longest first, every machine stays within (4m - 1) / 3m of the makespan of any assignment. */
  lemma {:induction false} GrahamBound(p: seq<int>, m: nat, g: seq<nat>, T: int, i: nat)
    requires m > 0 && Nonnegative(p) && Descending(p) && i < m
    requires FitsWithin(p, g, m, T)
    ensures 3 * m * LoadOn(p, Greedy(p, m), i) <= (4 * m - 1) * T
    decreases |p|
  {
    if p == [] {
      assert LoadOn(p, g, 0) == 0;
      MultiplyMonotone(4 * m - 1, 0, T);
    } else {
      var n := |p| - 1;
      FrontFits(p, g, m, T);
      GrahamBound(p[..n], m, g[..n], T, i);
      GreedyStep(p, m, i);
      LastJobBound(p, m, Greedy(p[..n], m), g, T);
      hide LoadOn, Greedy, LeastLoaded;
    }
  }

  lemma LastPlacement(m: nat, least: int, last: int, before: int, T: int)
    requires m > 0 && T >= 0 && last >= 0 && m * least <= before && before + last <= m * T
    requires 3 * last <= T || least + last <= T
    ensures 3 * m * (least + last) <= (4 * m - 1) * T
  {
    if 3 * last <= T {
      MultiplyMonotone(m - 1, 3 * last, T);
      assert 3 * m * (least + last) == 3 * (m * least) + (m - 1) * (3 * last) + 3 * last;
      assert (4 * m - 1) * T == 3 * (m * T) + (m - 1) * T;
    } else {
      MultiplyMonotone(3 * m, least + last, T);
      MultiplyMonotone(m - 1, 0, T);
      assert (4 * m - 1) * T == 3 * m * T + (m - 1) * T;
    }
  }
}
