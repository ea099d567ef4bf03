/**
 Weighted rates under unresolved labels, and interval endpoints (bench/scorer/calibration.py); arithmetic is
 exact.
 */
module Rates {
  import opened Wrappers
  import opened Sorting

  /** A reviewed row: its inclusion probability and its label, if resolved. */
  datatype Rated = Rated(probability: real, verdict: Option<string>)

  datatype Rate = Rate(estimate: Option<real>, lower: real, upper: real)

  function Weight(r: Rated): real {
    if r.probability > 0.0 then 1.0 / r.probability else 0.0
  }

  /** A row stands for as many candidates as its sampling left out for each one drawn: itself over its probability. */
  lemma WeightIsInverse(r: Rated)
    ensures r.probability > 0.0 ==> Weight(r) * r.probability == 1.0 && Weight(r) > 0.0
    ensures r.probability <= 0.0 ==> Weight(r) == 0.0
  {
  }

  /** One row drawn with probability 1/k weighs like k rows that were certain to be drawn. */
  lemma {:induction false} RowStandsForMany(r: Rated, k: nat)
    requires k > 0 && r.probability == 1.0 / k as real
    ensures Weight(r) == TotalWeight(seq(k, i => r.(probability := 1.0)))
  {
    CertainRows(r, k);
    Reciprocal(k as real);
    hide TotalWeight;
  }

  lemma Reciprocal(n: real)
    requires n > 0.0
    ensures 1.0 / n > 0.0 && 1.0 / (1.0 / n) == n
  {
    var q := 1.0 / n;
    assert q * n == 1.0;
    var w := 1.0 / q;
    assert w * q == 1.0;
    calc {
      w;
      w * (q * n);
      (w * q) * n;
      n;
    }
  }

  lemma {:induction false} CertainRows(r: Rated, k: nat)
    ensures TotalWeight(seq(k, i => r.(probability := 1.0))) == k as real
  {
    var rows := seq(k, i => r.(probability := 1.0));
    if k > 0 {
      CertainRows(r, k - 1);
      assert rows[..k - 1] == seq(k - 1, i => r.(probability := 1.0));
    }
  }

  function TotalWeight(rows: seq<Rated>): real {
    if rows == [] then 0.0 else TotalWeight(rows[..|rows| - 1]) + Weight(rows[|rows| - 1])
  }

  /** The weight of the rows counted as positive; `optimistic` also counts the unresolved ones. */
  function PositiveWeight(rows: seq<Rated>, positive: string, optimistic: bool): real {
    if rows == [] then 0.0
    else
      var last := rows[|rows| - 1];
      PositiveWeight(rows[..|rows| - 1], positive, optimistic)
      + if last.verdict == Some(positive) || (optimistic && last.verdict.None?) then Weight(last) else 0.0
  }

  ghost predicate Weighted(rows: seq<Rated>) {
    rows != [] && forall i :: 0 <= i < |rows| ==> rows[i].probability > 0.0
  }

  /** The rate the labels give when the unresolved ones count as negative, or as positive. */
  function Bound(rows: seq<Rated>, positive: string, optimistic: bool): real
    requires TotalWeight(rows) != 0.0
  {
    PositiveWeight(rows, positive, optimistic) / TotalWeight(rows)
  }

  lemma {:induction false} WeightsAreOrdered(rows: seq<Rated>, positive: string)
    requires forall i :: 0 <= i < |rows| ==> rows[i].probability > 0.0
    ensures 0.0 <= PositiveWeight(rows, positive, false) <= PositiveWeight(rows, positive, true) <= TotalWeight(rows)
    ensures rows != [] ==> TotalWeight(rows) > 0.0
  {
    if rows != [] { WeightsAreOrdered(rows[..|rows| - 1], positive); }
  }

  lemma Divided(a: real, b: real, total: real)
    requires total > 0.0 && a <= b
    ensures a / total <= b / total
    ensures a == b <==> a / total == b / total
    ensures total / total == 1.0 && 0.0 / total == 0.0
  {
    var x, y := a / total, b / total;
    assert x * total == a && y * total == b;
  }

  lemma BoundsAreOrdered(rows: seq<Rated>, positive: string)
    requires Weighted(rows)
    ensures TotalWeight(rows) > 0.0 && 0.0 <= Bound(rows, positive, false) <= Bound(rows, positive, true) <= 1.0
  {
    WeightsAreOrdered(rows, positive);
    var lower, upper, total := PositiveWeight(rows, positive, false), PositiveWeight(rows, positive, true),
        TotalWeight(rows);
    Divided(0.0, lower, total);
    Divided(lower, upper, total);
    Divided(upper, total, total);
  }

  /** `weighted_rate`. */
  method WeightedRate(rows: seq<Rated>, positive: string) returns (r: Option<Rate>)
    ensures r.Some? <==> Weighted(rows)
    ensures r.Some? ==>
              TotalWeight(rows) > 0.0
              && r.value.lower == Bound(rows, positive, false) && r.value.upper == Bound(rows, positive, true)
              && r.value.estimate == if r.value.lower == r.value.upper then Some(r.value.lower) else None
    ensures r.Some? ==> 0.0 <= r.value.lower <= r.value.upper <= 1.0
  {
    var total, lower, upper := 0.0, 0.0, 0.0;
    for i := 0 to |rows|
      invariant forall k :: 0 <= k < i ==> rows[k].probability > 0.0
      invariant total == TotalWeight(rows[..i])
      invariant lower == PositiveWeight(rows[..i], positive, false)
                && upper == PositiveWeight(rows[..i], positive, true)
    {
      if rows[i].probability <= 0.0 {
        return None;
      }
      assert rows[..i + 1][..i] == rows[..i];
      var weight := 1.0 / rows[i].probability;
      total := total + weight;
      if rows[i].verdict == Some(positive) {
        lower := lower + weight;
      }
      if rows[i].verdict == Some(positive) || rows[i].verdict.None? {
        upper := upper + weight;
      }
    }
    assert rows[..|rows|] == rows;
    if rows == [] {
      return None;
    }
    BoundsAreOrdered(rows, positive);
    lower, upper := lower / total, upper / total;
    r := Some(Rate(if lower == upper then Some(lower) else None, lower, upper));
  }

  // ---- Completions of the unresolved labels ----

  /** `full` resolves every label of `rows` and changes nothing else. */
  ghost predicate Completes(rows: seq<Rated>, full: seq<Rated>) {
    && |full| == |rows|
    && forall i :: 0 <= i < |rows| ==>
         full[i].probability == rows[i].probability && full[i].verdict.Some?
         && (rows[i].verdict.Some? ==> full[i].verdict == rows[i].verdict)
  }

  function Resolve(rows: seq<Rated>, answer: string): seq<Rated> {
    seq(|rows|,
        i requires 0 <= i < |rows| => if rows[i].verdict.Some? then rows[i] else rows[i].(verdict := Some(answer)))
  }

  lemma {:induction false} CompletedWeights(rows: seq<Rated>, full: seq<Rated>, positive: string)
    requires Completes(rows, full) && forall i :: 0 <= i < |rows| ==> rows[i].probability > 0.0
    ensures TotalWeight(full) == TotalWeight(rows)
    ensures PositiveWeight(full, positive, false) == PositiveWeight(full, positive, true)
    ensures PositiveWeight(rows, positive, false) <= PositiveWeight(full, positive, true)
            <= PositiveWeight(rows, positive, true)
  {
    if rows != [] {
      CompletedWeights(rows[..|rows| - 1], full[..|rows| - 1], positive);
    }
  }

  lemma {:induction false} ExtremeWeights(rows: seq<Rated>, positive: string, negative: string)
    requires positive != negative
    ensures PositiveWeight(Resolve(rows, positive), positive, true) == PositiveWeight(rows, positive, true)
    ensures PositiveWeight(Resolve(rows, negative), positive, true) == PositiveWeight(rows, positive, false)
  {
    if rows != [] {
      var n := |rows| - 1;
      ExtremeWeights(rows[..n], positive, negative);
      assert Resolve(rows, positive)[..n] == Resolve(rows[..n], positive);
      assert Resolve(rows, negative)[..n] == Resolve(rows[..n], negative);
    }
  }

  /**
   The bounds are exactly the range of the rates the unresolved labels leave open: every completion has a
   single rate between them, and each bound is the rate of some completion.
   */
  lemma {:induction false} BoundsCoverCompletions(rows: seq<Rated>, positive: string, negative: string,
                                                  full: seq<Rated>)
    requires Weighted(rows) && positive != negative
    ensures TotalWeight(rows) > 0.0
    ensures Completes(rows, full) ==>
              && TotalWeight(full) > 0.0 && Bound(full, positive, false) == Bound(full, positive, true)
              && Bound(rows, positive, false) <= Bound(full, positive, false) <= Bound(rows, positive, true)
    ensures var high, low := Resolve(rows, positive), Resolve(rows, negative);
            && Completes(rows, high) && TotalWeight(high) > 0.0
               && Bound(high, positive, false) == Bound(rows, positive, true)
            && Completes(rows, low) && TotalWeight(low) > 0.0
               && Bound(low, positive, false) == Bound(rows, positive, false)
  {
    WeightsAreOrdered(rows, positive);
    var high, low := Resolve(rows, positive), Resolve(rows, negative);
    CompletedWeights(rows, high, positive);
    CompletedWeights(rows, low, positive);
    ExtremeWeights(rows, positive, negative);
    if Completes(rows, full) {
      CompletedWeights(rows, full, positive);
      Divided(PositiveWeight(rows, positive, false), PositiveWeight(full, positive, true), TotalWeight(rows));
      Divided(PositiveWeight(full, positive, true), PositiveWeight(rows, positive, true), TotalWeight(rows));
    }
  }

  // ---- Endpoints of separately sorted lists ----

  predicate RealLeq(a: real, b: real) {
    a <= b
  }

  lemma RealOrder()
    ensures TotalOrder(RealLeq)
  {
  }

  ghost predicate Dominated(xs: seq<real>, ys: seq<real>) {
    |xs| == |ys| && forall i :: 0 <= i < |xs| ==> xs[i] <= ys[i]
  }

  /** What stands at position `k` after inserting `x` into a sorted list. */
  lemma {:induction false} InsertAt(x: real, xs: seq<real>, k: nat)
    requires SortedBy(xs, RealLeq) && k <= |xs|
    ensures |Insert(x, xs, RealLeq)| == |xs| + 1
    ensures Insert(x, xs, RealLeq)[k]
            == if k < |xs| && xs[k] < x then xs[k] else if k == 0 || xs[k - 1] < x then x else xs[k - 1]
  {
    if xs != [] && !RealLeq(x, xs[0]) {
      InsertAt(x, xs[1..], if k == 0 then 0 else k - 1);
    } else if xs != [] {
      assert Insert(x, xs, RealLeq) == [x] + xs;
      assert forall j :: 0 <= j < |xs| ==> RealLeq(xs[0], xs[j]);
    }
  }

  lemma InsertDominates(x: real, xs: seq<real>, y: real, ys: seq<real>)
    requires SortedBy(xs, RealLeq) && SortedBy(ys, RealLeq) && Dominated(xs, ys) && x <= y
    ensures Dominated(Insert(x, xs, RealLeq), Insert(y, ys, RealLeq))
  {
    InsertAt(x, xs, 0);
    InsertAt(y, ys, 0);
    forall k | 0 <= k < |xs| + 1 ensures Insert(x, xs, RealLeq)[k] <= Insert(y, ys, RealLeq)[k] {
      InsertAt(x, xs, k);
      InsertAt(y, ys, k);
      if 0 < k < |xs| {
        assert RealLeq(xs[k - 1], xs[k]) && RealLeq(ys[k - 1], ys[k]);
      }
    }
  }

  /** Sorting two lists separately keeps one below the other at every rank. */
  lemma {:induction false} SortDominates(xs: seq<real>, ys: seq<real>)
    requires Dominated(xs, ys)
    ensures Dominated(Sort(xs, RealLeq), Sort(ys, RealLeq))
  {
    RealOrder();
    if xs != [] {
      SortDominates(xs[1..], ys[1..]);
      SortCorrect(xs[1..], RealLeq);
      SortCorrect(ys[1..], RealLeq);
      InsertDominates(xs[0], Sort(xs[1..], RealLeq), ys[0], Sort(ys[1..], RealLeq));
    }
  }

  /** The index of the 2.5% and 97.5% endpoints among `n` sorted values. */
  function LowIndex(n: nat): nat
    requires n > 0
  {
    25 * (n - 1) / 1000
  }

  function HighIndex(n: nat): nat
    requires n > 0
  {
    975 * (n - 1) / 1000
  }

  datatype Interval = Interval(low: real, high: real, sensitivityLow: real, sensitivityHigh: real)

  function Endpoints(lowers: seq<real>, uppers: seq<real>): (r: Interval)
    requires |lowers| == |uppers| > 0
  {
    var n := |lowers|;
    IndicesInRange(n);
    SortSize(lowers);
    SortSize(uppers);
    var ls, us := Sort(lowers, RealLeq), Sort(uppers, RealLeq);
    Interval(ls[LowIndex(n)], ls[HighIndex(n)], us[LowIndex(n)], us[HighIndex(n)])
  }

  /** The low endpoint has at most 2.5% of the other values below it, the high one at most 2.5% above, and no fewer. */
  lemma IndicesAreTheTails(n: nat)
    requires n > 0
    ensures 1000 * LowIndex(n) <= 25 * (n - 1) < 1000 * (LowIndex(n) + 1)
    ensures 1000 * HighIndex(n) <= 975 * (n - 1) < 1000 * (HighIndex(n) + 1)
    ensures 25 * (n - 1) <= 1000 * (n - 1 - HighIndex(n)) < 25 * (n - 1) + 1000
  {
  }

  lemma IndicesInRange(n: nat)
    requires n > 0
    ensures 0 <= LowIndex(n) <= HighIndex(n) < n
  {
  }

  lemma SortSize(xs: seq<real>)
    ensures |Sort(xs, RealLeq)| == |xs|
  {
    RealOrder();
    SortCorrect(xs, RealLeq);
  }

  ghost predicate AllWithin(xs: seq<real>, least: real, most: real) {
    forall i :: 0 <= i < |xs| ==> least <= xs[i] <= most
  }

  /** The four endpoints are ordered both ways and stay within the range of the replicates. */
  lemma EndpointsAreOrdered(lowers: seq<real>, uppers: seq<real>, least: real, most: real)
    requires Dominated(lowers, uppers) && |lowers| > 0 && AllWithin(lowers, least, most)
             && AllWithin(uppers, least, most)
    ensures var e := Endpoints(lowers, uppers);
            least <= e.low <= e.high && e.low <= e.sensitivityLow <= e.sensitivityHigh <= most
                && e.high <= e.sensitivityHigh
  {
    var n := |lowers|;
    var ls, us := Sort(lowers, RealLeq), Sort(uppers, RealLeq);
    hide LowIndex, HighIndex, Sort;
    RealOrder();
    IndicesInRange(n);
    SortDominates(lowers, uppers);
    SortCorrect(lowers, RealLeq);
    SortCorrect(uppers, RealLeq);
    assert ls[LowIndex(n)] in multiset(ls) && us[HighIndex(n)] in multiset(us);
    assert LowIndex(n) < HighIndex(n) ==>
             RealLeq(ls[LowIndex(n)], ls[HighIndex(n)]) && RealLeq(us[LowIndex(n)], us[HighIndex(n)]);
    var i :| 0 <= i < |lowers| && lowers[i] == ls[LowIndex(n)];
    var j :| 0 <= j < |uppers| && uppers[j] == us[HighIndex(n)];
  }
}
