/**
 Greedy packing under two caps, the shape shared by the batch planner and by the Git
 path chunker: items keep their order, a group holds at most `maxCount` items of total
 weight at most `maxWeight`, and an item whose weight is unknown or over the cap stands alone.
 */
module Packing {
  import opened Wrappers
  import Sequences

  datatype Limits<!T> = Limits(weight: T -> Option<nat>, maxCount: nat, maxWeight: nat)

  /** Sum of the known weights. */
  function KnownWeight<T>(part: seq<T>, lim: Limits<T>): nat {
    if part == [] then 0
    else KnownWeight(part[..|part| - 1], lim)
         + match lim.weight(part[|part| - 1]) case Some(w) => w case None => 0
  }

  predicate AllKnown<T>(part: seq<T>, lim: Limits<T>) {
    forall i :: 0 <= i < |part| ==> lim.weight(part[i]).Some?
  }

  /** A legal group: a lone item, or known items within both caps. */
  predicate Fits<T>(part: seq<T>, lim: Limits<T>) {
    || |part| == 1
    || (1 <= |part| <= lim.maxCount && AllKnown(part, lim) && KnownWeight(part, lim) <= lim.maxWeight)
  }

  ghost predicate LegalPartition<T>(parts: seq<seq<T>>, xs: seq<T>, lim: Limits<T>) {
    Sequences.Flatten(parts) == xs && forall i :: 0 <= i < |parts| ==> Fits(parts[i], lim)
  }

  /** Length of the longest fitting prefix of `xs` reached by growing one of length `k`. */
  function LongestFit<T(!new)>(xs: seq<T>, lim: Limits<T>, k: nat): (n: nat)
    requires 1 <= k <= |xs|
    ensures k <= n <= |xs|
    decreases |xs| - k
  {
    if k < |xs| && Fits(xs[..k + 1], lim) then LongestFit(xs, lim, k + 1) else k
  }

  /** Reference packing: cut off the longest fitting prefix, again and again. */
  function Greedy<T(!new)>(xs: seq<T>, lim: Limits<T>): seq<seq<T>> {
    if xs == [] then []
    else
      var k := LongestFit(xs, lim, 1);
      [xs[..k]] + Greedy(xs[k..], lim)
  }

  lemma KnownWeightAppend<T(!new)>(a: seq<T>, b: seq<T>, lim: Limits<T>)
    ensures KnownWeight(a + b, lim) == KnownWeight(a, lim) + KnownWeight(b, lim)
  {
    if b == [] {
      assert a + b == a;
    } else {
      assert (a + b)[..|a + b| - 1] == a + b[..|b| - 1];
      KnownWeightAppend(a, b[..|b| - 1], lim);
    }
  }

  lemma NoWeight<T>(lim: Limits<T>)
    ensures KnownWeight([], lim) == 0 && AllKnown([], lim)
  {
  }

  lemma WeightGrows<T>(current: seq<T>, x: T, w: nat, lim: Limits<T>)
    requires lim.weight(x) == Some(w) && AllKnown(current, lim)
    ensures KnownWeight(current + [x], lim) == KnownWeight(current, lim) + w && AllKnown(current + [x], lim)
  {
    assert (current + [x])[..|current|] == current;
  }

  lemma WeightOfMember<T(!new)>(part: seq<T>, i: nat, lim: Limits<T>)
    requires i < |part| && lim.weight(part[i]).Some?
    ensures lim.weight(part[i]).value <= KnownWeight(part, lim)
  {
    if i < |part| - 1 {
      assert part[..|part| - 1][i] == part[i];
      WeightOfMember(part[..|part| - 1], i, lim);
    }
  }

  /** Any nonempty contiguous piece of a legal group is a legal group. */
  lemma PieceFits<T(!new)>(a: seq<T>, b: seq<T>, c: seq<T>, lim: Limits<T>)
    requires Fits(a + b + c, lim) && b != []
    ensures Fits(b, lim)
  {
    KnownWeightAppend(a, b, lim);
    KnownWeightAppend(a + b, c, lim);
    if |b| > 1 {
      var whole := a + b + c;
      assert forall i :: 0 <= i < |b| ==> b[i] == whole[|a| + i];
    }
  }

  lemma PrefixFits<T(!new)>(xs: seq<T>, m: nat, n: nat, lim: Limits<T>)
    requires 1 <= m <= n <= |xs| && Fits(xs[..n], lim)
    ensures Fits(xs[..m], lim)
  {
    assert xs[..n] == [] + xs[..m] + xs[m..n];
    PieceFits([], xs[..m], xs[m..n], lim);
  }

  lemma {:induction false} LongestFitIsLongest<T(!new)>(xs: seq<T>, lim: Limits<T>, k: nat)
    requires 1 <= k <= |xs| && Fits(xs[..k], lim)
    ensures Fits(xs[..LongestFit(xs, lim, k)], lim)
    ensures forall m :: k <= m <= |xs| && Fits(xs[..m], lim) ==> m <= LongestFit(xs, lim, k)
    decreases |xs| - k
  {
    if k < |xs| && Fits(xs[..k + 1], lim) {
      LongestFitIsLongest(xs, lim, k + 1);
    } else {
      forall m | k <= m <= |xs| && Fits(xs[..m], lim) ensures m <= k {
        if k < m { PrefixFits(xs, k + 1, m, lim); }
      }
    }
  }

  lemma {:induction false} GreedyIsLegal<T(!new)>(xs: seq<T>, lim: Limits<T>)
    ensures LegalPartition(Greedy(xs, lim), xs, lim)
  {
    if xs != [] {
      assert |xs[..1]| == 1;
      LongestFitIsLongest(xs, lim, 1);
      GreedyIsLegal(xs[LongestFit(xs, lim, 1)..], lim);
    }
  }

  /** Dropping items from the front of a legally partitioned list never needs more groups. */
  lemma {:induction false} DropFront<T(!new)>(parts: seq<seq<T>>, xs: seq<T>, d: nat, lim: Limits<T>)
      returns (fewer: seq<seq<T>>)
    requires LegalPartition(parts, xs, lim) && d <= |xs|
    ensures LegalPartition(fewer, xs[d..], lim) && |fewer| <= |parts|
    decreases |parts|
  {
    if d == 0 {
      fewer := parts;
      assert xs[0..] == xs;
    } else {
      var head := parts[0];
      assert xs == head + Sequences.Flatten(parts[1..]);
      if d < |head| {
        fewer := [head[d..]] + parts[1..];
        assert head == head[..d] + head[d..] + [];
        PieceFits(head[..d], head[d..], [], lim);
        assert xs[d..] == head[d..] + Sequences.Flatten(parts[1..]);
        assert fewer[1..] == parts[1..];
      } else {
        fewer := DropFront(parts[1..], Sequences.Flatten(parts[1..]), d - |head|, lim);
        assert xs[d..] == Sequences.Flatten(parts[1..])[d - |head|..];
      }
    }
  }

  /** No legal order-preserving partition uses fewer groups than the greedy one. */
  lemma {:induction false} GreedyIsOptimal<T(!new)>(parts: seq<seq<T>>, xs: seq<T>, lim: Limits<T>)
    requires LegalPartition(parts, xs, lim)
    ensures |Greedy(xs, lim)| <= |parts|
    decreases |xs|
  {
    if xs != [] {
      var head, tail := parts[0], parts[1..];
      var k := LongestFit(xs, lim, 1);
      assert |xs[..1]| == 1;
      LongestFitIsLongest(xs, lim, 1);
      assert head == xs[..|head|] && Sequences.Flatten(tail) == xs[|head|..];
      assert |head| <= k;
      var fewer := DropFront(tail, xs[|head|..], k - |head|, lim);
      assert xs[|head|..][k - |head|..] == xs[k..];
      GreedyIsOptimal(fewer, xs[k..], lim);
    }
  }

  /** The step an imperative packer relies on: a group that cannot grow is closed. */
  lemma {:induction false} CloseGroup<T(!new)>(current: seq<T>, rest: seq<T>, lim: Limits<T>)
    requires Fits(current, lim)
    requires rest != [] ==> !Fits(current + [rest[0]], lim)
    ensures Greedy(current + rest, lim) == [current] + Greedy(rest, lim)
  {
    var xs := current + rest;
    var k := LongestFit(xs, lim, 1);
    assert |xs[..1]| == 1;
    LongestFitIsLongest(xs, lim, 1);
    assert xs[..|current|] == current;
    if rest != [] { assert xs[..|current| + 1] == current + [rest[0]]; }
    if k > |current| { PrefixFits(xs, |current| + 1, k, lim); }
    assert xs[k..] == rest;
  }

  lemma GrowTest<T(!new)>(current: seq<T>, x: T, w: nat, lim: Limits<T>)
    requires current != [] && lim.weight(x) == Some(w)
    ensures KnownWeight(current + [x], lim) == KnownWeight(current, lim) + w
    ensures Fits(current + [x], lim) <==>
            |current| < lim.maxCount && AllKnown(current, lim) && KnownWeight(current, lim) + w <= lim.maxWeight
  {
    var grown := current + [x];
    assert grown[..|grown| - 1] == current;
    assert forall i :: 0 <= i < |current| ==> grown[i] == current[i];
  }

  /** An item of unknown weight, or over the cap, shares a group with nobody. */
  lemma Isolated<T(!new)>(x: T, rest: seq<T>, before: seq<T>, lim: Limits<T>)
    requires lim.weight(x).None? || lim.weight(x).value > lim.maxWeight
    ensures before != [] ==> !Fits(before + [x], lim)
    ensures Greedy([x] + rest, lim) == [[x]] + Greedy(rest, lim)
  {
    if before != [] {
      var both := before + [x];
      assert both[|both| - 1] == x;
      KnownWeightAppend(before, [x], lim);
      assert KnownWeight([x], lim) == match lim.weight(x) case Some(w) => w case None => 0;
    }
    if rest != [] {
      var both := [x] + [rest[0]];
      assert both[0] == x;
      KnownWeightAppend([x], [rest[0]], lim);
      assert KnownWeight([x], lim) == match lim.weight(x) case Some(w) => w case None => 0;
    }
    CloseGroup([x], rest, lim);
  }

  /** The groups after closing the open one, if there is one. */
  ghost function Closed<T>(parts: seq<seq<T>>, current: seq<T>): seq<seq<T>> {
    if current == [] then parts else parts + [current]
  }

  /** An imperative packer is on course for `whole`: `parts` are closed, `current` is open, `xs` is unread. */
  ghost predicate OnCourse<T(!new)>(parts: seq<seq<T>>, current: seq<T>, xs: seq<T>, whole: seq<seq<T>>,
                                    lim: Limits<T>) {
    (current != [] ==> Fits(current, lim)) && parts + Greedy(current + xs, lim) == whole
  }

  lemma StepClose<T(!new)>(parts: seq<seq<T>>, current: seq<T>, xs: seq<T>, whole: seq<seq<T>>, lim: Limits<T>)
    requires OnCourse(parts, current, xs, whole, lim)
    requires current != [] && xs != [] ==> !Fits(current + [xs[0]], lim)
    ensures OnCourse(Closed(parts, current), [], xs, whole, lim)
  {
    assert [] + xs == xs;
    if current != [] {
      CloseGroup(current, xs, lim);
      assert parts + ([current] + Greedy(xs, lim)) == parts + [current] + Greedy(xs, lim);
    }
  }

  lemma StepIsolate<T(!new)>(parts: seq<seq<T>>, current: seq<T>, xs: seq<T>, whole: seq<seq<T>>, lim: Limits<T>)
    requires OnCourse(parts, current, xs, whole, lim) && xs != []
    requires lim.weight(xs[0]).None? || lim.weight(xs[0]).value > lim.maxWeight
    ensures OnCourse(Closed(parts, current) + [[xs[0]]], [], xs[1..], whole, lim)
  {
    assert xs == [xs[0]] + xs[1..] && [] + xs == xs && [] + xs[1..] == xs[1..];
    Isolated(xs[0], xs[1..], current, lim);
    StepClose(parts, current, xs, whole, lim);
    var done := Closed(parts, current);
    assert done + ([[xs[0]]] + Greedy(xs[1..], lim)) == done + [[xs[0]]] + Greedy(xs[1..], lim);
  }

  lemma StepGrow<T(!new)>(parts: seq<seq<T>>, current: seq<T>, xs: seq<T>, whole: seq<seq<T>>, lim: Limits<T>)
    requires OnCourse(parts, current, xs, whole, lim) && xs != []
    requires current != [] ==> Fits(current + [xs[0]], lim)
    ensures OnCourse(parts, current + [xs[0]], xs[1..], whole, lim)
  {
    hide Greedy, KnownWeight;
    assert |[xs[0]]| == 1 && [] + [xs[0]] == [xs[0]];
    assert current + xs == (current + [xs[0]]) + xs[1..];
  }
}
