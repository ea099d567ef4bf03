/** Round-robin allocation of a human-review sample over strata (bench/scorer/calibration.py, `freeze_sample`). */
module Allocation {
  import Sequences
  import Sorting

  /** A tuple of strings, such as a stratum. */
  type Key = seq<string>

  predicate KeyLeq(a: Key, b: Key) {
    if a == [] then true
    else if b == [] then false
    else if a[0] == b[0] then KeyLeq(a[1..], b[1..])
    else Sorting.LexLeq(a[0], b[0])
  }

  lemma KeyTotal(a: Key, b: Key)
    ensures KeyLeq(a, b) || KeyLeq(b, a)
  {
    Sorting.LexIsTotalOrder();
    hide Sorting.LexLeq;
    if a != [] && b != [] && a[0] == b[0] { KeyTotal(a[1..], b[1..]); }
  }

  lemma KeyAntisymmetric(a: Key, b: Key)
    requires KeyLeq(a, b) && KeyLeq(b, a)
    ensures a == b
  {
    Sorting.LexIsTotalOrder();
    hide Sorting.LexLeq;
    if a != [] && b != [] {
      assert a == [a[0]] + a[1..] && b == [b[0]] + b[1..];
      KeyAntisymmetric(a[1..], b[1..]);
    }
  }

  lemma {:induction false} KeyTransitive(a: Key, b: Key, c: Key)
    requires KeyLeq(a, b) && KeyLeq(b, c)
    ensures KeyLeq(a, c)
  {
    Sorting.LexIsTotalOrder();
    hide Sorting.LexLeq;
    if a != [] && b != [] && c != [] && a[0] == b[0] == c[0] { KeyTransitive(a[1..], b[1..], c[1..]); }
  }

  lemma {:induction false} KeyOrder()
    ensures Sorting.TotalOrder(KeyLeq)
  {
    forall a, b ensures KeyLeq(a, b) || KeyLeq(b, a) { KeyTotal(a, b); }
    forall a, b | KeyLeq(a, b) && KeyLeq(b, a) ensures a == b { KeyAntisymmetric(a, b); }
    forall a, b, c | KeyLeq(a, b) && KeyLeq(b, c) ensures KeyLeq(a, c) { KeyTransitive(a, b, c); }
  }

  type Counts = map<Key, nat>

  function At(m: Counts, k: Key): nat {
    if k in m then m[k] else 0
  }

  function SumAt(keys: seq<Key>, m: Counts): nat {
    if keys == [] then 0 else SumAt(keys[..|keys| - 1], m) + At(m, keys[|keys| - 1])
  }

  function Capped(size: nat, level: nat): nat {
    if size < level then size else level
  }

  /** Every stratum is filled to the water level, the first `j` of them to one above it. */
  ghost predicate Filled(alloc: Counts, ranked: seq<Key>, size: Counts, level: nat, j: nat) {
    && (forall k :: k in alloc <==> k in ranked)
    && forall i :: 0 <= i < |ranked| ==>
         At(alloc, ranked[i]) == Capped(At(size, ranked[i]), level + if i < j then 1 else 0)
  }

  /** One more for `k`. */
  lemma SumIncrement(keys: seq<Key>, m: Counts, k: Key, n: nat)
    requires Sequences.Distinct(keys)
    ensures SumAt(keys, m[k := n]) == if k in keys then SumAt(keys, m) - At(m, k) + n else SumAt(keys, m)
    ensures k in keys ==> At(m, k) <= SumAt(keys, m)
  {
    if keys != [] {
      var front, last := keys[..|keys| - 1], keys[|keys| - 1];
      SumIncrement(front, m, k, n);
      assert keys == front + [last];
      assert last !in front;
    }
  }

  lemma SumPointwise(keys: seq<Key>, a: Counts, b: Counts)
    requires forall i :: 0 <= i < |keys| ==> At(a, keys[i]) <= At(b, keys[i])
    ensures SumAt(keys, a) <= SumAt(keys, b)
    ensures SumAt(keys, a) == SumAt(keys, b) ==> forall i :: 0 <= i < |keys| ==> At(a, keys[i]) == At(b, keys[i])
  {
    if keys != [] {
      SumPointwise(keys[..|keys| - 1], a, b);
      forall i | 0 <= i < |keys| - 1 ensures keys[i] == keys[..|keys| - 1][i] {}
    }
  }

  lemma RaiseOne(alloc: Counts, ranked: seq<Key>, size: Counts, level: nat, i: nat)
    requires Sequences.Distinct(ranked) && i < |ranked| && Filled(alloc, ranked, size, level, i)
    ensures At(alloc, ranked[i]) < At(size, ranked[i]) ==>
              Filled(alloc[ranked[i] := At(alloc, ranked[i]) + 1], ranked, size, level, i + 1)
    ensures At(alloc, ranked[i]) >= At(size, ranked[i]) ==>
              Filled(alloc, ranked, size, level, i + 1) && At(alloc, ranked[i]) == At(size, ranked[i])
  {
    forall k | 0 <= k < |ranked| && k != i ensures ranked[k] != ranked[i] {
      if k < i { assert ranked[k] != ranked[i]; } else { assert ranked[i] != ranked[k]; }
    }
  }

  lemma NextLevel(alloc: Counts, ranked: seq<Key>, size: Counts, level: nat)
    requires Filled(alloc, ranked, size, level, |ranked|)
    ensures Filled(alloc, ranked, size, level + 1, 0)
  {
  }

  /** The inner loop: at most one more for each stratum in rank order. */
  method Round(alloc0: Counts, ranked: seq<Key>, size: Counts, remaining0: nat, ghost level: nat)
      returns (alloc: Counts, remaining: nat, progressed: bool)
    requires Sequences.Distinct(ranked) && Filled(alloc0, ranked, size, level, 0) && remaining0 > 0
    ensures SumAt(ranked, alloc) + remaining == SumAt(ranked, alloc0) + remaining0 && remaining <= remaining0
    ensures progressed <==> remaining < remaining0
    ensures if remaining == 0 then exists j :: 0 <= j <= |ranked| && Filled(alloc, ranked, size, level, j)
            else Filled(alloc, ranked, size, level + 1, 0)
    ensures !progressed ==> alloc == alloc0 && SumAt(ranked, alloc) == SumAt(ranked, size)
  {
    hide SumAt, Filled, Sequences.Distinct;
    alloc, remaining, progressed := alloc0, remaining0, false;
    for i := 0 to |ranked|
      invariant Filled(alloc, ranked, size, level, i)
      invariant 0 < remaining <= remaining0 && SumAt(ranked, alloc) + remaining == SumAt(ranked, alloc0) + remaining0
      invariant progressed <==> remaining < remaining0
      invariant !progressed ==> alloc == alloc0 && forall k :: 0 <= k < i ==>
                  At(alloc, ranked[k]) == At(size, ranked[k])
    {
      var key := ranked[i];
      RaiseOne(alloc, ranked, size, level, i);
      if At(alloc, key) < At(size, key) {
        SumIncrement(ranked, alloc, key, At(alloc, key) + 1);
        alloc := alloc[key := At(alloc, key) + 1];
        remaining := remaining - 1;
        progressed := true;
        if remaining == 0 {
          return;
        }
      }
    }
    NextLevel(alloc, ranked, size, level);
    if !progressed { SumPointwise(ranked, alloc, size); SumPointwise(ranked, size, alloc); }
  }

  /** Lines 48-61: one for each stratum, then rounds until the target is reached or everything is taken. */
  method Allocate(ranked: seq<Key>, size: Counts, target: nat) returns (alloc: Counts)
    requires Sequences.Distinct(ranked) && |ranked| <= target
    requires forall k :: k in ranked ==> At(size, k) >= 1
    ensures SumAt(ranked, alloc) == Capped(SumAt(ranked, size), target)
    ensures exists level, j :: level >= 1 && 0 <= j <= |ranked| && Filled(alloc, ranked, size, level, j)
  {
    alloc := map k | k in ranked :: 1;
    SumOfOnes(ranked, alloc);
    var remaining: nat := target - |ranked|;
    ghost var level: nat, j: nat := 1, 0;
    assert Filled(alloc, ranked, size, 1, 0) by { forall i | 0 <= i < |ranked| ensures At(size, ranked[i]) >= 1 {} }
    hide SumAt, Filled;
    while remaining > 0
      invariant level >= 1 && 0 <= j <= |ranked| && Filled(alloc, ranked, size, level, j)
      invariant remaining > 0 ==> j == 0
      invariant SumAt(ranked, alloc) + remaining == target
      decreases remaining
    {
      var progressed;
      alloc, remaining, progressed := Round(alloc, ranked, size, remaining, level);
      if remaining == 0 {
        j :| 0 <= j <= |ranked| && Filled(alloc, ranked, size, level, j);
      } else {
        level := level + 1;
      }
      if !progressed {
        break;
      }
    }
    SumPointwise(ranked, alloc, size);
  }

  lemma SumOfOnes(ranked: seq<Key>, alloc: Counts)
    requires forall i :: 0 <= i < |ranked| ==> At(alloc, ranked[i]) == 1
    ensures SumAt(ranked, alloc) == |ranked|
  {
    if ranked != [] { SumOfOnes(ranked[..|ranked| - 1], alloc); }
  }

  /** Between one and everything, and an unsaturated stratum is at most one below any other. */
  ghost predicate Balanced(alloc: Counts, ranked: seq<Key>, size: Counts) {
    && (forall k :: k in ranked ==> 1 <= At(alloc, k) <= At(size, k))
    && (forall k, m :: k in ranked && m in ranked && At(alloc, k) < At(size, k) ==> At(alloc, m) <= At(alloc, k) + 1)
  }

  lemma FilledIsBalanced(alloc: Counts, ranked: seq<Key>, size: Counts, level: nat, j: nat)
    requires Filled(alloc, ranked, size, level, j) && level >= 1
    requires forall k :: k in ranked ==> At(size, k) >= 1
    ensures Balanced(alloc, ranked, size)
  {
    forall k | k in ranked
      ensures 1 <= At(alloc, k) <= At(size, k) && At(alloc, k) <= level + 1
              && (At(alloc, k) < At(size, k) ==> At(alloc, k) >= level)
    {
      var i :| 0 <= i < |ranked| && ranked[i] == k;
    }
  }

  /** The water level is determined by the total, so the allocation is the only filled one with its sum. */
  lemma FilledIsUnique(a: Counts, b: Counts, ranked: seq<Key>, size: Counts, level: nat, j: nat, level': nat, j': nat)
    requires Filled(a, ranked, size, level, j) && Filled(b, ranked, size, level', j')
    requires j <= |ranked| && j' <= |ranked|
    requires SumAt(ranked, a) == SumAt(ranked, b)
    ensures a == b
  {
    hide SumAt;
    if level < level' || (level == level' && j <= j') {
      SumPointwise(ranked, a, b);
    } else {
      SumPointwise(ranked, b, a);
    }
    forall k | k in ranked ensures At(a, k) == At(b, k) {
      var i :| 0 <= i < |ranked| && ranked[i] == k;
      assert At(a, ranked[i]) == At(b, ranked[i]);
    }
  }

  /** Strata ranked by decreasing size never get less than a smaller one. */
  lemma LargerStrataGetNoLess(alloc: Counts, ranked: seq<Key>, size: Counts, level: nat, j: nat, i: nat, k: nat)
    requires Filled(alloc, ranked, size, level, j) && i < k < |ranked|
    requires At(size, ranked[i]) >= At(size, ranked[k])
    ensures At(alloc, ranked[i]) >= At(alloc, ranked[k])
  {
  }
}
