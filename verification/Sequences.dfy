/** Facts about sequences shared by the models. */
module Sequences {

  ghost predicate Distinct<T(!new)>(xs: seq<T>) {
    forall i, j :: 0 <= i < j < |xs| ==> xs[i] != xs[j]
  }

  function Elements<T>(xs: seq<T>): set<T> {
    set x | x in xs
  }

  function Flatten<T>(xss: seq<seq<T>>): seq<T> {
    if xss == [] then [] else xss[0] + Flatten(xss[1..])
  }

  lemma {:induction false} FlattenAppend<T>(xss: seq<seq<T>>, yss: seq<seq<T>>)
    ensures Flatten(xss + yss) == Flatten(xss) + Flatten(yss)
  {
    if xss == [] {
      assert xss + yss == yss;
    } else {
      assert (xss + yss)[1..] == xss[1..] + yss;
      FlattenAppend(xss[1..], yss);
    }
  }

  lemma FlattenSnoc<T>(xss: seq<seq<T>>, xs: seq<T>)
    ensures Flatten(xss + [xs]) == Flatten(xss) + xs
  {
    FlattenAppend(xss, [xs]);
    assert Flatten([xs]) == xs + Flatten([xs][1..]);
  }

  lemma {:induction false} InFlatten<T(!new)>(xss: seq<seq<T>>, x: T)
    ensures x in Flatten(xss) <==> exists i :: 0 <= i < |xss| && x in xss[i]
  {
    if xss != [] {
      InFlatten(xss[1..], x);
      if i :| 0 <= i < |xss| && x in xss[i] {
        if i > 0 { assert x in xss[1..][i - 1]; }
      }
      if x in Flatten(xss[1..]) {
        var i :| 0 <= i < |xss[1..]| && x in xss[1..][i];
        assert x in xss[i + 1];
      }
    }
  }

  lemma Associative<T>(a: seq<T>, b: seq<T>, c: seq<T>)
    ensures a + b + c == a + (b + c)
  {
  }

  lemma EmptyLeft<T>(a: seq<T>)
    ensures [] + a == a
  {
  }

  lemma MultisetRemove<T>(xs: seq<T>, j: nat)
    requires j < |xs|
    ensures multiset(xs[..j] + xs[j + 1..]) == multiset(xs) - multiset{xs[j]}
  {
    assert xs == xs[..j] + [xs[j]] + xs[j + 1..];
  }

  lemma DistinctMultiset<T(!new)>(xs: seq<T>)
    requires Distinct(xs)
    ensures forall x :: multiset(xs)[x] == if x in xs then 1 else 0
  {
    if xs != [] {
      var rest := xs[1..];
      DistinctMultiset(rest);
      assert xs == [xs[0]] + rest;
      assert forall i :: 0 <= i < |rest| ==> rest[i] == xs[i + 1];
    }
  }

  lemma MultisetDistinct<T(!new)>(xs: seq<T>)
    requires forall x :: x in multiset(xs) ==> multiset(xs)[x] == 1
    ensures Distinct(xs)
  {
    forall i, j | 0 <= i < j < |xs| ensures xs[i] != xs[j] {
      var a, b := xs[..j], xs[j..];
      assert xs == a + b;
      assert a[i] in multiset(a) && b[0] in multiset(b);
      assert multiset(xs) == multiset(a) + multiset(b);
      assert xs[i] == xs[j] ==> multiset(xs)[xs[i]] >= 2;
    }
  }

  /** Two duplicate-free sequences over the same elements are permutations of each other. */
  lemma SameElementsSameMultiset<T(!new)>(xs: seq<T>, ys: seq<T>)
    requires Distinct(xs) && Distinct(ys) && Elements(xs) == Elements(ys)
    ensures multiset(xs) == multiset(ys)
  {
    DistinctMultiset(xs);
    DistinctMultiset(ys);
    forall x ensures multiset(xs)[x] == multiset(ys)[x] {
      assert x in xs <==> x in Elements(xs);
      assert x in ys <==> x in Elements(ys);
    }
  }

  lemma DistinctCount<T(!new)>(xs: seq<T>)
    requires Distinct(xs)
    ensures |Elements(xs)| == |xs|
  {
    if xs != [] {
      var rest := xs[1..];
      assert forall i :: 0 <= i < |rest| ==> rest[i] == xs[i + 1];
      DistinctCount(rest);
      assert Elements(xs) == {xs[0]} + Elements(rest);
      assert xs[0] !in Elements(rest);
    } else {
      assert Elements(xs) == {};
    }
  }

  lemma DistinctAppend<T(!new)>(a: seq<T>, b: seq<T>)
    ensures Distinct(a + b) <==> Distinct(a) && Distinct(b) && Elements(a) !! Elements(b)
  {
    var whole := a + b;
    assert forall i :: 0 <= i < |a| ==> whole[i] == a[i];
    assert forall i :: 0 <= i < |b| ==> whole[|a| + i] == b[i];
    if x :| x in Elements(a) && x in Elements(b) {
      var i :| 0 <= i < |a| && a[i] == x;
      var j :| 0 <= j < |b| && b[j] == x;
      assert whole[i] == whole[|a| + j];
    }
    if Distinct(a) && Distinct(b) && Elements(a) !! Elements(b) {
      forall i, j | 0 <= i < |a| <= j < |whole| ensures whole[i] != whole[j] {
        assert a[i] in Elements(a) && b[j - |a|] in Elements(b);
      }
    }
  }

  lemma DistinctApart<T(!new)>(a: seq<T>, b: seq<T>)
    requires Distinct(a) && Distinct(b) && forall i, j :: 0 <= i < |a| && 0 <= j < |b| ==> a[i] != b[j]
    ensures Distinct(a + b)
  {
  }

  lemma DistinctSnoc<T(!new)>(xs: seq<T>, x: T)
    requires Distinct(xs) && x !in xs
    ensures Distinct(xs + [x])
  {
  }

  lemma ElementsAppend<T(!new)>(a: seq<T>, b: seq<T>)
    ensures Elements(a + b) == Elements(a) + Elements(b)
  {
  }

  lemma CountDistinct<T(!new)>(xs: seq<T>)
    ensures |Elements(xs)| <= |xs|
    ensures |Elements(xs)| == |xs| <==> Distinct(xs)
  {
    if xs == [] {
      assert Elements(xs) == {};
    } else {
      var front, x := xs[..|xs| - 1], xs[|xs| - 1];
      CountDistinct(front);
      DistinctAppend(front, [x]);
      assert xs == front + [x];
      assert Elements(xs) == Elements(front) + {x};
      if x in Elements(front) { assert Elements(xs) == Elements(front); }
      assert Elements([x]) == {x};
    }
  }

  lemma PrefixMember<T(!new)>(a: seq<T>, b: seq<T>, x: T)
    requires a <= b && x in a
    ensures x in b
  {
    var i :| 0 <= i < |a| && a[i] == x;
    assert b[i] == x;
  }

  function Sum(xs: seq<nat>): nat {
    if xs == [] then 0 else xs[0] + Sum(xs[1..])
  }
}
