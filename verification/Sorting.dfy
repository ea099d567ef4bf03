/** The built-in `sorted`, with the uniqueness fact that makes its result independent of input order. */
module Sorting {
  import opened Sequences

  /** An order by a key that several elements may share. */
  ghost predicate TotalPreorder<T(!new)>(leq: (T, T) -> bool) {
    && (forall x, y :: leq(x, y) || leq(y, x))
    && (forall x, y, z :: leq(x, y) && leq(y, z) ==> leq(x, z))
  }

  ghost predicate TotalOrder<T(!new)>(leq: (T, T) -> bool) {
    TotalPreorder(leq) && forall x, y :: leq(x, y) && leq(y, x) ==> x == y
  }

  ghost predicate SortedBy<T>(xs: seq<T>, leq: (T, T) -> bool) {
    forall i, j :: 0 <= i < j < |xs| ==> leq(xs[i], xs[j])
  }

  function Insert<T>(x: T, xs: seq<T>, leq: (T, T) -> bool): seq<T> {
    if xs == [] || leq(x, xs[0]) then [x] + xs else [xs[0]] + Insert(x, xs[1..], leq)
  }

  function Sort<T>(xs: seq<T>, leq: (T, T) -> bool): seq<T> {
    if xs == [] then [] else Insert(xs[0], Sort(xs[1..], leq), leq)
  }

  lemma InsertMultiset<T>(x: T, xs: seq<T>, leq: (T, T) -> bool)
    ensures multiset(Insert(x, xs, leq)) == multiset(xs) + multiset{x}
  {
    if xs != [] && !leq(x, xs[0]) {
      InsertMultiset(x, xs[1..], leq);
      assert xs == [xs[0]] + xs[1..];
    }
  }

  lemma InsertSorted<T(!new)>(x: T, xs: seq<T>, leq: (T, T) -> bool)
    requires TotalPreorder(leq) && SortedBy(xs, leq)
    ensures SortedBy(Insert(x, xs, leq), leq)
  {
    if xs == [] || leq(x, xs[0]) {
    } else {
      var rest := Insert(x, xs[1..], leq);
      InsertSorted(x, xs[1..], leq);
      InsertMultiset(x, xs[1..], leq);
      forall j | 0 <= j < |rest| ensures leq(xs[0], rest[j]) {
        assert rest[j] in multiset(rest);
        assert rest[j] == x || rest[j] in xs[1..];
      }
    }
  }

  lemma {:induction false} SortCorrect<T(!new)>(xs: seq<T>, leq: (T, T) -> bool)
    requires TotalPreorder(leq)
    ensures SortedBy(Sort(xs, leq), leq)
    ensures multiset(Sort(xs, leq)) == multiset(xs)
    ensures |Sort(xs, leq)| == |xs|
  {
    if xs != [] {
      SortCorrect(xs[1..], leq);
      InsertSorted(xs[0], Sort(xs[1..], leq), leq);
      InsertMultiset(xs[0], Sort(xs[1..], leq), leq);
      assert xs == [xs[0]] + xs[1..];
      assert |multiset(Sort(xs, leq))| == |multiset(xs)|;
    }
  }

  lemma HeadIsLeast<T(!new)>(xs: seq<T>, x: T, leq: (T, T) -> bool)
    requires TotalOrder(leq) && SortedBy(xs, leq) && x in multiset(xs)
    ensures xs != [] && leq(xs[0], x)
  {
    var i :| 0 <= i < |xs| && xs[i] == x;
    assert leq(xs[0], xs[0]);
  }

  lemma SameHead<T(!new)>(xs: seq<T>, ys: seq<T>, leq: (T, T) -> bool)
    requires TotalOrder(leq) && SortedBy(xs, leq) && SortedBy(ys, leq)
    requires multiset(xs) == multiset(ys) && xs != []
    ensures ys != [] && xs[0] == ys[0]
  {
    assert xs[0] in multiset(ys);
    HeadIsLeast(ys, xs[0], leq);
    assert ys[0] in multiset(xs);
    HeadIsLeast(xs, ys[0], leq);
  }

  lemma SortedTail<T(!new)>(xs: seq<T>, leq: (T, T) -> bool)
    requires SortedBy(xs, leq) && xs != []
    ensures SortedBy(xs[1..], leq) && multiset(xs[1..]) == multiset(xs) - multiset{xs[0]}
  {
    assert xs == [xs[0]] + xs[1..];
  }

  /** A sorted arrangement of a multiset is unique, so `sorted` forgets the input order. */
  lemma {:induction false} SortedUnique<T(!new)>(xs: seq<T>, ys: seq<T>, leq: (T, T) -> bool)
    requires TotalOrder(leq) && SortedBy(xs, leq) && SortedBy(ys, leq)
    requires multiset(xs) == multiset(ys)
    ensures xs == ys
    decreases |xs|
  {
    hide TotalOrder, SortedBy;
    if xs != [] {
      SameHead(xs, ys, leq);
      SortedTail(xs, leq);
      SortedTail(ys, leq);
      SortedUnique(xs[1..], ys[1..], leq);
      assert xs == [xs[0]] + xs[1..] && ys == [ys[0]] + ys[1..];
    } else {
      assert |multiset(ys)| == |ys|;
    }
  }

  lemma SortIsThe<T(!new)>(xs: seq<T>, ys: seq<T>, leq: (T, T) -> bool)
    requires TotalOrder(leq) && SortedBy(ys, leq) && multiset(xs) == multiset(ys)
    ensures Sort(xs, leq) == ys
  {
    SortCorrect(xs, leq);
    SortedUnique(Sort(xs, leq), ys, leq);
  }

  lemma SortElements<T(!new)>(xs: seq<T>, leq: (T, T) -> bool)
    requires TotalOrder(leq)
    ensures forall x :: x in Sort(xs, leq) <==> x in xs
    ensures Distinct(xs) ==> Distinct(Sort(xs, leq))
  {
    SortCorrect(xs, leq);
    var ys := Sort(xs, leq);
    forall x ensures x in ys <==> x in xs {
      assert x in ys <==> x in multiset(ys);
      assert x in xs <==> x in multiset(xs);
    }
    if Distinct(xs) {
      DistinctMultiset(xs);
      MultisetDistinct(ys);
    }
  }

  /** Python's `sorted(set(xs))`. */
  function Dedup<T(==)>(xs: seq<T>): seq<T> {
    if xs == [] then [] else if xs[0] in xs[1..] then Dedup(xs[1..]) else [xs[0]] + Dedup(xs[1..])
  }

  lemma DedupCorrect<T(!new)>(xs: seq<T>)
    ensures Distinct(Dedup(xs))
    ensures forall x :: x in Dedup(xs) <==> x in xs
  {
    if xs != [] { DedupCorrect(xs[1..]); }
  }

  lemma SortDedupCanonical<T(!new)>(xs: seq<T>, ys: seq<T>, leq: (T, T) -> bool)
    requires TotalOrder(leq) && Elements(xs) == Elements(ys)
    ensures Sort(Dedup(xs), leq) == Sort(Dedup(ys), leq)
  {
    DedupCorrect(xs);
    DedupCorrect(ys);
    forall x ensures x in Elements(Dedup(xs)) <==> x in Elements(Dedup(ys)) {
      assert x in xs <==> x in Elements(xs);
      assert x in ys <==> x in Elements(ys);
    }
    SameElementsSameMultiset(Dedup(xs), Dedup(ys));
    SortCorrect(Dedup(xs), leq);
    SortCorrect(Dedup(ys), leq);
    SortedUnique(Sort(Dedup(xs), leq), Sort(Dedup(ys), leq), leq);
  }

  // ---- The order of Python strings: by code point ----

  predicate LexLeq(a: string, b: string) {
    if a == [] then true
    else if b == [] then false
    else if a[0] == b[0] then LexLeq(a[1..], b[1..])
    else a[0] < b[0]
  }

  /** It is the dictionary order: a prefix comes first, otherwise the first difference decides. */
  lemma {:induction false} LexIsDictionaryOrder(a: string, b: string, k: nat)
    requires k <= |a| && k <= |b| && a[..k] == b[..k]
    requires k < |a| && k < |b| ==> a[k] != b[k]
    ensures LexLeq(a, b) <==> k == |a| || (k < |b| && a[k] < b[k])
  {
    if k > 0 {
      assert a[0] == a[..k][0] == b[..k][0] == b[0];
      assert a[1..][..k - 1] == a[..k][1..] == b[..k][1..] == b[1..][..k - 1];
      LexIsDictionaryOrder(a[1..], b[1..], k - 1);
    }
  }

  lemma LexAntisymmetric(a: string, b: string)
    requires LexLeq(a, b) && LexLeq(b, a)
    ensures a == b
  {
    if a != [] && b != [] {
      assert a == [a[0]] + a[1..] && b == [b[0]] + b[1..];
      LexAntisymmetric(a[1..], b[1..]);
    }
  }

  lemma LexTransitive(a: string, b: string, c: string)
    requires LexLeq(a, b) && LexLeq(b, c)
    ensures LexLeq(a, c)
  {
    if a != [] && b != [] && c != [] && a[0] == b[0] == c[0] {
      LexTransitive(a[1..], b[1..], c[1..]);
    }
  }

  lemma LexTotal(a: string, b: string)
    ensures LexLeq(a, b) || LexLeq(b, a)
  {
    if a != [] && b != [] && a[0] == b[0] { LexTotal(a[1..], b[1..]); }
  }

  lemma {:induction false} LexIsTotalOrder()
    ensures TotalOrder(LexLeq)
  {
    forall a, b ensures LexLeq(a, b) || LexLeq(b, a) { LexTotal(a, b); }
    forall a, b | LexLeq(a, b) && LexLeq(b, a) ensures a == b { LexAntisymmetric(a, b); }
    forall a, b, c | LexLeq(a, b) && LexLeq(b, c) ensures LexLeq(a, c) { LexTransitive(a, b, c); }
  }
}
