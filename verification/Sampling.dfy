/** Freezing the human-review sample with its inclusion probabilities (bench/scorer/calibration.py, `freeze_sample`). */
module Sampling {
  import opened Wrappers
  import opened Sequences
  import opened Sorting
  import opened Allocation

  /** A frame row: its candidate id and the values of the stratum fields. */
  datatype Candidate = Candidate(id: string, stratum: Key)

  datatype StratumRecord = StratumRecord(key: Key, populationN: nat, sampledN: nat, probability: real, ids: seq<string>)

  datatype Frozen = Frozen(populationN: nat, sampled: seq<string>, strata: seq<StratumRecord>)

  function Ids(frame: seq<Candidate>): seq<string> {
    seq(|frame|, i requires 0 <= i < |frame| => frame[i].id)
  }

  function Keys(frame: seq<Candidate>): seq<Key> {
    seq(|frame|, i requires 0 <= i < |frame| => frame[i].stratum)
  }

  function InStratum(frame: seq<Candidate>, k: Key): seq<string> {
    if frame == [] then []
    else
      var front, row := frame[..|frame| - 1], frame[|frame| - 1];
      if row.stratum == k then InStratum(front, k) + [row.id] else InStratum(front, k)
  }

  /** `random.Random(...).sample`: some selection of the asked size from the population, without repetition. */
  ghost predicate Samples(draw: (Key, seq<string>, nat) -> seq<string>) {
    forall k, population, n: nat :: Distinct(population) && n <= |population| ==>
      |draw(k, population, n)| == n && Distinct(draw(k, population, n))
          && Elements(draw(k, population, n)) <= Elements(population)
  }

  /** The sample size; every stratum gets at least one. */
  function Target(rows: nat, strata: nat, minimum: int): nat {
    if rows <= minimum then rows
    else
      var wanted := if minimum < strata then strata else minimum;
      if rows < wanted then rows else wanted
  }

  predicate RankLeq(size: Counts, a: Key, b: Key) {
    At(size, a) > At(size, b) || (At(size, a) == At(size, b) && KeyLeq(a, b))
  }

  lemma {:induction false} RankOrder(size: Counts)
    ensures TotalOrder((a: Key, b: Key) => RankLeq(size, a, b))
  {
    KeyOrder();
    hide KeyLeq;
  }

  // ---- What a frozen sample promises ----

  /** The recorded inclusion probability is the sampled share of a nonempty stratum. */
  predicate Included(r: StratumRecord) {
    1 <= r.sampledN <= r.populationN && r.probability == r.sampledN as real / r.populationN as real
  }

  ghost predicate RecordOk(frame: seq<Candidate>, r: StratumRecord) {
    && r.populationN == |InStratum(frame, r.key)|
    && |r.ids| == r.sampledN && Included(r)
    && Distinct(r.ids) && SortedBy(r.ids, LexLeq)
    && Elements(r.ids) <= Elements(InStratum(frame, r.key))
  }

  function RecordIds(rs: seq<StratumRecord>): seq<seq<string>> {
    seq(|rs|, i requires 0 <= i < |rs| => rs[i].ids)
  }

  function RecordKeys(rs: seq<StratumRecord>): seq<Key> {
    seq(|rs|, i requires 0 <= i < |rs| => rs[i].key)
  }

  /** The larger stratum, or the earlier one of the same size, goes first. */
  predicate GoesFirst(rs: seq<StratumRecord>, i: nat, j: nat)
    requires i < |rs| && j < |rs|
  {
    rs[i].populationN > rs[j].populationN || (rs[i].populationN == rs[j].populationN && i < j)
  }

  ghost predicate FairlyAllocated(rs: seq<StratumRecord>) {
    && (forall i, j :: 0 <= i < |rs| && 0 <= j < |rs| && rs[i].sampledN < rs[i].populationN ==>
          rs[j].sampledN <= rs[i].sampledN + 1)
    && (forall i, j :: 0 <= i < |rs| && 0 <= j < |rs| && GoesFirst(rs, i, j) ==> rs[i].sampledN >= rs[j].sampledN)
  }

  /** Everything the frozen sample is relied on for. */
  ghost predicate Representative(frame: seq<Candidate>, minimum: int, frozen: Frozen) {
    && frozen.populationN == |frame|
    && RecordKeys(frozen.strata) == Sort(Dedup(Keys(frame)), KeyLeq)
    && (forall i :: 0 <= i < |frozen.strata| ==> RecordOk(frame, frozen.strata[i]))
    && FairlyAllocated(frozen.strata)
    && SortedBy(frozen.sampled, LexLeq) && multiset(frozen.sampled) == multiset(Flatten(RecordIds(frozen.strata)))
    && |frozen.sampled| == Target(|frame|, |frozen.strata|, minimum)
  }

  // ---- Freezing ----

  /** `keys` lists the strata of the frame, which are the keys of `grouped`, without repetition. */
  ghost predicate KeysListed(frame: seq<Candidate>, grouped: map<Key, seq<string>>, keys: seq<Key>) {
    Distinct(keys) && (forall k :: k in keys <==> k in grouped) && (forall k :: k in keys <==> k in Keys(frame))
  }

  /** `grouped` holds the ids of the rows by stratum. */
  ghost predicate RowsGrouped(frame: seq<Candidate>, grouped: map<Key, seq<string>>) {
    && (forall k :: InStratum(frame, k) == if k in grouped then grouped[k] else [])
    && (forall k :: k in grouped ==> grouped[k] != [])
  }

  ghost predicate Grouped(frame: seq<Candidate>, grouped: map<Key, seq<string>>, keys: seq<Key>) {
    KeysListed(frame, grouped, keys) && RowsGrouped(frame, grouped)
  }

  lemma KeysMore(grouped: map<Key, seq<string>>, keys: seq<Key>, frame: seq<Candidate>, i: nat, own: seq<string>)
    requires i < |frame| && KeysListed(frame[..i], grouped, keys)
    ensures var s := frame[i].stratum;
            KeysListed(frame[..i + 1], grouped[s := own], if s in grouped then keys else keys + [s])
  {
    OneRow(frame, i);
    hide Distinct, Keys, InStratum;
    var s := frame[i].stratum;
    if s !in grouped { DistinctSnoc(keys, s); }
  }

  lemma RowsMore(grouped: map<Key, seq<string>>, frame: seq<Candidate>, i: nat)
    requires i < |frame| && RowsGrouped(frame[..i], grouped)
    ensures var s := frame[i].stratum;
            var own := if s in grouped then grouped[s] else [];
            RowsGrouped(frame[..i + 1], grouped[s := own + [frame[i].id]])
  {
    OneRow(frame, i);
    hide InStratum, Keys;
  }

  lemma GroupMore(grouped: map<Key, seq<string>>, keys: seq<Key>, frame: seq<Candidate>, i: nat)
    requires i < |frame| && Grouped(frame[..i], grouped, keys)
    ensures var s := frame[i].stratum;
            var own := if s in grouped then grouped[s] else [];
            Grouped(frame[..i + 1], grouped[s := own + [frame[i].id]], if s in grouped then keys else keys + [s])
  {
    hide KeysListed, RowsGrouped;
    var s := frame[i].stratum;
    KeysMore(grouped, keys, frame, i, (if s in grouped then grouped[s] else []) + [frame[i].id]);
    RowsMore(grouped, frame, i);
  }

  /** `grouped`; `keys` lists its keys in insertion order. */
  method GroupByStratum(frame: seq<Candidate>) returns (grouped: map<Key, seq<string>>, keys: seq<Key>)
    ensures Grouped(frame, grouped, keys)
  {
    hide Grouped;
    grouped, keys := map[], [];
    NoRows(frame);
    for i := 0 to |frame|
      invariant Grouped(frame[..i], grouped, keys)
    {
      var row := frame[i];
      GroupMore(grouped, keys, frame, i);
      ghost var before := grouped;
      if row.stratum !in grouped {
        grouped := grouped[row.stratum := []];
        keys := keys + [row.stratum];
      }
      grouped := grouped[row.stratum := grouped[row.stratum] + [row.id]];
      assert grouped == before[row.stratum := (if row.stratum in before then before[row.stratum] else []) + [row.id]];
    }
    assert frame[..|frame|] == frame;
  }

  lemma NoRows(frame: seq<Candidate>)
    ensures Grouped(frame[..0], map[], [])
  {
  }

  lemma OneRow(frame: seq<Candidate>, i: nat)
    requires i < |frame|
    ensures forall k :: InStratum(frame[..i + 1], k)
                        == if frame[i].stratum == k then InStratum(frame[..i], k) + [frame[i].id]
                            else InStratum(frame[..i], k)
    ensures Keys(frame[..i + 1]) == Keys(frame[..i]) + [frame[i].stratum]
  {
    assert frame[..i + 1][..i] == frame[..i] && frame[..i + 1][i] == frame[i];
  }

  /** The strata partition the frame. */
  lemma {:induction false} SizesTotal(frame: seq<Candidate>, keys: seq<Key>, size: Counts)
    requires Distinct(keys) && forall i :: 0 <= i < |frame| ==> frame[i].stratum in keys
    requires forall k :: k in keys ==> At(size, k) == |InStratum(frame, k)|
    ensures SumAt(keys, size) == |frame|
  {
    if frame == [] {
      AllZero(keys, size);
    } else {
      var n := |frame| - 1;
      var k := frame[n].stratum;
      var before := size[k := |InStratum(frame[..n], k)|];
      SizesTotal(frame[..n], keys, before);
      SumIncrement(keys, before, k, At(size, k));
      SamePoints(keys, before[k := At(size, k)], size);
    }
  }

  lemma AllZero(keys: seq<Key>, size: Counts)
    requires forall i :: 0 <= i < |keys| ==> At(size, keys[i]) == 0
    ensures SumAt(keys, size) == 0
  {
    if keys != [] { AllZero(keys[..|keys| - 1], size); }
  }

  lemma SamePoints(keys: seq<Key>, a: Counts, b: Counts)
    requires forall i :: 0 <= i < |keys| ==> At(a, keys[i]) == At(b, keys[i])
    ensures SumAt(keys, a) == SumAt(keys, b)
  {
    SumPointwise(keys, a, b);
    SumPointwise(keys, b, a);
  }

  /** The sum over the keys does not depend on their order. */
  lemma {:induction false} SumPermutes(xs: seq<Key>, ys: seq<Key>, m: Counts)
    requires multiset(xs) == multiset(ys)
    ensures SumAt(xs, m) == SumAt(ys, m)
    decreases |xs|
  {
    assert |multiset(xs)| == |multiset(ys)|;
    if xs != [] {
      var n, last := |xs| - 1, xs[|xs| - 1];
      assert last in multiset(ys);
      var j :| 0 <= j < |ys| && ys[j] == last;
      var rest := ys[..j] + ys[j + 1..];
      MultisetRemove(xs, n);
      MultisetRemove(ys, j);
      assert xs[..n] + xs[n + 1..] == xs[..n];
      SumPermutes(xs[..n], rest, m);
      SumRemove(ys, j, m);
    }
  }

  lemma SumRemove(ys: seq<Key>, j: nat, m: Counts)
    requires j < |ys|
    ensures SumAt(ys, m) == SumAt(ys[..j] + ys[j + 1..], m) + At(m, ys[j])
  {
    var n := |ys| - 1;
    var rest := ys[..j] + ys[j + 1..];
    if j == n {
      assert rest == ys[..n];
    } else {
      SumRemove(ys[..n], j, m);
      assert rest[..|rest| - 1] == ys[..n][..j] + ys[..n][j + 1..] && rest[|rest| - 1] == ys[n];
    }
  }

  /** One stratum's record. */
  method DrawStratum(key: Key, ids: seq<string>, n: nat, draw: (Key, seq<string>, nat) -> seq<string>)
      returns (r: StratumRecord)
    requires Samples(draw) && Distinct(ids) && 1 <= n <= |ids|
    ensures r.key == key && r.populationN == |ids| && r.sampledN == n == |r.ids| && Included(r)
    ensures Distinct(r.ids) && SortedBy(r.ids, LexLeq) && Elements(r.ids) <= Elements(ids)
  {
    hide LexLeq;
    LexIsTotalOrder();
    var population := Sort(ids, LexLeq);
    SortElements(ids, LexLeq);
    SortCorrect(ids, LexLeq);
    var chosen := draw(key, population, n);
    SortElements(chosen, LexLeq);
    SortCorrect(chosen, LexLeq);
    forall x | x in Sort(chosen, LexLeq) ensures x in Elements(ids) {
      assert x in chosen;
      assert x in Elements(chosen);
      assert x in Elements(population);
    }
    r := StratumRecord(key, |population|, |chosen|, |chosen| as real / |population| as real, Sort(chosen, LexLeq));
  }

  /** The last loop: a record for every stratum in key order. */
  method DrawAll(frame: seq<Candidate>, ordered: seq<Key>, grouped: map<Key, seq<string>>, alloc: Counts,
                 draw: (Key, seq<string>, nat) -> seq<string>)
      returns (selected: seq<string>, strata: seq<StratumRecord>)
    requires Samples(draw) && Distinct(Ids(frame))
    requires forall k :: k in ordered ==>
               k in grouped && grouped[k] == InStratum(frame, k) && 1 <= At(alloc, k) <= |grouped[k]|
    ensures RecordKeys(strata) == ordered && (forall i :: 0 <= i < |strata| ==> RecordOk(frame, strata[i]))
    ensures forall i :: 0 <= i < |strata| ==> strata[i].sampledN == At(alloc, strata[i].key)
    ensures selected == Flatten(RecordIds(strata)) && |selected| == SumAt(ordered, alloc)
  {
    hide Samples, LexLeq, Distinct, Flatten;
    selected, strata := [], [];
    EmptyFlatten();
    assert ordered[..0] == [];
    for i := 0 to |ordered|
      invariant RecordKeys(strata) == ordered[..i] && forall k :: 0 <= k < |strata| ==> RecordOk(frame, strata[k])
      invariant forall k :: 0 <= k < |strata| ==> strata[k].sampledN == At(alloc, strata[k].key)
      invariant selected == Flatten(RecordIds(strata)) && |selected| == SumAt(ordered[..i], alloc)
    {
      var key := ordered[i];
      StratumIdsDistinct(frame, key);
      var r := DrawStratum(key, grouped[key], At(alloc, key), draw);
      FlattenSnoc(RecordIds(strata), r.ids);
      assert RecordIds(strata + [r]) == RecordIds(strata) + [r.ids];
      assert RecordKeys(strata + [r]) == RecordKeys(strata) + [key];
      assert ordered[..i + 1][..i] == ordered[..i] && ordered[..i + 1][i] == key;
      selected := selected + r.ids;
      strata := strata + [r];
    }
    assert ordered[..|ordered|] == ordered;
  }

  lemma EmptyFlatten()
    ensures Flatten(RecordIds([])) == [] && RecordIds([]) == []
  {
  }

  lemma StratumIdsAreIds(frame: seq<Candidate>, k: Key)
    ensures forall x :: x in InStratum(frame, k) ==> x in Ids(frame)
  {
    if frame != [] {
      var n := |frame| - 1;
      StratumIdsAreIds(frame[..n], k);
      assert Ids(frame) == Ids(frame[..n]) + [frame[n].id];
    }
  }

  lemma StratumIdsDistinct(frame: seq<Candidate>, k: Key)
    requires Distinct(Ids(frame))
    ensures Distinct(InStratum(frame, k))
  {
    if frame != [] {
      var n := |frame| - 1;
      assert Ids(frame) == Ids(frame[..n]) + [frame[n].id];
      assert forall i :: 0 <= i < n ==> Ids(frame[..n])[i] == Ids(frame)[i];
      StratumIdsDistinct(frame[..n], k);
      StratumIdsAreIds(frame[..n], k);
      assert Ids(frame)[n] !in Ids(frame[..n]);
    }
  }

  ghost predicate FairCounts(alloc: Counts, size: Counts, keys: seq<Key>) {
    && (forall k :: k in keys ==> 1 <= At(alloc, k) <= At(size, k))
    && (forall k, m :: k in keys && m in keys && At(alloc, k) < At(size, k) ==> At(alloc, m) <= At(alloc, k) + 1)
    && (forall k, m :: k in keys && m in keys && k != m && RankLeq(size, k, m) ==> At(alloc, k) >= At(alloc, m))
  }

  function Sizes(grouped: map<Key, seq<string>>): Counts {
    map k | k in grouped :: |grouped[k]|
  }

  /** Ranking by size, then the round robin. */
  method AllocateStrata(frame: seq<Candidate>, grouped: map<Key, seq<string>>, keys: seq<Key>, minimum: int)
      returns (alloc: Counts)
    requires Grouped(frame, grouped, keys)
    ensures FairCounts(alloc, Sizes(grouped), keys) && SumAt(keys, alloc) == Target(|frame|, |keys|, minimum)
  {
    hide LexLeq, KeyLeq, InStratum, SumAt, Filled, RankLeq, FairCounts, Distinct;
    var size := Sizes(grouped);
    Totals(frame, grouped, keys);
    KeyCount(frame, keys);
    var target := Target(|frame|, |keys|, minimum);
    var rank := (a: Key, b: Key) => RankLeq(size, a, b);
    var ranked := Sort(keys, rank);
    Ranked(keys, ranked, rank, size);
    alloc := Allocate(ranked, size, target);
    ghost var level: nat, j: nat :| level >= 1 && j <= |ranked| && Filled(alloc, ranked, size, level, j);
    Fair(alloc, ranked, size, level, j, rank, keys);
    SumPermutes(keys, ranked, alloc);
  }

  lemma Totals(frame: seq<Candidate>, grouped: map<Key, seq<string>>, keys: seq<Key>)
    requires Grouped(frame, grouped, keys)
    ensures SumAt(keys, Sizes(grouped)) == |frame|
    ensures forall k :: k in keys ==> At(Sizes(grouped), k) == |grouped[k]| >= 1
  {
    hide InStratum, SumAt, Distinct;
    forall i | 0 <= i < |frame| ensures frame[i].stratum in keys { assert Keys(frame)[i] in Keys(frame); }
    SizesTotal(frame, keys, Sizes(grouped));
  }

  lemma Fair(alloc: Counts, ranked: seq<Key>, size: Counts, level: nat, j: nat, rank: (Key, Key) -> bool,
             keys: seq<Key>)
    requires Filled(alloc, ranked, size, level, j) && level >= 1 && (forall k :: k in ranked ==> At(size, k) >= 1)
    requires rank == ((a: Key, b: Key) => RankLeq(size, a, b)) && SortedBy(ranked, rank)
    requires forall k :: k in keys <==> k in ranked
    ensures FairCounts(alloc, size, keys)
  {
    FilledIsBalanced(alloc, ranked, size, level, j);
    RankOrder(size);
    hide Filled, KeyLeq;
    forall k, m | k in keys && m in keys && k != m && RankLeq(size, k, m) ensures At(alloc, k) >= At(alloc, m) {
      var a :| 0 <= a < |ranked| && ranked[a] == k;
      var b :| 0 <= b < |ranked| && ranked[b] == m;
      assert b < a ==> rank(m, k);
      if a < b {
        LargerStrataGetNoLess(alloc, ranked, size, level, j, a, b);
      }
    }
  }

  /** `freeze_sample`. */
  method FreezeSample(frame: seq<Candidate>, minimum: int, draw: (Key, seq<string>, nat) -> seq<string>)
      returns (r: Result<Frozen>)
    requires Samples(draw)
    ensures r.Success? <==> "" !in Ids(frame) && Distinct(Ids(frame))
    ensures r.Success? ==> Representative(frame, minimum, r.value)
  {
    hide Samples, LexLeq, KeyLeq, InStratum, SumAt, FairlyAllocated, FairCounts, RecordOk, Representative, Distinct;
    var ids := Ids(frame);
    if "" in ids || |Elements(ids)| != |ids| {
      CountDistinct(ids);
      return Failure("frame candidate_id values must be unique and nonempty");
    }
    CountDistinct(ids);
    var grouped, keys := GroupByStratum(frame);
    var alloc := AllocateStrata(frame, grouped, keys, minimum);
    var ordered := Sort(keys, KeyLeq);
    Ordered(frame, keys, ordered);
    Totals(frame, grouped, keys);
    assert forall k :: k in ordered ==> 1 <= At(alloc, k) <= |grouped[k]| by { Within(alloc, Sizes(grouped), keys); }
    var selected, strata := DrawAll(frame, ordered, grouped, alloc, draw);
    SumPermutes(ordered, keys, alloc);
    r := Success(Frozen(|frame|, Sort(selected, LexLeq), strata));
    Assembled(frame, minimum, grouped, keys, ordered, alloc, selected, r.value);
  }

  lemma Within(alloc: Counts, size: Counts, keys: seq<Key>)
    requires FairCounts(alloc, size, keys)
    ensures forall k :: k in keys ==> 1 <= At(alloc, k) <= At(size, k)
  {
  }

  lemma Assembled(frame: seq<Candidate>, minimum: int, grouped: map<Key, seq<string>>, keys: seq<Key>,
                  ordered: seq<Key>, alloc: Counts, selected: seq<string>, frozen: Frozen)
    requires Grouped(frame, grouped, keys) && FairCounts(alloc, Sizes(grouped), keys)
    requires ordered == Sort(Dedup(Keys(frame)), KeyLeq) && multiset(ordered) == multiset(keys)
             && (forall k :: k in ordered <==> k in keys)
    requires RecordKeys(frozen.strata) == ordered
    requires forall i :: 0 <= i < |frozen.strata| ==>
               RecordOk(frame, frozen.strata[i]) && frozen.strata[i].sampledN == At(alloc, frozen.strata[i].key)
    requires selected == Flatten(RecordIds(frozen.strata)) && |selected| == Target(|frame|, |keys|, minimum)
    requires frozen.populationN == |frame| && frozen.sampled == Sort(selected, LexLeq)
    ensures Representative(frame, minimum, frozen)
  {
    hide LexLeq, KeyLeq, InStratum, Flatten, Distinct, FairCounts, FairlyAllocated, Sizes, SortedBy, Dedup, Sort;
    LexIsTotalOrder();
    SortCorrect(selected, LexLeq);
    assert |frozen.sampled| == |selected|;
    assert |multiset(ordered)| == |ordered| && |multiset(keys)| == |keys|;
    forall i | 0 <= i < |frozen.strata|
      ensures frozen.strata[i].key in keys && frozen.strata[i].populationN == At(Sizes(grouped), frozen.strata[i].key)
    {
      assert ordered[i] == frozen.strata[i].key;
      assert ordered[i] in ordered;
      assert At(Sizes(grouped), frozen.strata[i].key)
             == |grouped[frozen.strata[i].key]| by { Totals(frame, grouped, keys); }
    }
    StrataAreSorted(frozen.strata, frame);
    RecordsFair(frozen.strata, alloc, Sizes(grouped), keys);
  }

  lemma StrataAreSorted(strata: seq<StratumRecord>, frame: seq<Candidate>)
    requires RecordKeys(strata) == Sort(Dedup(Keys(frame)), KeyLeq)
    ensures forall i, j :: 0 <= i < j < |strata| ==>
              KeyLeq(strata[i].key, strata[j].key) && strata[i].key != strata[j].key
  {
    var keys, ordered := Dedup(Keys(frame)), RecordKeys(strata);
    KeyOrder();
    DedupCorrect(Keys(frame));
    hide KeyLeq;
    SortCorrect(keys, KeyLeq);
    DistinctMultiset(keys);
    MultisetDistinct(ordered);
    forall i, j | 0 <= i < j < |strata|
      ensures KeyLeq(strata[i].key, strata[j].key) && strata[i].key != strata[j].key
    {
      assert ordered[i] == strata[i].key && ordered[j] == strata[j].key;
    }
  }

  lemma RecordsFair(strata: seq<StratumRecord>, alloc: Counts, size: Counts, keys: seq<Key>)
    requires FairCounts(alloc, size, keys)
    requires forall i :: 0 <= i < |strata| ==>
               strata[i].key in keys && strata[i].sampledN == At(alloc, strata[i].key)
                   && strata[i].populationN == At(size, strata[i].key)
    requires forall i, j :: 0 <= i < j < |strata| ==>
               KeyLeq(strata[i].key, strata[j].key) && strata[i].key != strata[j].key
    ensures FairlyAllocated(strata)
  {
    hide At, KeyLeq;
    forall i, j | 0 <= i < |strata| && 0 <= j < |strata| && GoesFirst(strata, i, j)
      ensures strata[i].sampledN >= strata[j].sampledN
    {
      assert RankLeq(size, strata[i].key, strata[j].key);
    }
  }

  /** There are no more strata than rows. */
  lemma KeyCount(frame: seq<Candidate>, keys: seq<Key>)
    requires Distinct(keys) && forall k :: k in keys ==> k in Keys(frame)
    ensures |keys| <= |frame|
  {
    DistinctCount(keys);
    CountDistinct(Keys(frame));
    SubsetSize(Elements(keys), Elements(Keys(frame)));
  }

  lemma SubsetSize<T>(a: set<T>, b: set<T>)
    requires a <= b
    ensures |a| <= |b|
  {
    assert b == a + (b - a);
  }

  lemma {:induction false} Ranked(keys: seq<Key>, ranked: seq<Key>, rank: (Key, Key) -> bool, size: Counts)
    requires Distinct(keys) && rank == ((a: Key, b: Key) => RankLeq(size, a, b)) && ranked == Sort(keys, rank)
    ensures Distinct(ranked) && multiset(ranked) == multiset(keys) && |ranked| == |keys| && SortedBy(ranked, rank)
    ensures forall k :: k in ranked <==> k in keys
    ensures SumAt(ranked, size) == SumAt(keys, size)
  {
    RankOrder(size);
    hide RankLeq;
    SortCorrect(keys, rank);
    SortElements(keys, rank);
    SumPermutes(ranked, keys, size);
  }

  lemma {:induction false} Ordered(frame: seq<Candidate>, keys: seq<Key>, ordered: seq<Key>)
    requires Distinct(keys) && ordered == Sort(keys, KeyLeq) && forall k :: k in keys <==> k in Keys(frame)
    ensures ordered == Sort(Dedup(Keys(frame)), KeyLeq)
    ensures multiset(ordered) == multiset(keys) && forall k :: k in ordered <==> k in keys
  {
    KeyOrder();
    hide KeyLeq;
    SortCorrect(keys, KeyLeq);
    SortElements(keys, KeyLeq);
    var unique := Dedup(Keys(frame));
    DedupCorrect(Keys(frame));
    SameElementsSameMultiset(keys, unique);
    SortIsThe(unique, ordered, KeyLeq);
  }

  // ---- Inverse inclusion probabilities ----

  /** One over the stratum's inclusion probability. */
  function Weight(r: StratumRecord): real
    requires r.probability > 0.0
  {
    1.0 / r.probability
  }

  function TotalWeight(rs: seq<StratumRecord>): real
    requires forall i :: 0 <= i < |rs| ==> rs[i].probability > 0.0
  {
    if rs == [] then 0.0
    else TotalWeight(rs[..|rs| - 1]) + rs[|rs| - 1].sampledN as real * Weight(rs[|rs| - 1])
  }

  lemma StratumWeight(s: real, p: real)
    requires s > 0.0 && p > 0.0
    ensures s * (1.0 / (s / p)) == p
  {
    var q := s / p;
    assert q * p == s;
    assert q > 0.0;
    var w := 1.0 / q;
    assert w * q == 1.0;
    calc {
      s * w;
      (q * p) * w;
      (w * q) * p;
      p;
    }
  }

  lemma IncludedWeight(r: StratumRecord)
    requires Included(r)
    ensures 0.0 < r.probability <= 1.0 && r.sampledN as real * Weight(r) == r.populationN as real
  {
    StratumWeight(r.sampledN as real, r.populationN as real);
    ShareIsAtMostOne(r.sampledN as real, r.populationN as real);
  }

  lemma ShareIsAtMostOne(s: real, p: real)
    requires 0.0 < s <= p
    ensures 0.0 < s / p <= 1.0
  {
    var q := s / p;
    assert q * p == s;
    assert (q - 1.0) * p == s - p;
  }

  lemma {:induction false} WeightsAreSizes(rs: seq<StratumRecord>, size: Counts)
    requires forall i :: 0 <= i < |rs| ==>
               rs[i].probability > 0.0 && Included(rs[i]) && rs[i].populationN == At(size, rs[i].key)
    ensures TotalWeight(rs) == SumAt(RecordKeys(rs), size) as real
  {
    hide Included, Weight;
    if rs != [] {
      var n := |rs| - 1;
      WeightsAreSizes(rs[..n], size);
      assert RecordKeys(rs)[..n] == RecordKeys(rs[..n]);
      IncludedWeight(rs[n]);
    }
  }

  /** The sampled inverse inclusion probabilities add up to the population, per stratum and overall. */
  lemma InverseProbabilitiesRestoreThePopulation(frame: seq<Candidate>, minimum: int, frozen: Frozen)
    requires Representative(frame, minimum, frozen)
    ensures forall i :: 0 <= i < |frozen.strata| ==>
              var r := frozen.strata[i];
              0.0 < r.probability <= 1.0 && r.sampledN as real * Weight(r) == r.populationN as real
    ensures TotalWeight(frozen.strata) == |frame| as real
  {
    hide LexLeq, KeyLeq, InStratum, FairlyAllocated, Included, Weight;
    var keys := RecordKeys(frozen.strata);
    forall i | 0 <= i < |frozen.strata|
      ensures var r := frozen.strata[i];
              0.0 < r.probability <= 1.0 && Included(r) && r.sampledN as real * Weight(r) == r.populationN as real
    {
      assert RecordOk(frame, frozen.strata[i]);
      IncludedWeight(frozen.strata[i]);
    }
    var size: Counts := map k | k in keys :: |InStratum(frame, k)|;
    forall i | 0 <= i < |frozen.strata| ensures frozen.strata[i].populationN == At(size, frozen.strata[i].key) {
      assert RecordOk(frame, frozen.strata[i]);
      assert keys[i] in keys;
    }
    WeightsAreSizes(frozen.strata, size);
    DedupCorrect(Keys(frame));
    KeyOrder();
    SortElements(Dedup(Keys(frame)), KeyLeq);
    forall i | 0 <= i < |frame| ensures frame[i].stratum in keys { assert Keys(frame)[i] in Keys(frame); }
    SizesTotal(frame, keys, size);
  }

  // ---- The sample size ----

  function SampledTotal(rs: seq<StratumRecord>): nat {
    if rs == [] then 0 else SampledTotal(rs[..|rs| - 1]) + rs[|rs| - 1].sampledN
  }

  function PopulationTotal(rs: seq<StratumRecord>): nat {
    if rs == [] then 0 else PopulationTotal(rs[..|rs| - 1]) + rs[|rs| - 1].populationN
  }

  lemma {:induction false} FlatSampled(rs: seq<StratumRecord>)
    requires forall i :: 0 <= i < |rs| ==> |rs[i].ids| == rs[i].sampledN
    ensures |Flatten(RecordIds(rs))| == SampledTotal(rs)
  {
    if rs == [] {
      assert RecordIds(rs) == [];
    } else {
      var n := |rs| - 1;
      FlatSampled(rs[..n]);
      assert RecordIds(rs) == RecordIds(rs[..n]) + [rs[n].ids];
      FlattenSnoc(RecordIds(rs[..n]), rs[n].ids);
    }
  }

  lemma {:induction false} WeightIsPopulation(rs: seq<StratumRecord>)
    requires forall i :: 0 <= i < |rs| ==> rs[i].probability > 0.0 && Included(rs[i])
    ensures TotalWeight(rs) == PopulationTotal(rs) as real
  {
    hide Included, Weight;
    if rs != [] {
      WeightIsPopulation(rs[..|rs| - 1]);
      IncludedWeight(rs[|rs| - 1]);
    }
  }

  /** Sampled and population totals against the strata one by one. */
  lemma {:induction false} TotalsCompare(rs: seq<StratumRecord>)
    requires forall i :: 0 <= i < |rs| ==> 1 <= rs[i].sampledN <= rs[i].populationN
    ensures |rs| <= SampledTotal(rs) <= PopulationTotal(rs)
    ensures SampledTotal(rs) == PopulationTotal(rs) <==>
              forall i :: 0 <= i < |rs| ==> rs[i].sampledN == rs[i].populationN
    ensures SampledTotal(rs) == |rs| <==> forall i :: 0 <= i < |rs| ==> rs[i].sampledN == 1
  {
    if rs != [] {
      var n := |rs| - 1;
      TotalsCompare(rs[..n]);
      forall i | 0 <= i < n ensures rs[..n][i] == rs[i] {}
    }
  }

  lemma FullSubset<T>(a: set<T>, b: set<T>)
    requires a <= b && |a| >= |b|
    ensures a == b
  {
    assert b == a + (b - a) && |b| == |a| + |b - a|;
  }

  lemma RepresentativeTotals(frame: seq<Candidate>, minimum: int, frozen: Frozen)
    requires Representative(frame, minimum, frozen)
    ensures forall i :: 0 <= i < |frozen.strata| ==> RecordOk(frame, frozen.strata[i])
    ensures SampledTotal(frozen.strata) == |frozen.sampled| == Target(|frame|, |frozen.strata|, minimum)
    ensures PopulationTotal(frozen.strata) == |frame|
  {
    InverseProbabilitiesRestoreThePopulation(frame, minimum, frozen);
    hide LexLeq, KeyLeq, InStratum, FairlyAllocated, Included, Weight, Target;
    forall i | 0 <= i < |frozen.strata| ensures |frozen.strata[i].ids| == frozen.strata[i].sampledN
      ensures Included(frozen.strata[i])
    {
      assert RecordOk(frame, frozen.strata[i]);
    }
    WeightIsPopulation(frozen.strata);
    FlatSampled(frozen.strata);
    assert |multiset(frozen.sampled)| == |multiset(Flatten(RecordIds(frozen.strata)))|;
  }

  /**
   A frame of at most the minimum is sampled whole. From a larger one at least the minimum is sampled, and more than
   it only when that is what it takes to give each stratum its one.
   */
  lemma {:induction false} SampleSizeIs(frame: seq<Candidate>, minimum: int, frozen: Frozen)
    requires Representative(frame, minimum, frozen)
    ensures |frame| <= minimum ==>
              |frozen.sampled| == |frame|
              && forall i :: 0 <= i < |frozen.strata| ==>
                   Elements(frozen.strata[i].ids) == Elements(InStratum(frame, frozen.strata[i].key))
    ensures |frame| > minimum ==>
              |frozen.sampled| >= minimum
              && (|frozen.sampled| > minimum ==>
                    forall i :: 0 <= i < |frozen.strata| ==> frozen.strata[i].sampledN == 1)
  {
    RepresentativeTotals(frame, minimum, frozen);
    hide LexLeq, KeyLeq, FairlyAllocated, Representative, InStratum;
    forall i | 0 <= i < |frozen.strata| ensures 1 <= frozen.strata[i].sampledN <= frozen.strata[i].populationN {
      assert RecordOk(frame, frozen.strata[i]);
    }
    TotalsCompare(frozen.strata);
    if |frame| <= minimum {
      forall i | 0 <= i < |frozen.strata|
        ensures Elements(frozen.strata[i].ids) == Elements(InStratum(frame, frozen.strata[i].key))
      {
        WholeStratum(frame, frozen.strata[i]);
      }
    }
  }

  lemma WholeStratum(frame: seq<Candidate>, r: StratumRecord)
    requires RecordOk(frame, r) && r.sampledN == r.populationN
    ensures Elements(r.ids) == Elements(InStratum(frame, r.key))
  {
    DistinctCount(r.ids);
    CountDistinct(InStratum(frame, r.key));
    FullSubset(Elements(r.ids), Elements(InStratum(frame, r.key)));
  }

  // ---- The allocation follows from the frame ----

  lemma {:induction false} TotalsDiffer(a: seq<StratumRecord>, b: seq<StratumRecord>)
    requires |a| == |b| && forall i :: 0 <= i < |a| ==> a[i].sampledN <= b[i].sampledN
    ensures SampledTotal(a) <= SampledTotal(b)
    ensures SampledTotal(a) == SampledTotal(b) ==> forall i :: 0 <= i < |a| ==> a[i].sampledN == b[i].sampledN
  {
    if a != [] {
      var n := |a| - 1;
      TotalsDiffer(a[..n], b[..n]);
      forall i | 0 <= i < n && SampledTotal(a) == SampledTotal(b) ensures a[i].sampledN == b[i].sampledN {
        assert a[..n][i] == a[i] && b[..n][i] == b[i];
      }
    }
  }

  lemma NoTrade(a: seq<StratumRecord>, b: seq<StratumRecord>, i: nat, j: nat)
    requires i < |a| == |b| && j < |a| && FairlyAllocated(a) && FairlyAllocated(b)
    requires forall k :: 0 <= k < |a| ==> a[k].populationN == b[k].populationN
                                          && a[k].sampledN <= a[k].populationN && b[k].sampledN <= b[k].populationN
    ensures !(a[i].sampledN < b[i].sampledN && a[j].sampledN > b[j].sampledN)
  {
    assert i != j ==> GoesFirst(a, i, j) || GoesFirst(a, j, i);
    assert GoesFirst(a, i, j) == GoesFirst(b, i, j) && GoesFirst(a, j, i) == GoesFirst(b, j, i);
  }

  /** Two samples of one frame differ in what was drawn alone: each stratum contributes equally many. */
  lemma AllocationIsDetermined(frame: seq<Candidate>, minimum: int, a: Frozen, b: Frozen)
    requires Representative(frame, minimum, a) && Representative(frame, minimum, b)
    ensures |a.strata| == |b.strata| && |a.sampled| == |b.sampled|
    ensures forall i :: 0 <= i < |a.strata| ==>
              a.strata[i].key == b.strata[i].key && a.strata[i].populationN == b.strata[i].populationN
              && a.strata[i].sampledN == b.strata[i].sampledN
  {
    RepresentativeTotals(frame, minimum, a);
    RepresentativeTotals(frame, minimum, b);
    assert |RecordKeys(a.strata)| == |a.strata| && |RecordKeys(b.strata)| == |b.strata|;
    hide InStratum, LexLeq, KeyLeq, Target, FairlyAllocated;
    forall k | 0 <= k < |a.strata|
      ensures a.strata[k].key == b.strata[k].key && a.strata[k].populationN == b.strata[k].populationN
      ensures a.strata[k].sampledN <= a.strata[k].populationN && b.strata[k].sampledN <= b.strata[k].populationN
    {
      assert RecordKeys(a.strata)[k] == RecordKeys(b.strata)[k];
      assert RecordOk(frame, a.strata[k]) && RecordOk(frame, b.strata[k]);
    }
    assert FairlyAllocated(a.strata) && FairlyAllocated(b.strata);
    hide Representative, RecordOk;
    forall i, j | 0 <= i < |a.strata| && 0 <= j < |a.strata|
      ensures !(a.strata[i].sampledN < b.strata[i].sampledN && a.strata[j].sampledN > b.strata[j].sampledN)
    {
      NoTrade(a.strata, b.strata, i, j);
    }
    if forall i :: 0 <= i < |a.strata| ==> a.strata[i].sampledN <= b.strata[i].sampledN {
      TotalsDiffer(a.strata, b.strata);
    } else {
      TotalsDiffer(b.strata, a.strata);
    }
  }
}
