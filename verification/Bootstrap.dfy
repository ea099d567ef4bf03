/** The two cluster bootstraps of bench/scorer/calibration.py; `choose` stands for the seeded generator. */
module Bootstrap {
  import opened Sequences
  import opened Sorting
  import opened Allocation
  import opened Rates

  /** A reviewed row with its stratum, its arm and its case/repository cluster. */
  datatype Row = Row(stratum: Key, arm: string, cluster: Key, rated: Rated)

  datatype Summary = NoInterval(clusters: nat) | WithInterval(interval: Interval, clusters: nat)

  function Eligible(rows: seq<Row>): seq<Row> {
    if rows == [] then []
    else
      var front, row := rows[..|rows| - 1], rows[|rows| - 1];
      if row.rated.probability > 0.0 then Eligible(front) + [row] else Eligible(front)
  }

  function StrataOf(rows: seq<Row>): seq<Key> {
    seq(|rows|, i requires 0 <= i < |rows| => rows[i].stratum)
  }

  function ClustersIn(rows: seq<Row>, s: Key): seq<Key> {
    if rows == [] then []
    else
      var front, row := rows[..|rows| - 1], rows[|rows| - 1];
      if row.stratum == s then ClustersIn(front, s) + [row.cluster] else ClustersIn(front, s)
  }

  function RowsAt(rows: seq<Row>, s: Key, c: Key): seq<Rated> {
    if rows == [] then []
    else
      var front, row := rows[..|rows| - 1], rows[|rows| - 1];
      if row.stratum == s && row.cluster == c then RowsAt(front, s, c) + [row.rated] else RowsAt(front, s, c)
  }

  function AllClusters(rows: seq<Row>): set<Key> {
    set i | 0 <= i < |rows| :: rows[i].cluster
  }

  function SortedStrata(rows: seq<Row>): seq<Key> {
    Sort(Dedup(StrataOf(rows)), KeyLeq)
  }

  function Universe(rows: seq<Row>, s: Key): seq<Key> {
    Sort(Dedup(ClustersIn(rows, s)), KeyLeq)
  }

  /** The generator picks some member of the universe. */
  ghost predicate Chooses(choose: (nat, seq<Key>, nat) -> Key) {
    forall replicate, universe, i :: universe != [] ==> choose(replicate, universe, i) in universe
  }

  function Draw(replicate: nat, universe: seq<Key>, choose: (nat, seq<Key>, nat) -> Key): seq<Key> {
    seq(|universe|, i requires 0 <= i < |universe| => choose(replicate, universe, i))
  }

  /** The rows of the drawn clusters of one stratum, repeated as often as drawn. */
  function Resample(rows: seq<Row>, s: Key, draw: seq<Key>): seq<Rated> {
    if draw == [] then [] else Resample(rows, s, draw[..|draw| - 1]) + RowsAt(rows, s, draw[|draw| - 1])
  }

  function Replicate(rows: seq<Row>, strata: seq<Key>, replicate: nat,
                     choose: (nat, seq<Key>, nat) -> Key): seq<Rated> {
    if strata == [] then []
    else
      var s := strata[|strata| - 1];
      Replicate(rows, strata[..|strata| - 1], replicate, choose) + Resample(rows, s,
          Draw(replicate, Universe(rows, s), choose))
  }

  /** A bound of a rate, where it is defined. */
  function BoundOf(sampled: seq<Rated>, positive: string, optimistic: bool): real {
    if TotalWeight(sampled) != 0.0 then Bound(sampled, positive, optimistic) else 0.0
  }

  function BootstrapBounds(rows: seq<Row>, positive: string, optimistic: bool, repetitions: nat,
                           choose: (nat, seq<Key>, nat) -> Key): seq<real>
  {
    seq(repetitions, i requires 0 <= i < repetitions =>
      BoundOf(Replicate(rows, SortedStrata(rows), i, choose), positive, optimistic))
  }

  // ---- Every replicate has positive weight ----

  ghost predicate Positive(sampled: seq<Rated>) {
    forall i :: 0 <= i < |sampled| ==> sampled[i].probability > 0.0
  }

  lemma {:induction false} EligibleRows(rows: seq<Row>)
    ensures forall i :: 0 <= i < |Eligible(rows)| ==> Eligible(rows)[i].rated.probability > 0.0
    ensures forall row :: row in Eligible(rows) <==> row in rows && row.rated.probability > 0.0
  {
    if rows != [] {
      EligibleRows(rows[..|rows| - 1]);
      assert rows == rows[..|rows| - 1] + [rows[|rows| - 1]];
    }
  }

  lemma {:induction false} RowsAtPositive(rows: seq<Row>, s: Key, c: Key)
    requires forall i :: 0 <= i < |rows| ==> rows[i].rated.probability > 0.0
    ensures Positive(RowsAt(rows, s, c))
  {
    if rows != [] { RowsAtPositive(rows[..|rows| - 1], s, c); }
  }

  lemma {:induction false} ClusterHasRows(rows: seq<Row>, s: Key, c: Key)
    requires c in ClustersIn(rows, s)
    ensures RowsAt(rows, s, c) != []
  {
    var front, row := rows[..|rows| - 1], rows[|rows| - 1];
    if !(row.stratum == s && row.cluster == c) { ClusterHasRows(front, s, c); }
  }

  lemma {:induction false} StratumHasClusters(rows: seq<Row>, s: Key)
    requires s in StrataOf(rows)
    ensures ClustersIn(rows, s) != []
  {
    var n := |rows| - 1;
    if rows[n].stratum != s {
      var i :| 0 <= i < |rows| && StrataOf(rows)[i] == s;
      assert StrataOf(rows[..n])[i] == s;
      StratumHasClusters(rows[..n], s);
    }
  }

  lemma UniverseMembers(rows: seq<Row>, s: Key)
    ensures forall c :: c in Universe(rows, s) <==> c in ClustersIn(rows, s)
    ensures s in StrataOf(rows) ==> Universe(rows, s) != []
  {
    hide KeyLeq, ClustersIn, Dedup, Sort, StrataOf;
    KeyOrder();
    DedupCorrect(ClustersIn(rows, s));
    SortElements(Dedup(ClustersIn(rows, s)), KeyLeq);
    if s in StrataOf(rows) {
      StratumHasClusters(rows, s);
      assert ClustersIn(rows, s)[0] in Universe(rows, s);
    }
  }

  lemma StrataMembers(rows: seq<Row>)
    ensures forall s :: s in SortedStrata(rows) <==> s in StrataOf(rows)
    ensures rows != [] ==> SortedStrata(rows) != []
  {
    hide KeyLeq, Dedup, Sort;
    KeyOrder();
    DedupCorrect(StrataOf(rows));
    SortElements(Dedup(StrataOf(rows)), KeyLeq);
    if rows != [] { assert StrataOf(rows)[0] in SortedStrata(rows); }
  }

  lemma {:induction false} ResamplePositive(rows: seq<Row>, s: Key, draw: seq<Key>)
    requires forall i :: 0 <= i < |rows| ==> rows[i].rated.probability > 0.0
    requires forall i :: 0 <= i < |draw| ==> draw[i] in ClustersIn(rows, s)
    ensures Positive(Resample(rows, s, draw)) && (draw != [] ==> Resample(rows, s, draw) != [])
  {
    hide RowsAt, ClustersIn;
    if draw != [] {
      var n := |draw| - 1;
      ResamplePositive(rows, s, draw[..n]);
      RowsAtPositive(rows, s, draw[n]);
      ClusterHasRows(rows, s, draw[n]);
    }
  }

  lemma {:induction false} ReplicatePositive(rows: seq<Row>, strata: seq<Key>, replicate: nat,
                                             choose: (nat, seq<Key>, nat) -> Key)
    requires Chooses(choose) && forall i :: 0 <= i < |rows| ==> rows[i].rated.probability > 0.0
    requires forall i :: 0 <= i < |strata| ==> strata[i] in StrataOf(rows)
    ensures Positive(Replicate(rows, strata, replicate, choose))
    ensures strata != [] ==> Replicate(rows, strata, replicate, choose) != []
  {
    hide Universe, Resample, StrataOf, Chooses, ClustersIn;
    if strata != [] {
      var n := |strata| - 1;
      var universe := Universe(rows, strata[n]);
      ReplicatePositive(rows, strata[..n], replicate, choose);
      UniverseMembers(rows, strata[n]);
      DrawnFromUniverse(replicate, universe, choose);
      ResamplePositive(rows, strata[n], Draw(replicate, universe, choose));
    }
  }

  lemma DrawnFromUniverse(replicate: nat, universe: seq<Key>, choose: (nat, seq<Key>, nat) -> Key)
    requires Chooses(choose)
    ensures |Draw(replicate, universe, choose)| == |universe|
    ensures forall i :: 0 <= i < |universe| ==> Draw(replicate, universe, choose)[i] in universe
  {
  }

  // ---- The stratified bootstrap ----

  /** One replicate; strata with the same clusters share the cached draw. */
  method DrawReplicate(rows: seq<Row>, strata: seq<Key>, replicate: nat, choose: (nat, seq<Key>, nat) -> Key)
      returns (sampled: seq<Rated>)
    ensures sampled == Replicate(rows, strata, replicate, choose)
  {
    hide Universe, Draw, RowsAt;
    var drawsByUniverse: map<seq<Key>, seq<Key>> := map[];
    sampled := [];
    for i := 0 to |strata|
      invariant sampled == Replicate(rows, strata[..i], replicate, choose)
      invariant forall u :: u in drawsByUniverse ==> drawsByUniverse[u] == Draw(replicate, u, choose)
    {
      var s := strata[i];
      var universe := Universe(rows, s);
      var draw;
      if universe in drawsByUniverse {
        draw := drawsByUniverse[universe];
      } else {
        draw := Draw(replicate, universe, choose);
        drawsByUniverse := drawsByUniverse[universe := draw];
      }
      var more := ResampleAll(rows, s, draw);
      assert strata[..i + 1][..i] == strata[..i] && strata[..i + 1][i] == s;
      sampled := sampled + more;
    }
    assert strata[..|strata|] == strata;
  }

  method ResampleAll(rows: seq<Row>, s: Key, draw: seq<Key>) returns (sampled: seq<Rated>)
    ensures sampled == Resample(rows, s, draw)
  {
    hide RowsAt;
    sampled := [];
    for i := 0 to |draw|
      invariant sampled == Resample(rows, s, draw[..i])
    {
      assert draw[..i + 1][..i] == draw[..i] && draw[..i + 1][i] == draw[i];
      sampled := sampled + RowsAt(rows, s, draw[i]);
    }
    assert draw[..|draw|] == draw;
  }

  /** `cluster_bootstrap_interval`: an interval exactly when there is something to resample, from every replicate. */
  method ClusterBootstrapInterval(rows: seq<Row>, positive: string, repetitions: int,
                                  choose: (nat, seq<Key>, nat) -> Key)
      returns (r: Summary)
    requires Chooses(choose)
    ensures r.clusters == if Eligible(rows) == [] || repetitions < 1 then 0 else |AllClusters(Eligible(rows))|
    ensures r.WithInterval? <==> repetitions >= 1 && |AllClusters(Eligible(rows))| >= 2
    ensures r.WithInterval? ==>
              r.interval == Endpoints(BootstrapBounds(Eligible(rows), positive, false, repetitions, choose),
                                      BootstrapBounds(Eligible(rows), positive, true, repetitions, choose))
    ensures r.WithInterval? ==> Ordered(r.interval, 0.0, 1.0)
  {
    hide Eligible, Replicate, Endpoints, Chooses, Sort, Dedup, Bound;
    var eligible := Eligible(rows);
    if eligible == [] || repetitions < 1 {
      assert eligible == [] ==> AllClusters(eligible) == {};
      return NoInterval(0);
    }
    var clusters := AllClusters(eligible);
    if |clusters| < 2 {
      return NoInterval(|clusters|);
    }
    EligibleRows(rows);
    StrataMembers(eligible);
    var lowers, uppers := BootstrapLoop(eligible, positive, repetitions, choose);
    EndpointsAreOrdered(lowers, uppers, 0.0, 1.0);
    r := WithInterval(Endpoints(lowers, uppers), |clusters|);
  }

  ghost predicate Ordered(e: Interval, least: real, most: real) {
    && least <= e.low <= e.high && e.low <= e.sensitivityLow <= e.sensitivityHigh <= most && e.high <= e.sensitivityHigh
  }

  method BootstrapLoop(rows: seq<Row>, positive: string, repetitions: nat, choose: (nat, seq<Key>, nat) -> Key)
      returns (lowers: seq<real>, uppers: seq<real>)
    requires Chooses(choose) && rows != [] && forall i :: 0 <= i < |rows| ==> rows[i].rated.probability > 0.0
    ensures lowers == BootstrapBounds(rows, positive, false, repetitions, choose)
    ensures uppers == BootstrapBounds(rows, positive, true, repetitions, choose)
    ensures Dominated(lowers, uppers) && AllWithin(lowers, 0.0, 1.0) && AllWithin(uppers, 0.0, 1.0)
  {
    hide Replicate, Chooses, SortedStrata, Bound;
    lowers, uppers := [], [];
    var strata := SortedStrata(rows);
    StrataMembers(rows);
    for i := 0 to repetitions
      invariant lowers == BootstrapBounds(rows, positive, false, repetitions, choose)[..i]
      invariant uppers == BootstrapBounds(rows, positive, true, repetitions, choose)[..i]
      invariant Dominated(lowers, uppers) && AllWithin(lowers, 0.0, 1.0) && AllWithin(uppers, 0.0, 1.0)
    {
      var sampled := DrawReplicate(rows, strata, i, choose);
      ReplicatePositive(rows, strata, i, choose);
      var bounds := WeightedRate(sampled, positive);
      assert BootstrapBounds(rows, positive, false, repetitions, choose)[i] == BoundOf(sampled, positive, false);
      assert BootstrapBounds(rows, positive, true, repetitions, choose)[i] == BoundOf(sampled, positive, true);
      if bounds.Some? {
        lowers := lowers + [bounds.value.lower];
        uppers := uppers + [bounds.value.upper];
      }
    }
  }

  // ---- A replicate that draws each cluster once ----

  function RatedOf(rows: seq<Row>): seq<Rated> {
    seq(|rows|, i requires 0 <= i < |rows| => rows[i].rated)
  }

  /** The rows of the clusters that `chosen` lists for each stratum. */
  function Gather(rows: seq<Row>, strata: seq<Key>, chosen: Key -> seq<Key>): seq<Rated> {
    if strata == [] then []
    else
      var s := strata[|strata| - 1];
      Gather(rows, strata[..|strata| - 1], chosen) + Resample(rows, s, chosen(s))
  }

  /** What one more row adds to the rows of some clusters of a stratum. */
  function Added(r: Row, s: Key, draw: seq<Key>): multiset<Rated> {
    if r.stratum == s && r.cluster in draw then multiset{r.rated} else multiset{}
  }

  lemma AddedSnoc(r: Row, s: Key, draw: seq<Key>, c: Key)
    requires c !in draw
    ensures Added(r, s, draw + [c]) == Added(r, s, draw) + Added(r, s, [c])
  {
  }

  lemma RowsAtMore(front: seq<Row>, r: Row, s: Key, c: Key)
    ensures multiset(RowsAt(front + [r], s, c)) == multiset(RowsAt(front, s, c)) + Added(r, s, [c])
  {
    assert (front + [r])[..|front|] == front;
  }

  lemma Regroup<T>(a: multiset<T>, b: multiset<T>, x: multiset<T>, y: multiset<T>)
    ensures (a + x) + (b + y) == (a + b) + (x + y)
  {
  }

  lemma {:induction false} ResampleMore(front: seq<Row>, r: Row, s: Key, draw: seq<Key>)
    requires Distinct(draw)
    ensures multiset(Resample(front + [r], s, draw)) == multiset(Resample(front, s, draw)) + Added(r, s, draw)
  {
    if draw != [] {
      var some, c := draw[..|draw| - 1], draw[|draw| - 1];
      assert draw == some + [c];
      assert c !in some;
      ResampleMore(front, r, s, some);
      RowsAtMore(front, r, s, c);
      AddedSnoc(r, s, some, c);
      hide RowsAt, Added, Distinct;
      Regroup(multiset(Resample(front, s, some)), multiset(RowsAt(front, s, c)), Added(r, s, some), Added(r, s, [c]));
    }
  }

  function AddedTo(r: Row, strata: seq<Key>, chosen: Key -> seq<Key>): multiset<Rated> {
    if r.stratum in strata then Added(r, r.stratum, chosen(r.stratum)) else multiset{}
  }

  lemma AddedToSnoc(r: Row, strata: seq<Key>, s: Key, chosen: Key -> seq<Key>)
    requires s !in strata
    ensures AddedTo(r, strata + [s], chosen) == AddedTo(r, strata, chosen) + Added(r, s, chosen(s))
  {
  }

  lemma {:induction false} GatherMore(front: seq<Row>, r: Row, strata: seq<Key>, chosen: Key -> seq<Key>)
    requires Distinct(strata) && forall s :: s in strata ==> Distinct(chosen(s))
    ensures multiset(Gather(front + [r], strata, chosen))
            == multiset(Gather(front, strata, chosen)) + AddedTo(r, strata, chosen)
  {
    if strata != [] {
      var some, s := strata[..|strata| - 1], strata[|strata| - 1];
      assert strata == some + [s];
      assert s !in some;
      GatherMore(front, r, some, chosen);
      ResampleMore(front, r, s, chosen(s));
      AddedToSnoc(r, some, s, chosen);
      hide Resample, Added, AddedTo, Distinct;
      Regroup(multiset(Gather(front, some, chosen)), multiset(Resample(front, s, chosen(s))),
              AddedTo(r, some, chosen), Added(r, s, chosen(s)));
    }
  }

  lemma {:induction false} GatherNothing(strata: seq<Key>, chosen: Key -> seq<Key>)
    ensures Gather([], strata, chosen) == []
  {
    if strata != [] {
      GatherNothing(strata[..|strata| - 1], chosen);
      ResampleNothing(strata[|strata| - 1], chosen(strata[|strata| - 1]));
    }
  }

  lemma {:induction false} ResampleNothing(s: Key, draw: seq<Key>)
    ensures Resample([], s, draw) == []
  {
    if draw != [] { ResampleNothing(s, draw[..|draw| - 1]); }
  }

  ghost predicate Covers(rows: seq<Row>, strata: seq<Key>, chosen: Key -> seq<Key>) {
    forall i :: 0 <= i < |rows| ==> rows[i].stratum in strata && rows[i].cluster in chosen(rows[i].stratum)
  }

  lemma CoversLast(front: seq<Row>, r: Row, strata: seq<Key>, chosen: Key -> seq<Key>)
    requires Covers(front + [r], strata, chosen)
    ensures Covers(front, strata, chosen) && AddedTo(r, strata, chosen) == multiset{r.rated}
  {
    var rows := front + [r];
    assert rows[|front|] == r && forall i :: 0 <= i < |front| ==> front[i] == rows[i];
  }

  lemma {:induction false} GatherAll(rows: seq<Row>, strata: seq<Key>, chosen: Key -> seq<Key>)
    requires Distinct(strata) && (forall s :: s in strata ==> Distinct(chosen(s))) && Covers(rows, strata, chosen)
    ensures multiset(Gather(rows, strata, chosen)) == multiset(RatedOf(rows))
  {
    hide Gather, AddedTo, Distinct, Covers;
    if rows == [] {
      GatherNothing(strata, chosen);
    } else {
      var front, r := rows[..|rows| - 1], rows[|rows| - 1];
      assert rows == front + [r];
      CoversLast(front, r, strata, chosen);
      GatherAll(front, strata, chosen);
      GatherMore(front, r, strata, chosen);
      assert RatedOf(rows) == RatedOf(front) + [r.rated];
      hide RatedOf;
    }
  }

  lemma {:induction false} ReplicateGathers(rows: seq<Row>, strata: seq<Key>, replicate: nat,
                                            choose: (nat, seq<Key>, nat) -> Key)
    requires forall universe: seq<Key>, i: nat :: i < |universe| ==> choose(replicate, universe, i) == universe[i]
    ensures Replicate(rows, strata, replicate, choose) == Gather(rows, strata, s => Universe(rows, s))
  {
    if strata != [] {
      var s := strata[|strata| - 1];
      ReplicateGathers(rows, strata[..|strata| - 1], replicate, choose);
      assert Draw(replicate, Universe(rows, s), choose) == Universe(rows, s);
      hide Resample, Universe;
    }
  }

  lemma UniverseDistinct(rows: seq<Row>, s: Key)
    ensures Distinct(Universe(rows, s))
  {
    KeyOrder();
    hide KeyLeq;
    SortedDistinct(Dedup(ClustersIn(rows, s))) by { DedupCorrect(ClustersIn(rows, s)); }
  }

  lemma SortedDistinct(keys: seq<Key>)
    requires Distinct(keys)
    ensures Distinct(Sort(keys, KeyLeq))
  {
    KeyOrder();
    hide KeyLeq;
    SortCorrect(keys, KeyLeq);
    DistinctMultiset(keys);
    MultisetDistinct(Sort(keys, KeyLeq));
  }

  lemma StrataDistinct(rows: seq<Row>)
    ensures Distinct(SortedStrata(rows))
  {
    hide KeyLeq, StrataOf;
    DedupCorrect(StrataOf(rows));
    SortedDistinct(Dedup(StrataOf(rows)));
  }

  /** Strata and clusters partition the rows: a replicate that draws each cluster once is the sample itself. */
  lemma {:induction false} DrawingEachOnceGivesTheSample(rows: seq<Row>, replicate: nat,
                                                         choose: (nat, seq<Key>, nat) -> Key)
    requires forall universe: seq<Key>, i: nat :: i < |universe| ==> choose(replicate, universe, i) == universe[i]
    ensures multiset(Replicate(rows, SortedStrata(rows), replicate, choose)) == multiset(RatedOf(rows))
  {
    var strata := SortedStrata(rows);
    var chosen := s => Universe(rows, s);
    ReplicateGathers(rows, strata, replicate, choose);
    StrataMembers(rows);
    StrataDistinct(rows);
    forall s ensures Distinct(chosen(s)) { UniverseDistinct(rows, s); }
    forall i | 0 <= i < |rows| ensures rows[i].stratum in strata && rows[i].cluster in chosen(rows[i].stratum) {
      assert StrataOf(rows)[i] in StrataOf(rows);
      OwnCluster(rows, i);
      UniverseMembers(rows, rows[i].stratum);
    }
    hide Universe, SortedStrata, Distinct, ClustersIn;
    GatherAll(rows, strata, chosen);
  }

  // ---- The paired difference ----

  function OfArm(rows: seq<Row>, arm: string): seq<Row> {
    if rows == [] then []
    else
      var front, row := rows[..|rows| - 1], rows[|rows| - 1];
      if row.arm == arm && row.rated.probability > 0.0 then OfArm(front, arm) + [row] else OfArm(front, arm)
  }

  function Common(a: seq<Key>, b: seq<Key>): seq<Key> {
    if a == [] then [] else if a[0] in b then [a[0]] + Common(a[1..], b) else Common(a[1..], b)
  }

  /** The clusters of a stratum that both arms reviewed, in order. */
  function PairedUniverse(current: seq<Row>, reference: seq<Row>, s: Key): seq<Key> {
    Common(Universe(current, s), Universe(reference, s))
  }

  function BothStrata(current: seq<Row>, reference: seq<Row>): seq<Key> {
    Sort(Dedup(StrataOf(current) + StrataOf(reference)), KeyLeq)
  }

  function PairedClusters(current: seq<Row>, reference: seq<Row>): set<Key> {
    set i, c | 0 <= i < |BothStrata(current, reference)|
        && c in PairedUniverse(current, reference, BothStrata(current, reference)[i]) :: c
  }

  ghost predicate ChoosesPaired(choose: (nat, Key, seq<Key>, nat) -> Key) {
    forall replicate, s, universe, i :: universe != [] ==> choose(replicate, s, universe, i) in universe
  }

  function PairedDraw(replicate: nat, s: Key, universe: seq<Key>, choose: (nat, Key, seq<Key>, nat) -> Key): seq<Key> {
    seq(|universe|, i requires 0 <= i < |universe| => choose(replicate, s, universe, i))
  }

  /** One arm's rows of a replicate; both arms use the draws of the shared universes. */
  function PairedReplicate(rows: seq<Row>, current: seq<Row>, reference: seq<Row>, strata: seq<Key>, replicate: nat,
                           choose: (nat, Key, seq<Key>, nat) -> Key): seq<Rated>
  {
    if strata == [] then []
    else
      var s := strata[|strata| - 1];
      PairedReplicate(rows, current, reference, strata[..|strata| - 1], replicate, choose)
      + Resample(rows, s, PairedDraw(replicate, s, PairedUniverse(current, reference, s), choose))
  }

  function DifferenceBounds(current: seq<Row>, reference: seq<Row>, positive: string, optimistic: bool,
                            repetitions: nat, choose: (nat, Key, seq<Key>, nat) -> Key): seq<real>
  {
    var strata := BothStrata(current, reference);
    seq(repetitions, i requires 0 <= i < repetitions =>
      BoundOf(PairedReplicate(current, current, reference, strata, i, choose), positive, optimistic)
      - BoundOf(PairedReplicate(reference, current, reference, strata, i, choose), positive, !optimistic))
  }

  /** There are rows, and the arms share a cluster in each of their strata. */
  ghost predicate EveryStratumShared(current: seq<Row>, reference: seq<Row>) {
    && BothStrata(current, reference) != []
    && forall s :: s in BothStrata(current, reference) ==> PairedUniverse(current, reference, s) != []
  }

  /** Both arms reviewed every stratum in full, on the same clusters. */
  ghost predicate SharedCensus(current: seq<Row>, reference: seq<Row>) {
    && (forall s :: s in BothStrata(current, reference) ==>
          PairedUniverse(current, reference, s) != [] && Universe(current, s) == Universe(reference, s))
    && (forall i :: 0 <= i < |current| ==> current[i].rated.probability == 1.0)
    && (forall i :: 0 <= i < |reference| ==> reference[i].rated.probability == 1.0)
  }

  /** The rows that take part in the pairing. */
  predicate PairedAtOne(rows: seq<Row>, current: seq<Row>, reference: seq<Row>) {
    forall i :: 0 <= i < |rows| && rows[i].cluster in PairedUniverse(current, reference, rows[i].stratum) ==>
        rows[i].rated.probability == 1.0
  }

  lemma CommonMembers(a: seq<Key>, b: seq<Key>)
    ensures forall x :: x in Common(a, b) <==> x in a && x in b
    ensures (forall x :: x in a ==> x in b) ==> Common(a, b) == a
  {
    if a != [] {
      CommonMembers(a[1..], b);
      assert a == [a[0]] + a[1..];
    }
  }

  lemma OwnCluster(rows: seq<Row>, i: nat)
    requires i < |rows|
    ensures rows[i].cluster in ClustersIn(rows, rows[i].stratum)
  {
    if i < |rows| - 1 { OwnCluster(rows[..|rows| - 1], i); }
  }

  lemma BothStrataMembers(current: seq<Row>, reference: seq<Row>)
    ensures forall s :: s in BothStrata(current, reference) <==> s in StrataOf(current) || s in StrataOf(reference)
  {
    hide KeyLeq, Dedup, Sort, StrataOf;
    KeyOrder();
    DedupCorrect(StrataOf(current) + StrataOf(reference));
    SortElements(Dedup(StrataOf(current) + StrataOf(reference)), KeyLeq);
  }

  lemma {:induction false} ArmRows(rows: seq<Row>, arm: string)
    ensures forall row :: row in OfArm(rows, arm) <==> row in rows && row.arm == arm && row.rated.probability > 0.0
  {
    if rows != [] {
      ArmRows(rows[..|rows| - 1], arm);
      assert rows == rows[..|rows| - 1] + [rows[|rows| - 1]];
    }
  }

  lemma {:induction false} ClusterOfSome(rows: seq<Row>, s: Key, c: Key)
    ensures c in ClustersIn(rows, s) <==> exists row :: row in rows && row.stratum == s && row.cluster == c
  {
    if rows != [] {
      ClusterOfSome(rows[..|rows| - 1], s, c);
      assert rows == rows[..|rows| - 1] + [rows[|rows| - 1]];
    }
  }

  /** Both arms have a reviewed row of the cluster in the stratum. */
  ghost predicate ReviewedByBoth(rows: seq<Row>, currentArm: string, referenceArm: string, s: Key, c: Key) {
    exists a, b :: a in rows && b in rows && a.arm == currentArm && b.arm == referenceArm
                   && a.rated.probability > 0.0 && b.rated.probability > 0.0
                   && a.stratum == b.stratum == s && a.cluster == b.cluster == c
  }

  /** The clusters counted are those that both arms reviewed in a common stratum. */
  lemma PairedClustersAre(rows: seq<Row>, currentArm: string, referenceArm: string, c: Key)
    ensures c in PairedClusters(OfArm(rows, currentArm), OfArm(rows, referenceArm))
            <==> exists s :: ReviewedByBoth(rows, currentArm, referenceArm, s, c)
  {
    var current, reference := OfArm(rows, currentArm), OfArm(rows, referenceArm);
    var strata := BothStrata(current, reference);
    ArmRows(rows, currentArm);
    ArmRows(rows, referenceArm);
    BothStrataMembers(current, reference);
    forall s
      ensures c in PairedUniverse(current, reference, s) <==> ReviewedByBoth(rows, currentArm, referenceArm, s, c)
    {
      InPairedUniverse(current, reference, s, c);
    }
    forall s | ReviewedByBoth(rows, currentArm, referenceArm, s, c) ensures s in strata {
      var a :| a in current && a.stratum == s;
      var i :| 0 <= i < |current| && current[i] == a;
      assert StrataOf(current)[i] == s;
    }
    hide PairedUniverse, BothStrata, OfArm, ReviewedByBoth;
    assert forall i :: 0 <= i < |strata| ==> strata[i] in strata;
  }

  lemma InPairedUniverse(current: seq<Row>, reference: seq<Row>, s: Key, c: Key)
    ensures c in PairedUniverse(current, reference, s)
            <==> exists a, b :: a in current && b in reference && a.stratum == b.stratum == s
                                && a.cluster == b.cluster == c
  {
    hide Universe, Common, ClustersIn;
    CommonMembers(Universe(current, s), Universe(reference, s));
    UniverseMembers(current, s);
    UniverseMembers(reference, s);
    ClusterOfSome(current, s, c);
    ClusterOfSome(reference, s, c);
  }

  /** When the universes agree, the rows that take part are all rows. */
  lemma AllTakePart(rows: seq<Row>, current: seq<Row>, reference: seq<Row>)
    requires rows == current || rows == reference
    requires forall s :: s in BothStrata(current, reference) ==> Universe(current, s) == Universe(reference, s)
    ensures PairedAtOne(rows, current, reference) <==> forall i :: 0 <= i < |rows| ==> rows[i].rated.probability == 1.0
  {
    hide Universe, Common, ClustersIn, BothStrata;
    BothStrataMembers(current, reference);
    forall i | 0 <= i < |rows| ensures rows[i].cluster in PairedUniverse(current, reference, rows[i].stratum) {
      assert StrataOf(rows)[i] in StrataOf(rows);
      OwnCluster(rows, i);
      UniverseMembers(rows, rows[i].stratum);
      CommonMembers(Universe(current, rows[i].stratum), Universe(reference, rows[i].stratum));
    }
  }

  lemma {:induction false} PairedPositive(rows: seq<Row>, current: seq<Row>, reference: seq<Row>, strata: seq<Key>,
                                          replicate: nat, choose: (nat, Key, seq<Key>, nat) -> Key)
    requires rows == current || rows == reference
    requires ChoosesPaired(choose) && forall i :: 0 <= i < |rows| ==> rows[i].rated.probability > 0.0
    requires forall i :: 0 <= i < |strata| ==> PairedUniverse(current, reference, strata[i]) != []
    ensures Positive(PairedReplicate(rows, current, reference, strata, replicate, choose))
    ensures strata != [] ==> PairedReplicate(rows, current, reference, strata, replicate, choose) != []
  {
    hide Universe, Resample, Common, ChoosesPaired, ClustersIn;
    if strata != [] {
      var n := |strata| - 1;
      var universe := PairedUniverse(current, reference, strata[n]);
      PairedPositive(rows, current, reference, strata[..n], replicate, choose);
      UniverseMembers(rows, strata[n]);
      CommonMembers(Universe(current, strata[n]), Universe(reference, strata[n]));
      DrawnFromShared(replicate, strata[n], universe, choose);
      ResamplePositive(rows, strata[n], PairedDraw(replicate, strata[n], universe, choose));
    }
  }

  lemma DrawnFromShared(replicate: nat, s: Key, universe: seq<Key>, choose: (nat, Key, seq<Key>, nat) -> Key)
    requires ChoosesPaired(choose)
    ensures |PairedDraw(replicate, s, universe, choose)| == |universe|
    ensures forall i :: 0 <= i < |universe| ==> PairedDraw(replicate, s, universe, choose)[i] in universe
  {
  }

  /** One paired replicate. */
  method DrawPaired(current: seq<Row>, reference: seq<Row>, strata: seq<Key>, replicate: nat,
                    choose: (nat, Key, seq<Key>, nat) -> Key)
      returns (currentRows: seq<Rated>, referenceRows: seq<Rated>)
    ensures currentRows == PairedReplicate(current, current, reference, strata, replicate, choose)
    ensures referenceRows == PairedReplicate(reference, current, reference, strata, replicate, choose)
  {
    hide PairedUniverse, PairedDraw, Resample;
    currentRows, referenceRows := [], [];
    for i := 0 to |strata|
      invariant currentRows == PairedReplicate(current, current, reference, strata[..i], replicate, choose)
      invariant referenceRows == PairedReplicate(reference, current, reference, strata[..i], replicate, choose)
    {
      var s := strata[i];
      var draw := PairedDraw(replicate, s, PairedUniverse(current, reference, s), choose);
      var more := ResampleAll(current, s, draw);
      var other := ResampleAll(reference, s, draw);
      assert strata[..i + 1][..i] == strata[..i] && strata[..i + 1][i] == s;
      currentRows := currentRows + more;
      referenceRows := referenceRows + other;
    }
    assert strata[..|strata|] == strata;
  }

  method PairedLoop(current: seq<Row>, reference: seq<Row>, positive: string, repetitions: nat,
                    choose: (nat, Key, seq<Key>, nat) -> Key)
      returns (lowers: seq<real>, uppers: seq<real>)
    requires ChoosesPaired(choose) && SharedCensus(current, reference) && BothStrata(current, reference) != []
    ensures lowers == DifferenceBounds(current, reference, positive, false, repetitions, choose)
    ensures uppers == DifferenceBounds(current, reference, positive, true, repetitions, choose)
    ensures Dominated(lowers, uppers) && AllWithin(lowers, -1.0, 1.0) && AllWithin(uppers, -1.0, 1.0)
  {
    hide PairedReplicate, ChoosesPaired, BothStrata, Bound, PairedUniverse, Universe;
    lowers, uppers := [], [];
    var strata := BothStrata(current, reference);
    for i := 0 to repetitions
      invariant lowers == DifferenceBounds(current, reference, positive, false, repetitions, choose)[..i]
      invariant uppers == DifferenceBounds(current, reference, positive, true, repetitions, choose)[..i]
      invariant Dominated(lowers, uppers) && AllWithin(lowers, -1.0, 1.0) && AllWithin(uppers, -1.0, 1.0)
    {
      var currentRows, referenceRows := DrawPaired(current, reference, strata, i, choose);
      PairedPositive(current, current, reference, strata, i, choose);
      PairedPositive(reference, current, reference, strata, i, choose);
      var cur := WeightedRate(currentRows, positive);
      var ref := WeightedRate(referenceRows, positive);
      assert DifferenceBounds(current, reference, positive, false, repetitions, choose)[i]
          == BoundOf(currentRows, positive, false) - BoundOf(referenceRows, positive, true);
      assert DifferenceBounds(current, reference, positive, true, repetitions, choose)[i]
          == BoundOf(currentRows, positive, true) - BoundOf(referenceRows, positive, false);
      if cur.Some? && ref.Some? {
        lowers := lowers + [cur.value.lower - ref.value.upper];
        uppers := uppers + [cur.value.upper - ref.value.lower];
      }
    }
  }

  /** `paired_cluster_bootstrap_difference`: an interval exactly for a shared census of at least two clusters. */
  method PairedClusterBootstrapDifference(rows: seq<Row>, currentArm: string, referenceArm: string, positive: string,
                                          repetitions: int, choose: (nat, Key, seq<Key>, nat) -> Key)
      returns (r: Summary)
    requires ChoosesPaired(choose)
    ensures var current, reference := OfArm(rows, currentArm), OfArm(rows, referenceArm);
            && (r.WithInterval? <==>
                repetitions >= 1 && SharedCensus(current, reference) && |PairedClusters(current, reference)| >= 2)
            && r.clusters == (if repetitions >= 1 && EveryStratumShared(current, reference)
                              then |PairedClusters(current, reference)| else 0)
            && (r.WithInterval? ==>
                  && r.interval == Endpoints(DifferenceBounds(current, reference, positive, false, repetitions, choose),
                                             DifferenceBounds(current, reference, positive, true, repetitions, choose))
                  && Ordered(r.interval, -1.0, 1.0))
  {
    hide OfArm, ChoosesPaired, Endpoints, PairedUniverse, Universe, BothStrata, PairedReplicate, BoundOf, PairedAtOne;
    var current, reference := OfArm(rows, currentArm), OfArm(rows, referenceArm);
    var strata := BothStrata(current, reference);
    if strata == [] || repetitions < 1
        || exists i :: 0 <= i < |strata| && PairedUniverse(current, reference, strata[i]) == [] {
      assert strata == [] ==> PairedClusters(current, reference) == {};
      return NoInterval(0);
    }
    var clusters := PairedClusters(current, reference);
    if exists i :: 0 <= i < |strata| && Universe(current, strata[i]) != Universe(reference, strata[i]) {
      return NoInterval(|clusters|);
    }
    AllTakePart(current, current, reference);
    AllTakePart(reference, current, reference);
    if |clusters| < 2 || !PairedAtOne(current, current, reference) || !PairedAtOne(reference, current, reference) {
      return NoInterval(|clusters|);
    }
    var lowers, uppers := PairedLoop(current, reference, positive, repetitions, choose);
    EndpointsAreOrdered(lowers, uppers, -1.0, 1.0);
    r := WithInterval(Endpoints(lowers, uppers), |clusters|);
  }

  // ---- What the sensitivity endpoints mean ----

  /** `full` resolves every label of `rows` and changes nothing else. */
  ghost predicate RowsComplete(rows: seq<Row>, full: seq<Row>) {
    && |full| == |rows|
    && forall i :: 0 <= i < |rows| ==>
         full[i] == rows[i].(rated := full[i].rated) && Completes([rows[i].rated], [full[i].rated])
  }

  lemma CompletesAppend(a: seq<Rated>, a': seq<Rated>, b: seq<Rated>, b': seq<Rated>)
    requires Completes(a, a') && Completes(b, b')
    ensures Completes(a + b, a' + b')
  {
  }

  lemma RowsFront(rows: seq<Row>, full: seq<Row>)
    requires RowsComplete(rows, full) && rows != []
    ensures RowsComplete(rows[..|rows| - 1], full[..|full| - 1])
    ensures var a, b := rows[|rows| - 1], full[|full| - 1];
            a.stratum == b.stratum && a.cluster == b.cluster && a.rated.probability == b.rated.probability
            && Completes([a.rated], [b.rated])
  {
    hide Completes;
    var n := |rows| - 1;
    assert full[n] == rows[n].(rated := full[n].rated);
    CompletesSingle(rows[n].rated, full[n].rated);
  }

  lemma CompletesSingle(a: Rated, b: Rated)
    requires Completes([a], [b])
    ensures a.probability == b.probability
  {
    assert [a][0] == a && [b][0] == b;
  }

  lemma {:induction false} EligibleCompletes(rows: seq<Row>, full: seq<Row>)
    requires RowsComplete(rows, full)
    ensures RowsComplete(Eligible(rows), Eligible(full))
  {
    if rows != [] {
      RowsFront(rows, full);
      EligibleCompletes(rows[..|rows| - 1], full[..|full| - 1]);
      assert full[|full| - 1] == rows[|rows| - 1].(rated := full[|full| - 1].rated);
      hide Completes;
    }
  }

  lemma {:induction false} RowsAtCompletes(rows: seq<Row>, full: seq<Row>, s: Key, c: Key)
    requires RowsComplete(rows, full)
    ensures Completes(RowsAt(rows, s, c), RowsAt(full, s, c))
  {
    if rows != [] {
      RowsFront(rows, full);
      var n := |rows| - 1;
      RowsAtCompletes(rows[..n], full[..n], s, c);
      hide Completes, RowsComplete;
    }
  }

  lemma {:induction false} ClustersComplete(rows: seq<Row>, full: seq<Row>, s: Key)
    requires RowsComplete(rows, full)
    ensures ClustersIn(full, s) == ClustersIn(rows, s) && Universe(full, s) == Universe(rows, s)
  {
    if rows != [] {
      RowsFront(rows, full);
      ClustersComplete(rows[..|rows| - 1], full[..|full| - 1], s);
    }
  }

  lemma StrataComplete(rows: seq<Row>, full: seq<Row>)
    requires RowsComplete(rows, full)
    ensures StrataOf(full) == StrataOf(rows) && SortedStrata(full) == SortedStrata(rows)
  {
    forall i | 0 <= i < |rows| ensures full[i].stratum == rows[i].stratum {
      assert full[i] == rows[i].(rated := full[i].rated);
    }
    assert StrataOf(full) == StrataOf(rows);
  }

  lemma {:induction false} ResampleCompletes(rows: seq<Row>, full: seq<Row>, s: Key, draw: seq<Key>)
    requires RowsComplete(rows, full)
    ensures Completes(Resample(rows, s, draw), Resample(full, s, draw))
  {
    hide RowsComplete, RowsAt, Completes;
    if draw == [] {
      NothingToComplete();
    } else {
      var n := |draw| - 1;
      ResampleCompletes(rows, full, s, draw[..n]);
      RowsAtCompletes(rows, full, s, draw[n]);
      CompletesAppend(Resample(rows, s, draw[..n]), Resample(full, s, draw[..n]), RowsAt(rows, s, draw[n]),
                      RowsAt(full, s, draw[n]));
    }
  }

  lemma NothingToComplete()
    ensures Completes([], [])
  {
  }

  lemma {:induction false} ReplicateCompletes(rows: seq<Row>, full: seq<Row>, strata: seq<Key>, replicate: nat,
                                              choose: (nat, seq<Key>, nat) -> Key)
    requires RowsComplete(rows, full)
    ensures Completes(Replicate(rows, strata, replicate, choose), Replicate(full, strata, replicate, choose))
  {
    hide RowsComplete, Resample, Completes, Universe;
    if strata == [] {
      NothingToComplete();
    } else {
      var n, s := |strata| - 1, strata[|strata| - 1];
      ReplicateCompletes(rows, full, strata[..n], replicate, choose);
      ClustersComplete(rows, full, s);
      var draw := Draw(replicate, Universe(rows, s), choose);
      ResampleCompletes(rows, full, s, draw);
      CompletesAppend(Replicate(rows, strata[..n], replicate, choose), Replicate(full, strata[..n], replicate, choose),
                      Resample(rows, s, draw), Resample(full, s, draw));
    }
  }

  /** Bounds of a positive sample enclose the single bound of its completion. */
  lemma BoundsEnclose(sampled: seq<Rated>, full: seq<Rated>, positive: string)
    requires Positive(sampled) && sampled != [] && Completes(sampled, full)
    ensures BoundOf(sampled, positive, false) <= BoundOf(full, positive, false) == BoundOf(full, positive, true)
            <= BoundOf(sampled, positive, true)
  {
    hide Bound, Completes;
    BoundsCoverCompletions(sampled, positive, positive + "x", full);
  }

  lemma {:induction false} CompletedReplicates(rows: seq<Row>, full: seq<Row>, positive: string, repetitions: nat,
                                               choose: (nat, seq<Key>, nat) -> Key)
    requires Chooses(choose) && RowsComplete(rows, full) && Eligible(rows) != []
    ensures var e, f := Eligible(rows), Eligible(full);
            && BootstrapBounds(f, positive, false, repetitions, choose)
               == BootstrapBounds(f, positive, true, repetitions, choose)
            && Dominated(BootstrapBounds(e, positive, false, repetitions, choose),
                         BootstrapBounds(f, positive, false, repetitions, choose))
            && Dominated(BootstrapBounds(f, positive, false, repetitions, choose),
                         BootstrapBounds(e, positive, true, repetitions, choose))
  {
    hide Chooses, RowsComplete, Eligible, Replicate, BoundOf, SortedStrata, StrataOf;
    var e, f := Eligible(rows), Eligible(full);
    EligibleCompletes(rows, full);
    EligibleRows(rows);
    StrataComplete(e, f);
    StrataMembers(e);
    var strata := SortedStrata(e);
    forall i: nat | i < repetitions
      ensures BoundOf(Replicate(e, strata, i, choose), positive, false)
              <= BoundOf(Replicate(f, strata, i, choose), positive, false)
      ensures BoundOf(Replicate(f, strata, i, choose), positive, false)
              == BoundOf(Replicate(f, strata, i, choose), positive, true)
      ensures BoundOf(Replicate(f, strata, i, choose), positive, false)
              <= BoundOf(Replicate(e, strata, i, choose), positive, true)
    {
      ReplicatePositive(e, strata, i, choose);
      ReplicateCompletes(e, f, strata, i, choose);
      BoundsEnclose(Replicate(e, strata, i, choose), Replicate(f, strata, i, choose), positive);
    }
  }

  /** Three lists, each below the next, have their endpoints in that order. */
  lemma EndpointsBetween(lower: seq<real>, middle: seq<real>, upper: seq<real>)
    requires |lower| >= 1 && Dominated(lower, middle) && Dominated(middle, upper)
    ensures var open, done := Endpoints(lower, upper), Endpoints(middle, middle);
            && done.low == done.sensitivityLow && done.high == done.sensitivityHigh
            && open.low <= done.low <= open.sensitivityLow && open.high <= done.high <= open.sensitivityHigh
  {
    hide LowIndex, HighIndex, Sort;
    SortDominates(lower, middle);
    SortDominates(middle, upper);
    SortSize(lower);
    SortSize(middle);
    SortSize(upper);
    IndicesInRange(|lower|);
  }

  /**
   Whatever the unresolved labels turn out to be, the interval computed from the resolved rows has its low end
   between `low` and `sensitivity_low` and its high end between `high` and `sensitivity_high`.
   */
  lemma {:induction false} SensitivityCoversCompletions(rows: seq<Row>, full: seq<Row>, positive: string,
                                                        repetitions: nat,
                                     choose: (nat, seq<Key>, nat) -> Key)
    requires Chooses(choose) && RowsComplete(rows, full) && Eligible(rows) != [] && repetitions >= 1
    ensures var e, f := Eligible(rows), Eligible(full);
            var open :=
                Endpoints(BootstrapBounds(e, positive, false, repetitions, choose),
                          BootstrapBounds(e, positive, true, repetitions, choose));
            var done :=
                Endpoints(BootstrapBounds(f, positive, false, repetitions, choose),
                          BootstrapBounds(f, positive, true, repetitions, choose));
            && done.low == done.sensitivityLow && done.high == done.sensitivityHigh
            && open.low <= done.low <= open.sensitivityLow && open.high <= done.high <= open.sensitivityHigh
  {
    CompletedReplicates(rows, full, positive, repetitions, choose);
    var e, f := Eligible(rows), Eligible(full);
    hide BootstrapBounds, Eligible, Chooses, RowsComplete, Endpoints;
    EndpointsBetween(BootstrapBounds(e, positive, false, repetitions, choose),
                     BootstrapBounds(f, positive, false, repetitions, choose),
                     BootstrapBounds(e, positive, true, repetitions, choose));
  }

  // ---- The same for the paired difference ----

  lemma {:induction false} OfArmCompletes(rows: seq<Row>, full: seq<Row>, arm: string)
    requires RowsComplete(rows, full)
    ensures RowsComplete(OfArm(rows, arm), OfArm(full, arm))
  {
    if rows != [] {
      RowsFront(rows, full);
      OfArmCompletes(rows[..|rows| - 1], full[..|full| - 1], arm);
      assert full[|full| - 1] == rows[|rows| - 1].(rated := full[|full| - 1].rated);
      hide Completes;
    }
  }

  /** Completing the labels changes neither the strata nor the shared universes. */
  lemma PairingCompletes(current: seq<Row>, current': seq<Row>, reference: seq<Row>, reference': seq<Row>)
    requires RowsComplete(current, current') && RowsComplete(reference, reference')
    ensures BothStrata(current', reference') == BothStrata(current, reference)
    ensures forall s :: PairedUniverse(current', reference', s) == PairedUniverse(current, reference, s)
  {
    StrataComplete(current, current');
    StrataComplete(reference, reference');
    hide RowsComplete, Universe, StrataOf;
    forall s ensures PairedUniverse(current', reference', s) == PairedUniverse(current, reference, s) {
      ClustersComplete(current, current', s);
      ClustersComplete(reference, reference', s);
    }
  }

  lemma {:induction false} PairedReplicateCompletes(rows: seq<Row>, full: seq<Row>, current: seq<Row>,
                                                    current': seq<Row>,
                                                    reference: seq<Row>, reference': seq<Row>, strata: seq<Key>,
                                                    replicate: nat, choose: (nat, Key, seq<Key>, nat) -> Key)
    requires RowsComplete(rows, full)
    requires forall s :: PairedUniverse(current', reference', s) == PairedUniverse(current, reference, s)
    ensures Completes(PairedReplicate(rows, current, reference, strata, replicate, choose),
                      PairedReplicate(full, current', reference', strata, replicate, choose))
  {
    hide RowsComplete, Resample, Completes, PairedUniverse;
    if strata == [] {
      NothingToComplete();
    } else {
      var n, s := |strata| - 1, strata[|strata| - 1];
      PairedReplicateCompletes(rows, full, current, current', reference, reference', strata[..n], replicate, choose);
      var draw := PairedDraw(replicate, s, PairedUniverse(current, reference, s), choose);
      ResampleCompletes(rows, full, s, draw);
      CompletesAppend(PairedReplicate(rows, current, reference, strata[..n], replicate, choose),
                      PairedReplicate(full, current', reference', strata[..n], replicate, choose),
                      Resample(rows, s, draw), Resample(full, s, draw));
    }
  }

  /** One arm's bounds in one replicate enclose the single bound of its completion. */
  lemma {:induction false} ArmEnclosed(rows: seq<Row>, full: seq<Row>, current: seq<Row>, current': seq<Row>,
                                       reference: seq<Row>, reference': seq<Row>, positive: string, replicate: nat,
                                       choose: (nat, Key, seq<Key>, nat) -> Key)
    requires RowsComplete(current, current') && RowsComplete(reference, reference')
    requires (rows == current && full == current') || (rows == reference && full == reference')
    requires ChoosesPaired(choose) && SharedCensus(current, reference) && BothStrata(current, reference) != []
    ensures var strata := BothStrata(current, reference);
            var sampled := PairedReplicate(rows, current, reference, strata, replicate, choose);
            var done :=
                PairedReplicate(full, current', reference', BothStrata(current', reference'), replicate, choose);
            BoundOf(sampled, positive, false) <= BoundOf(done, positive, false) == BoundOf(done, positive, true)
            <= BoundOf(sampled, positive, true)
  {
    hide BoundOf, RowsComplete, Completes, ChoosesPaired, BothStrata, PairedUniverse, Universe, PairedReplicate;
    var strata := BothStrata(current, reference);
    PairingCompletes(current, current', reference, reference');
    PairedPositive(rows, current, reference, strata, replicate, choose);
    PairedReplicateCompletes(rows, full, current, current', reference, reference', strata, replicate, choose);
    BoundsEnclose(PairedReplicate(rows, current, reference, strata, replicate, choose),
                  PairedReplicate(full, current', reference', strata, replicate, choose), positive);
  }

  /**
   Whatever the unresolved labels of a shared census turn out to be, the interval of the difference computed from
   the resolved rows has its low end between `low` and `sensitivity_low` and its high end between `high` and
   `sensitivity_high`.
   */
  lemma {:induction false} SensitivityCoversDifferences(rows: seq<Row>, full: seq<Row>, currentArm: string,
                                                        referenceArm: string, positive: string, repetitions: nat,
                                                        choose: (nat, Key, seq<Key>, nat) -> Key)
    requires ChoosesPaired(choose) && RowsComplete(rows, full) && repetitions >= 1
    requires SharedCensus(OfArm(rows, currentArm), OfArm(rows, referenceArm))
    requires BothStrata(OfArm(rows, currentArm), OfArm(rows, referenceArm)) != []
    ensures var c, r := OfArm(rows, currentArm), OfArm(rows, referenceArm);
            var c', r' := OfArm(full, currentArm), OfArm(full, referenceArm);
            var open := Endpoints(DifferenceBounds(c, r, positive, false, repetitions, choose),
                                  DifferenceBounds(c, r, positive, true, repetitions, choose));
            var done := Endpoints(DifferenceBounds(c', r', positive, false, repetitions, choose),
                                  DifferenceBounds(c', r', positive, true, repetitions, choose));
            && done.low == done.sensitivityLow && done.high == done.sensitivityHigh
            && open.low <= done.low <= open.sensitivityLow && open.high <= done.high <= open.sensitivityHigh
  {
    var c, r := OfArm(rows, currentArm), OfArm(rows, referenceArm);
    var c', r' := OfArm(full, currentArm), OfArm(full, referenceArm);
    OfArmCompletes(rows, full, currentArm);
    OfArmCompletes(rows, full, referenceArm);
    CompletedDifferences(c, c', r, r', positive, repetitions, choose);
    hide DifferenceBounds, OfArm, ChoosesPaired, RowsComplete, Endpoints, SharedCensus, BothStrata;
    EndpointsBetween(DifferenceBounds(c, r, positive, false, repetitions, choose),
                     DifferenceBounds(c', r', positive, false, repetitions, choose),
                     DifferenceBounds(c, r, positive, true, repetitions, choose));
  }

  lemma {:induction false} CompletedDifferences(c: seq<Row>, c': seq<Row>, r: seq<Row>, r': seq<Row>, positive: string,
                                                repetitions: nat, choose: (nat, Key, seq<Key>, nat) -> Key)
    requires RowsComplete(c, c') && RowsComplete(r, r')
    requires ChoosesPaired(choose) && SharedCensus(c, r) && BothStrata(c, r) != []
    ensures var done := DifferenceBounds(c', r', positive, false, repetitions, choose);
            && done == DifferenceBounds(c', r', positive, true, repetitions, choose)
            && Dominated(DifferenceBounds(c, r, positive, false, repetitions, choose), done)
            && Dominated(done, DifferenceBounds(c, r, positive, true, repetitions, choose))
  {
    hide BoundOf, RowsComplete, ChoosesPaired, SharedCensus, BothStrata, PairedReplicate;
    forall i: nat | i < repetitions
      ensures var done := DifferenceBounds(c', r', positive, false, repetitions, choose)[i];
              && done == DifferenceBounds(c', r', positive, true, repetitions, choose)[i]
              && DifferenceBounds(c, r, positive, false, repetitions, choose)[i] <= done
              && done <= DifferenceBounds(c, r, positive, true, repetitions, choose)[i]
    {
      ArmEnclosed(c, c', c, c', r, r', positive, i, choose);
      ArmEnclosed(r, r', c, c', r, r', positive, i, choose);
    }
  }
}
