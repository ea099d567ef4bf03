/** `_validate_recon_plan` of scripts/_mark_batch_covered.py, and its agreement with the planner. */
module ReconValidation {
  import opened Wrappers
  import opened Sequences
  import opened Sorting
  import opened Paths
  import ReconPlan

  const MAX_BATCHES: nat := 100_000
  const MAX_TOTAL_FILES: nat := 500_000
  const MAX_BATCH_FILES: nat := 50_000
  const MAX_BATCH_PATH_BYTES: nat := 8 * 1024 * 1024

  /** A JSON value as far as the validator tells it apart. */
  datatype Json = Text(text: string) | Boolean(flag: bool) | OtherJson

  datatype ReconBatch = ReconBatch(id: int, files: seq<string>, dir: Option<Json>, tier: Option<Json>,
                                   deferred: Option<Json>)

  /** recon.json; an optional field may be absent. */
  datatype Recon = Recon(batches: seq<ReconBatch>, batchCount: Option<int>, filesInScope: Option<int>,
                         covered: seq<int>)

  function Ids(bs: seq<ReconBatch>): seq<int> {
    seq(|bs|, i requires 0 <= i < |bs| => bs[i].id)
  }

  function AllFiles(bs: seq<ReconBatch>): seq<string> {
    if bs == [] then [] else AllFiles(bs[..|bs| - 1]) + bs[|bs| - 1].files
  }

  function PathBytes(paths: seq<string>): nat {
    if paths == [] then 0 else PathBytes(paths[..|paths| - 1]) + Utf8Length(paths[|paths| - 1])
  }

  predicate BatchOk(b: ReconBatch) {
    && b.id >= 1
    && 1 <= |b.files| <= MAX_BATCH_FILES
    && (forall k :: 0 <= k < |b.files| ==> ValidRepoPath(b.files[k]))
    && FieldsOk(b)
  }

  /** The optional fields of a batch, where present. */
  predicate FieldsOk(b: ReconBatch) {
    && (b.dir.Some? ==> b.dir.value.Text?)
    && (b.tier.Some? ==> b.tier.value.Text? && b.tier.value.text in {"critical", "normal", "low"})
    && (b.deferred.Some? ==> b.deferred.value.Boolean?)
  }

  ghost predicate BatchesOk(bs: seq<ReconBatch>) {
    && (forall i :: 0 <= i < |bs| ==> BatchOk(bs[i]))
    && Distinct(Ids(bs))
    && Distinct(AllFiles(bs))
    && |AllFiles(bs)| <= MAX_TOTAL_FILES
    && PathBytes(AllFiles(bs)) <= MAX_BATCH_PATH_BYTES
  }

  /** Everything the checkpoint demands of recon.json, stated over the whole document. */
  ghost predicate WellFormed(recon: Recon) {
    && 1 <= |recon.batches| <= MAX_BATCHES
    && BatchesOk(recon.batches)
    && (recon.batchCount.Some? ==> recon.batchCount.value == |recon.batches|)
    && (recon.filesInScope.Some? ==> recon.filesInScope.value == |AllFiles(recon.batches)|)
    && Distinct(recon.covered)
    && (forall i :: 0 <= i < |recon.covered| ==> recon.covered[i] in Ids(recon.batches))
  }

  /** An optional field may be left out; one that is there must be of its own kind. */
  lemma OptionalFieldsAre(recon: Recon, i: nat, dir: Option<Json>, tier: Option<Json>, deferred: Option<Json>)
    requires WellFormed(recon) && i < |recon.batches|
    ensures var b := recon.batches[i].(dir := dir, tier := tier, deferred := deferred);
            WellFormed(recon.(batches := recon.batches[i := b])) <==>
              && (forall x :: dir == Some(x) ==> exists text :: x == Text(text))
              && (tier == None || tier == Some(Text("critical")) || tier == Some(Text("normal"))
                  || tier == Some(Text("low")))
              && (forall x :: deferred == Some(x) ==> x == Boolean(true) || x == Boolean(false))
  {
    var b := recon.batches[i].(dir := dir, tier := tier, deferred := deferred);
    var bs := recon.batches[i := b];
    FilesKept(recon.batches, bs);
    assert Ids(bs) == Ids(recon.batches);
    assert forall k :: 0 <= k < |bs| && k != i ==> bs[k] == recon.batches[k];
    assert BatchOk(recon.batches[i]);
    hide ValidRepoPath, AllFiles, PathBytes, Distinct;
    assert BatchOk(b) <==> FieldsOk(b);
    assert BatchesOk(bs) <==> BatchOk(b) by {
      if BatchesOk(bs) { assert BatchOk(bs[i]); }
    }
  }

  lemma {:induction false} FilesKept(bs: seq<ReconBatch>, cs: seq<ReconBatch>)
    requires |bs| == |cs| && forall k :: 0 <= k < |bs| ==> bs[k].files == cs[k].files
    ensures AllFiles(bs) == AllFiles(cs)
  {
    if bs != [] { FilesKept(bs[..|bs| - 1], cs[..|cs| - 1]); }
  }

  /** A count may be left out; one that is there must be the number of batches or of files. */
  lemma CountsAre(recon: Recon, batchCount: Option<int>, filesInScope: Option<int>)
    requires WellFormed(recon)
    ensures WellFormed(recon.(batchCount := batchCount, filesInScope := filesInScope)) <==>
              && (batchCount == None || batchCount == Some(|recon.batches|))
              && (filesInScope == None || filesInScope == Some(|AllFiles(recon.batches)|))
  {
    hide BatchesOk, Distinct, AllFiles;
  }

  /** `batch_files`: each id with its sorted files. */
  function BatchFiles(bs: seq<ReconBatch>): map<int, seq<string>> {
    if bs == [] then map[]
    else BatchFiles(bs[..|bs| - 1])[bs[|bs| - 1].id := Sort(bs[|bs| - 1].files, LexLeq)]
  }

  // ---- Growing a prefix by one batch ----

  lemma PathBytesAppend(a: seq<string>, b: seq<string>)
    ensures PathBytes(a + b) == PathBytes(a) + PathBytes(b)
  {
    if b == [] {
      assert a + b == a;
    } else {
      assert (a + b)[..|a + b| - 1] == a + b[..|b| - 1];
      PathBytesAppend(a, b[..|b| - 1]);
    }
  }

  lemma AllFilesSnoc(bs: seq<ReconBatch>, b: ReconBatch)
    ensures AllFiles(bs + [b]) == AllFiles(bs) + b.files
    ensures Ids(bs + [b]) == Ids(bs) + [b.id]
  {
    assert (bs + [b])[..|bs|] == bs;
  }

  lemma {:induction false} AllFilesPrefix(bs: seq<ReconBatch>, n: nat)
    requires n <= |bs|
    ensures AllFiles(bs[..n]) <= AllFiles(bs)
    ensures PathBytes(AllFiles(bs[..n])) <= PathBytes(AllFiles(bs))
    decreases |bs|
  {
    if n == |bs| {
      assert bs[..n] == bs;
    } else {
      var front := bs[..|bs| - 1];
      assert front[..n] == bs[..n];
      AllFilesPrefix(front, n);
      PathBytesAppend(AllFiles(front), bs[|bs| - 1].files);
    }
  }

  lemma PrefixOk(bs: seq<ReconBatch>, n: nat)
    requires n <= |bs| && BatchesOk(bs)
    ensures BatchesOk(bs[..n])
  {
    hide BatchOk;
    AllFilesPrefix(bs, n);
    var a := AllFiles(bs[..n]);
    assert forall k :: 0 <= k < |a| ==> a[k] == AllFiles(bs)[k];
    assert forall k :: 0 <= k < n ==> Ids(bs[..n])[k] == Ids(bs)[k];
  }

  lemma OneMoreBatch(bs: seq<ReconBatch>, b: ReconBatch)
    requires BatchesOk(bs)
    ensures BatchesOk(bs + [b]) <==>
            && BatchOk(b) && b.id !in Ids(bs)
            && Distinct(b.files) && Elements(AllFiles(bs)) !! Elements(b.files)
            && |AllFiles(bs)| + |b.files| <= MAX_TOTAL_FILES
            && PathBytes(AllFiles(bs)) + PathBytes(b.files) <= MAX_BATCH_PATH_BYTES
  {
    BatchOkSnoc(bs, b);
    AllFilesSnoc(bs, b);
    PathBytesAppend(AllFiles(bs), b.files);
    DistinctAppend(AllFiles(bs), b.files);
    DistinctAppend(Ids(bs), [b.id]);
    DistinctSingleton(b.id);
    assert Elements([b.id]) == {b.id};
    assert b.id in Ids(bs) <==> b.id in Elements(Ids(bs));
    hide BatchOk, Distinct, AllFiles, PathBytes, Ids, Elements;
  }

  lemma BatchOkSnoc(bs: seq<ReconBatch>, b: ReconBatch)
    ensures (forall i :: 0 <= i < |bs + [b]| ==> BatchOk((bs + [b])[i]))
            <==> (forall i :: 0 <= i < |bs| ==> BatchOk(bs[i])) && BatchOk(b)
  {
    hide BatchOk;
    assert (bs + [b])[|bs|] == b;
    assert forall i :: 0 <= i < |bs| ==> (bs + [b])[i] == bs[i];
  }

  lemma DistinctSingleton<T(!new)>(x: T)
    ensures Distinct([x])
  {
  }

  // ---- The validator as it runs ----

  /** The checks on one raw batch, given what the earlier batches used up. */
  method CheckBatch(b: ReconBatch, seenIds: set<int>, seenFiles: set<string>, totalBytes: nat,
                    ghost done: seq<ReconBatch>)
      returns (ok: bool)
    requires BatchesOk(done) && seenIds == Elements(Ids(done)) && seenFiles == Elements(AllFiles(done))
    requires totalBytes == PathBytes(AllFiles(done))
    ensures ok <==> BatchesOk(done + [b])
  {
    OneMoreBatch(done, b);
    BatchesAreDistinct(done);
    CountDistinct(b.files);
    assert b.id in Ids(done) <==> b.id in Elements(Ids(done));
    hide BatchesOk, Distinct, PathBytes, ValidRepoPath, AllFiles, Ids;
    if b.id < 1 || b.id in seenIds {
      return false;
    }
    if b.files == [] || |b.files| > MAX_BATCH_FILES || exists k :: 0 <= k < |b.files| && !ValidRepoPath(b.files[k]) {
      return false;
    }
    var files := Elements(b.files);
    hide Elements;
    if |b.files| != |files| || seenFiles * files != {} {
      return false;
    }
    DistinctUnionCount(seenFiles, files);
    var bytes := TotalPathBytes(b.files);
    if |seenFiles + files| > MAX_TOTAL_FILES || totalBytes + bytes > MAX_BATCH_PATH_BYTES {
      return false;
    }
    if b.dir.Some? && !b.dir.value.Text? {
      return false;
    }
    if b.tier.Some? && !(b.tier.value.Text? && b.tier.value.text in {"critical", "normal", "low"}) {
      return false;
    }
    ok := b.deferred.Some? ==> b.deferred.value.Boolean?;
  }

  lemma SeenGrows(done: seq<ReconBatch>, b: ReconBatch)
    ensures Elements(Ids(done + [b])) == Elements(Ids(done)) + {b.id}
    ensures Elements(AllFiles(done + [b])) == Elements(AllFiles(done)) + Elements(b.files)
    ensures PathBytes(AllFiles(done + [b])) == PathBytes(AllFiles(done)) + PathBytes(b.files)
    ensures BatchFiles(done + [b]) == BatchFiles(done)[b.id := Sort(b.files, LexLeq)]
  {
    AllFilesSnoc(done, b);
    PathBytesAppend(AllFiles(done), b.files);
    ElementsAppend(AllFiles(done), b.files);
    ElementsAppend(Ids(done), [b.id]);
    assert Elements([b.id]) == {b.id};
    assert (done + [b])[..|done|] == done;
  }

  lemma BatchesAreDistinct(bs: seq<ReconBatch>)
    requires BatchesOk(bs)
    ensures |Elements(AllFiles(bs))| == |AllFiles(bs)|
  {
    DistinctCount(AllFiles(bs));
  }

  lemma DistinctUnionCount<T>(a: set<T>, b: set<T>)
    requires a * b == {}
    ensures a !! b && |a + b| == |a| + |b|
  {
    forall x | x in a ensures x !in b { assert x in b ==> x in a * b; }
  }

  method TotalPathBytes(paths: seq<string>) returns (total: nat)
    ensures total == PathBytes(paths)
  {
    total := 0;
    for i := 0 to |paths|
      invariant total == PathBytes(paths[..i])
    {
      assert paths[..i + 1][..i] == paths[..i];
      total := total + Utf8Length(paths[i]);
    }
    assert paths[..|paths|] == paths;
  }

  /** Accepts exactly the well-formed documents, and returns each batch's sorted files with the covered ids. */
  method ValidateReconPlan(recon: Recon) returns (r: Result<(map<int, seq<string>>, seq<int>)>)
    ensures r.Success? <==> WellFormed(recon)
    ensures r.Success? ==> r.value == (BatchFiles(recon.batches), recon.covered)
  {
    hide BatchesOk, Distinct, AllFiles, PathBytes, Ids, Sort, BatchFiles, Utf8Length, ValidRepoPath;
    var raw := recon.batches;
    if raw == [] || |raw| > MAX_BATCHES {
      return Failure("recon batches are missing, empty, or over the hard limit");
    }
    var seenIds: set<int>, seenFiles: set<string>, totalBytes: nat, batchFiles: map<int, seq<string>> := {}, {}, 0,
        map[];
    NoBatches();
    assert raw[..0] == [];
    for i := 0 to |raw|
      invariant BatchesOk(raw[..i]) && seenIds == Elements(Ids(raw[..i])) && seenFiles == Elements(AllFiles(raw[..i]))
      invariant totalBytes == PathBytes(AllFiles(raw[..i]))
      invariant batchFiles == BatchFiles(raw[..i])
    {
      var b := raw[i];
      assert raw[..i + 1] == raw[..i] + [b];
      var ok := CheckBatch(b, seenIds, seenFiles, totalBytes, raw[..i]);
      if !ok {
        if BatchesOk(raw) { PrefixOk(raw, i + 1); }
        return Failure("a recon batch is malformed");
      }
      SeenGrows(raw[..i], b);
      var bytes := TotalPathBytes(b.files);
      seenIds, seenFiles, totalBytes := seenIds + {b.id}, seenFiles + Elements(b.files), totalBytes + bytes;
      batchFiles := batchFiles[b.id := Sort(b.files, LexLeq)];
    }
    assert raw[..|raw|] == raw;
    BatchesAreDistinct(raw);
    if recon.batchCount.Some? && recon.batchCount.value != |raw| {
      return Failure("recon batch_count does not match its batches");
    }
    if recon.filesInScope.Some? && recon.filesInScope.value != |seenFiles| {
      return Failure("recon files_in_scope does not match its unique files");
    }
    var covered := Elements(recon.covered);
    CountDistinct(recon.covered);
    CoveredKnown(recon.covered, Ids(raw));
    if |recon.covered| != |covered| || !(covered <= seenIds) {
      return Failure("recon covered contains duplicate or unknown batch IDs");
    }
    r := Success((batchFiles, recon.covered));
  }

  lemma NoBatches()
    ensures BatchesOk([]) && Elements(Ids([])) == {} && Elements(AllFiles([])) == {} && PathBytes(AllFiles([])) == 0
    ensures BatchFiles([]) == map[]
  {
  }

  lemma CoveredKnown(covered: seq<int>, ids: seq<int>)
    ensures Elements(covered) <= Elements(ids) <==> forall i :: 0 <= i < |covered| ==> covered[i] in ids
  {
    if Elements(covered) <= Elements(ids) {
      forall i | 0 <= i < |covered| ensures covered[i] in ids { assert covered[i] in Elements(covered); }
    }
  }

  // ---- What the accepted batch map says ----

  lemma {:induction false} BatchFilesMeaning(bs: seq<ReconBatch>, i: nat)
    requires BatchesOk(bs) && i < |bs|
    ensures bs[i].id in BatchFiles(bs)
    ensures var files := BatchFiles(bs)[bs[i].id];
            SortedBy(files, LexLeq) && Distinct(files) && files != [] && Elements(files) == Elements(bs[i].files)
    decreases |bs|
  {
    var n := |bs| - 1;
    PrefixOk(bs, n);
    assert bs == bs[..n] + [bs[n]];
    OneMoreBatch(bs[..n], bs[n]);
    hide BatchesOk;
    if i == n {
      LexIsTotalOrder();
      SortCorrect(bs[n].files, LexLeq);
      SortElements(bs[n].files, LexLeq);
    } else {
      BatchFilesMeaning(bs[..n], i);
      assert Ids(bs[..n])[i] == bs[i].id;
    }
  }

  lemma {:induction false} BatchFilesKeys(bs: seq<ReconBatch>)
    ensures forall id :: id in BatchFiles(bs) <==> id in Ids(bs)
  {
    if bs != [] {
      var n := |bs| - 1;
      BatchFilesKeys(bs[..n]);
      AllFilesSnoc(bs[..n], bs[n]);
      assert bs == bs[..n] + [bs[n]];
    }
  }

  lemma FilesAreAmong(bs: seq<ReconBatch>, i: nat, j: nat)
    requires i < j <= |bs|
    ensures Elements(bs[i].files) <= Elements(AllFiles(bs[..j]))
  {
    hide AllFiles;
    AllFilesPrefix(bs[..j], i + 1);
    assert bs[..j][..i + 1] == bs[..i] + [bs[i]];
    AllFilesSnoc(bs[..i], bs[i]);
    forall f | f in bs[i].files ensures f in AllFiles(bs[..j]) {
      PrefixMember(AllFiles(bs[..i]) + bs[i].files, AllFiles(bs[..j]), f);
    }
  }

  /** Distinct batches have disjoint files. */
  lemma BatchFilesDisjoint(bs: seq<ReconBatch>, i: nat, j: nat)
    requires BatchesOk(bs) && i < j < |bs|
    ensures Elements(bs[i].files) !! Elements(bs[j].files)
  {
    PrefixOk(bs, j + 1);
    PrefixOk(bs, j);
    assert bs[..j + 1] == bs[..j] + [bs[j]];
    OneMoreBatch(bs[..j], bs[j]);
    FilesAreAmong(bs, i, j);
    hide BatchesOk, AllFiles, Elements;
  }

  /** Every batch has a nonempty duplicate-free file list, and no file is in two batches. */
  ghost predicate DisjointFiles(batchFiles: map<int, seq<string>>) {
    && (forall b :: b in batchFiles ==> batchFiles[b] != [] && Distinct(batchFiles[b]))
    && (forall b, c :: b in batchFiles && c in batchFiles && b != c ==>
          Elements(batchFiles[b]) !! Elements(batchFiles[c]))
  }

  lemma AcceptedFilesAreDisjoint(bs: seq<ReconBatch>)
    requires BatchesOk(bs)
    ensures DisjointFiles(BatchFiles(bs))
  {
    BatchFilesKeys(bs);
    hide BatchFiles, BatchesOk;
    var m := BatchFiles(bs);
    forall b | b in m ensures exists i :: 0 <= i < |bs| && bs[i].id == b {
      var i :| 0 <= i < |bs| && Ids(bs)[i] == b;
      assert bs[i].id == b;
    }
    forall b | b in m ensures m[b] != [] && Distinct(m[b]) {
      var i :| 0 <= i < |bs| && bs[i].id == b;
      BatchFilesMeaning(bs, i);
    }
    forall b, c | b in m && c in m && b != c ensures Elements(m[b]) !! Elements(m[c]) {
      var i :| 0 <= i < |bs| && bs[i].id == b;
      var j :| 0 <= j < |bs| && bs[j].id == c;
      BatchFilesMeaning(bs, i);
      BatchFilesMeaning(bs, j);
      if i < j { BatchFilesDisjoint(bs, i, j); } else { BatchFilesDisjoint(bs, j, i); }
    }
  }

  // ---- The planner's output passes ----

  function TierName(tier: ReconPlan.Tier): string {
    match tier case Critical => "critical" case Normal => "normal" case Low => "low"
  }

  function AsReconBatches(bs: seq<ReconPlan.Batch>): seq<ReconBatch> {
    seq(|bs|, i requires 0 <= i < |bs| =>
      ReconBatch(bs[i].id, bs[i].files, Some(Text(bs[i].dir)), Some(Text(TierName(bs[i].tier))),
                 Some(Boolean(bs[i].deferred))))
  }

  /** recon.json as seeded from a plan. */
  function ReconOf(plan: ReconPlan.Plan): Recon {
    Recon(AsReconBatches(plan.batches), Some(plan.batchCount), Some(plan.filesInScope), plan.covered)
  }

  /** The checkpoint's hard limits, read off the scope and the plan. */
  ghost predicate WithinHardLimits(inScope: seq<string>, plan: ReconPlan.Plan) {
    && inScope != []
    && (forall i :: 0 <= i < |inScope| ==> ValidRepoPath(inScope[i]))
    && |inScope| <= MAX_TOTAL_FILES
    && PathBytes(inScope) <= MAX_BATCH_PATH_BYTES
    && |plan.batches| <= MAX_BATCHES
    && (forall i :: 0 <= i < |plan.batches| ==> |plan.batches[i].files| <= MAX_BATCH_FILES)
  }

  lemma OnePathBytes(path: string)
    ensures PathBytes([path]) == Utf8Length(path)
  {
    hide Utf8Length;
    assert [path][..0] == [];
  }

  lemma PathBytesRemove(b: seq<string>, j: nat)
    requires j < |b|
    ensures PathBytes(b) == Utf8Length(b[j]) + PathBytes(b[..j] + b[j + 1..])
  {
    hide Utf8Length, PathBytes;
    OnePathBytes(b[j]);
    var p, q := b[..j], b[j + 1..];
    PathBytesAppend(p + [b[j]], q);
    PathBytesAppend(p, [b[j]]);
    PathBytesAppend(p, q);
    assert b == p + [b[j]] + q;
  }

  lemma {:induction false} PathBytesPermutation(a: seq<string>, b: seq<string>)
    requires multiset(a) == multiset(b)
    ensures PathBytes(a) == PathBytes(b)
    decreases |a|
  {
    hide PathBytes, Utf8Length;
    assert |multiset(a)| == |multiset(b)|;
    if a == [] {
      assert b == a;
    } else {
      assert a[0] in multiset(b);
      var j :| 0 <= j < |b| && b[j] == a[0];
      PathBytesRemove(a, 0);
      PathBytesRemove(b, j);
      MultisetRemove(a, 0);
      MultisetRemove(b, j);
      PathBytesPermutation(a[..0] + a[1..], b[..j] + b[j + 1..]);
    }
  }

  lemma {:induction false} AllFilesOfPlan(bs: seq<ReconPlan.Batch>)
    ensures AllFiles(AsReconBatches(bs)) == Flatten(ReconPlan.FilesOf(bs))
  {
    if bs == [] {
      assert ReconPlan.FilesOf(bs) == [];
    } else {
      var n := |bs| - 1;
      AllFilesOfPlan(bs[..n]);
      assert AsReconBatches(bs) == AsReconBatches(bs[..n]) + [AsReconBatches(bs)[n]];
      AllFilesSnoc(AsReconBatches(bs[..n]), AsReconBatches(bs)[n]);
      assert ReconPlan.FilesOf(bs) == ReconPlan.FilesOf(bs[..n]) + [bs[n].files];
      FlattenSnoc(ReconPlan.FilesOf(bs[..n]), bs[n].files);
    }
  }

  /** A planner result passes the checkpoint's validation exactly when the hard limits allow it. */
  lemma {:induction false} PlanPassesValidation(inScope: seq<string>, cfg: ReconPlan.Config)
    requires SortedBy(inScope, LexLeq) && Distinct(inScope) && cfg.maxFiles >= 1
    ensures var plan := ReconPlan.PlanFor(inScope, cfg);
            WellFormed(ReconOf(plan)) <==> WithinHardLimits(inScope, plan)
  {
    hide ReconPlan.PlanBatches, ReconPlan.OrderedDirs, ReconPlan.Missing, ReconPlan.Oversize;
    var plan := ReconPlan.PlanFor(inScope, cfg);
    var bs := plan.batches;
    var raw := AsReconBatches(bs);
    ReconPlan.PlanIsOrderedPartition(inScope, cfg);
    ReconPlan.BatchesAreNumberedAndBounded(inScope, ReconPlan.OrderedDirs(inScope), 1, cfg);
    AllFilesOfPlan(bs);
    var files := AllFiles(raw);
    PathBytesPermutation(files, inScope);
    assert |multiset(files)| == |multiset(inScope)|;
    DistinctMultiset(inScope);
    MultisetDistinct(files);
    SameMembers(files, inScope);
    hide Distinct, ValidRepoPath, PathBytes;
    BatchesNonempty(bs, cfg);
    BatchPathsValid(bs, inScope);
    BatchChecks(bs, cfg);
    Verdict(inScope, plan);
  }

  lemma Verdict(inScope: seq<string>, plan: ReconPlan.Plan)
    requires var raw := AsReconBatches(plan.batches);
             && plan.batchCount == |plan.batches| && plan.filesInScope == |inScope| && plan.covered == []
             && |AllFiles(raw)| == |inScope| && PathBytes(AllFiles(raw)) == PathBytes(inScope)
             && Distinct(AllFiles(raw)) && Distinct(Ids(raw))
             && (plan.batches == [] <==> inScope == [])
    requires (forall i :: 0 <= i < |plan.batches| ==> BatchOk(AsReconBatches(plan.batches)[i]))
             <==> && (forall i :: 0 <= i < |plan.batches| ==> |plan.batches[i].files| <= MAX_BATCH_FILES)
                  && (forall i :: 0 <= i < |inScope| ==> ValidRepoPath(inScope[i]))
    ensures WellFormed(ReconOf(plan)) <==> WithinHardLimits(inScope, plan)
  {
    hide BatchOk, AllFiles, PathBytes, ValidRepoPath, Ids;
    assert |AsReconBatches(plan.batches)| == |plan.batches|;
  }

  lemma SameMembers(xs: seq<string>, ys: seq<string>)
    requires multiset(xs) == multiset(ys)
    ensures forall x :: x in xs <==> x in ys
    ensures xs == [] <==> ys == []
  {
    forall x ensures x in xs <==> x in ys {
      assert x in xs <==> x in multiset(xs);
      assert x in ys <==> x in multiset(ys);
    }
    assert xs != [] ==> xs[0] in ys;
    assert ys != [] ==> ys[0] in xs;
  }

  lemma BatchesNonempty(bs: seq<ReconPlan.Batch>, cfg: ReconPlan.Config)
    requires ReconPlan.NumberedAndBounded(bs, 1, cfg)
    ensures forall i :: 0 <= i < |bs| ==> |bs[i].files| >= 1
    ensures bs == [] <==> AllFiles(AsReconBatches(bs)) == []
  {
    if bs != [] {
      var n := |bs| - 1;
      var raw := AsReconBatches(bs);
      assert raw == raw[..n] + [raw[n]];
      AllFilesSnoc(raw[..n], raw[n]);
    }
  }

  lemma BatchPathsValid(bs: seq<ReconPlan.Batch>, inScope: seq<string>)
    requires forall f :: f in AllFiles(AsReconBatches(bs)) <==> f in inScope
    ensures (forall i, k :: 0 <= i < |bs| && 0 <= k < |bs[i].files| ==> ValidRepoPath(bs[i].files[k]))
            <==> forall i :: 0 <= i < |inScope| ==> ValidRepoPath(inScope[i])
  {
    hide ValidRepoPath;
    AllFilesOfPlan(bs);
    var parts := ReconPlan.FilesOf(bs);
    if forall i :: 0 <= i < |inScope| ==> ValidRepoPath(inScope[i]) {
      forall i, k | 0 <= i < |bs| && 0 <= k < |bs[i].files| ensures ValidRepoPath(bs[i].files[k]) {
        assert bs[i].files[k] in parts[i];
        InFlatten(parts, bs[i].files[k]);
        var j :| 0 <= j < |inScope| && inScope[j] == bs[i].files[k];
      }
    }
    if forall i, k :: 0 <= i < |bs| && 0 <= k < |bs[i].files| ==> ValidRepoPath(bs[i].files[k]) {
      forall i | 0 <= i < |inScope| ensures ValidRepoPath(inScope[i]) {
        InFlatten(parts, inScope[i]);
        var j :| 0 <= j < |parts| && inScope[i] in parts[j];
        var k :| 0 <= k < |parts[j]| && parts[j][k] == inScope[i];
        assert bs[j].files[k] == inScope[i];
      }
    }
  }

  lemma BatchChecks(bs: seq<ReconPlan.Batch>, cfg: ReconPlan.Config)
    requires forall i :: 0 <= i < |bs| ==> |bs[i].files| >= 1 && bs[i].id >= 1
    ensures (forall i :: 0 <= i < |bs| ==> BatchOk(AsReconBatches(bs)[i]))
            <==> && (forall i :: 0 <= i < |bs| ==> |bs[i].files| <= MAX_BATCH_FILES)
                 && (forall i, k :: 0 <= i < |bs| && 0 <= k < |bs[i].files| ==> ValidRepoPath(bs[i].files[k]))
  {
    hide ValidRepoPath;
    var raw := AsReconBatches(bs);
    assert forall i :: 0 <= i < |bs| ==> raw[i].files == bs[i].files && raw[i].id == bs[i].id;
    assert forall i :: 0 <= i < |bs| ==> FieldsOk(raw[i]);
    if forall i :: 0 <= i < |bs| ==> BatchOk(raw[i]) {
      forall i | 0 <= i < |bs|
        ensures |bs[i].files| <= MAX_BATCH_FILES
        ensures forall k :: 0 <= k < |bs[i].files| ==> ValidRepoPath(bs[i].files[k])
      {
        assert BatchOk(raw[i]);
      }
    }
  }
}
