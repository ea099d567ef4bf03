/** The deterministic batch planner, `build_plan` of bench/scorer/recon_plan.py. */
module ReconPlan {
  import opened Wrappers
  import opened Sequences
  import opened Sorting
  import opened Packing
  import Paths

  const DEFAULT_MAX_BATCH_FILES: nat := 25
  const DEFAULT_MAX_BATCH_BYTES: nat := 131072

  const SINK_DIR_HINTS: set<string> :=
    {"auth", "authz", "authn", "api", "handlers", "handler", "middleware", "controllers", "controller", "routes",
     "router", "security", "payment", "payments", "billing", "db", "database", "crypto", "webhooks", "webhook"}

  const LOW_PRIORITY_DIR_HINTS: set<string> :=
    {"docs", "doc", "documentation", "assets", "static", "public", "images", "img"}

  datatype Tier = Critical | Normal | Low

  /** One entry of the caller's size map; a path may also have no entry. */
  datatype RawSize = Flag | Unparsable | Number(n: int)

  datatype Config = Config(sizes: map<string, Option<nat>>, maxFiles: nat, maxBytes: nat, large: bool, firstPass: int)

  datatype SizeStatus = Known | Oversized | MissingSize

  datatype Batch = Batch(id: nat, dir: string, tier: Tier, files: seq<string>, byteCount: Option<nat>,
                         status: SizeStatus, oversized: bool, missing: seq<string>, deferred: bool)

  datatype Plan = Plan(filesInScope: nat, batchCount: nat, large: bool, budget: Option<int>, maxFiles: nat,
                       maxBytes: nat, missing: seq<string>, oversized: seq<string>, batches: seq<Batch>,
                       covered: seq<int>)

  // ---- Pure parts ----

  /** `_positive_int`; `None` stands for a value that does not parse as an integer. */
  function PositiveInt(value: Option<int>, default: nat): nat {
    match value
    case None => default
    case Some(n) => if n > 0 then n else default
  }

  function NormalizedSize(path: string, source: map<string, RawSize>): Option<nat> {
    if path !in source then None
    else match source[path]
         case Flag => None
         case Unparsable => None
         case Number(n) => if n >= 0 then Some(n) else None
  }

  function TopLevelDir(path: string): string {
    var i := Paths.IndexOf(path, '/', 0);
    if i < |path| then path[..i] else "."
  }

  function ToLower(s: string): string {
    seq(|s|, i requires 0 <= i < |s| => if 'A' <= s[i] <= 'Z' then ((s[i] as int) + 32) as char else s[i])
  }

  predicate HasHint(directory: string, hints: set<string>) {
    exists i :: 0 <= i < |Paths.Components(directory)| &&
                Paths.Components(directory)[i] != "" && ToLower(Paths.Components(directory)[i]) in hints
  }

  function ClassifyTier(directory: string): Tier {
    if directory == "." then Normal
    else if HasHint(directory, SINK_DIR_HINTS) then Critical
    else if HasHint(directory, LOW_PRIORITY_DIR_HINTS) then Low
    else Normal
  }

  function TierRank(tier: Tier): nat {
    match tier case Critical => 0 case Normal => 1 case Low => 2
  }

  predicate DirLeq(a: string, b: string) {
    var ra, rb := TierRank(ClassifyTier(a)), TierRank(ClassifyTier(b));
    ra < rb || (ra == rb && LexLeq(a, b))
  }

  /** The promised order of files: tier, then directory, then path. */
  predicate PlanLeq(p: string, q: string) {
    if TopLevelDir(p) == TopLevelDir(q) then LexLeq(p, q) else DirLeq(TopLevelDir(p), TopLevelDir(q))
  }

  function Filter<T>(xs: seq<T>, keep: T -> bool): seq<T> {
    if xs == [] then []
    else if keep(xs[|xs| - 1]) then Filter(xs[..|xs| - 1], keep) + [xs[|xs| - 1]]
    else Filter(xs[..|xs| - 1], keep)
  }

  function InScope(files: seq<string>, excluded: string -> bool): seq<string> {
    Sort(Dedup(Filter(files, f => f != "" && !excluded(f))), LexLeq)
  }

  function InDir(paths: seq<string>, dir: string): seq<string> {
    Filter(paths, (p: string) => TopLevelDir(p) == dir)
  }

  function Dirs(paths: seq<string>): seq<string> {
    seq(|paths|, i requires 0 <= i < |paths| => TopLevelDir(paths[i]))
  }

  function OrderedDirs(inScope: seq<string>): seq<string> {
    Sort(Dedup(Dirs(inScope)), DirLeq)
  }

  function SizeIn(sizes: map<string, Option<nat>>, path: string): Option<nat> {
    if path in sizes then sizes[path] else None
  }

  function Lim(cfg: Config): Limits<string> {
    Limits((p: string) => SizeIn(cfg.sizes, p), cfg.maxFiles, cfg.maxBytes)
  }

  predicate Unknown(cfg: Config, path: string) {
    SizeIn(cfg.sizes, path).None?
  }

  predicate TooBig(cfg: Config, path: string) {
    SizeIn(cfg.sizes, path).Some? && SizeIn(cfg.sizes, path).value > cfg.maxBytes
  }

  function Missing(cfg: Config, paths: seq<string>): seq<string> {
    Filter(paths, p => Unknown(cfg, p))
  }

  function Oversize(cfg: Config, paths: seq<string>): seq<string> {
    Filter(paths, p => TooBig(cfg, p))
  }

  /** `_batch`, with the deferral flag that `flush` adds. */
  function MakeBatch(id: nat, dir: string, paths: seq<string>, cfg: Config): Batch {
    var missing, oversized := Missing(cfg, paths), Oversize(cfg, paths);
    Batch(id, dir, ClassifyTier(dir), paths,
          if missing != [] then None else Some(KnownWeight(paths, Lim(cfg))),
          if missing != [] then MissingSize else if oversized != [] then Oversized else Known,
          oversized != [], missing, cfg.large && id > cfg.firstPass)
  }

  function Numbered(dir: string, parts: seq<seq<string>>, firstId: nat, cfg: Config): seq<Batch> {
    seq(|parts|, i requires 0 <= i < |parts| => MakeBatch(firstId + i, dir, parts[i], cfg))
  }

  /** Reference plan: the greedy packing of each directory in turn, numbered consecutively. */
  function PlanBatches(inScope: seq<string>, dirs: seq<string>, firstId: nat, cfg: Config): seq<Batch> {
    if dirs == [] then []
    else
      var parts := Greedy(InDir(inScope, dirs[0]), Lim(cfg));
      Numbered(dirs[0], parts, firstId, cfg) + PlanBatches(inScope, dirs[1..], firstId + |parts|, cfg)
  }

  function FilesOf(batches: seq<Batch>): seq<seq<string>> {
    seq(|batches|, i requires 0 <= i < |batches| => batches[i].files)
  }

  function ConfigFor(inScope: seq<string>, threshold: int, firstPass: int, source: map<string, RawSize>,
                     maxFiles: Option<int>, maxBytes: Option<int>): Config
  {
    Config(map p | p in inScope :: NormalizedSize(p, source),
           PositiveInt(maxFiles, DEFAULT_MAX_BATCH_FILES), PositiveInt(maxBytes, DEFAULT_MAX_BATCH_BYTES),
           |inScope| > threshold, firstPass)
  }

  function PlanFor(inScope: seq<string>, cfg: Config): Plan {
    var batches := PlanBatches(inScope, OrderedDirs(inScope), 1, cfg);
    Plan(|inScope|, |batches|, cfg.large, if cfg.large then Some(cfg.firstPass) else None,
         cfg.maxFiles, cfg.maxBytes, Missing(cfg, inScope), Oversize(cfg, inScope), batches, [])
  }

  // ---- Facts about the pure parts ----

  lemma {:induction false} FilterAppend<T>(xs: seq<T>, ys: seq<T>, keep: T -> bool)
    ensures Filter(xs + ys, keep) == Filter(xs, keep) + Filter(ys, keep)
  {
    if ys == [] {
      assert xs + ys == xs;
    } else {
      assert (xs + ys)[..|xs + ys| - 1] == xs + ys[..|ys| - 1];
      FilterAppend(xs, ys[..|ys| - 1], keep);
    }
  }

  lemma {:induction false} FilterMultiset<T(!new)>(xs: seq<T>, keep: T -> bool)
    ensures forall x :: multiset(Filter(xs, keep))[x] == if keep(x) then multiset(xs)[x] else 0
  {
    if xs != [] {
      FilterMultiset(xs[..|xs| - 1], keep);
      assert xs == xs[..|xs| - 1] + [xs[|xs| - 1]];
    }
  }

  lemma FilterMembers<T(!new)>(xs: seq<T>, keep: T -> bool)
    ensures forall x :: x in Filter(xs, keep) <==> x in xs && keep(x)
  {
    FilterMultiset(xs, keep);
    forall x ensures x in Filter(xs, keep) <==> x in xs && keep(x) {
      assert x in Filter(xs, keep) <==> x in multiset(Filter(xs, keep));
      assert x in xs <==> x in multiset(xs);
    }
  }

  lemma {:induction false} FilterSorted<T(!new)>(xs: seq<T>, keep: T -> bool, leq: (T, T) -> bool)
    requires SortedBy(xs, leq)
    ensures SortedBy(Filter(xs, keep), leq)
  {
    if xs != [] {
      var front := xs[..|xs| - 1];
      FilterSorted(front, keep, leq);
      FilterMembers(front, keep);
      var ys := Filter(front, keep);
      forall i | 0 <= i < |ys| ensures leq(ys[i], xs[|xs| - 1]) {
        assert ys[i] in front;
      }
    }
  }

  lemma InScopeCorrect(files: seq<string>, excluded: string -> bool)
    ensures SortedBy(InScope(files, excluded), LexLeq) && Distinct(InScope(files, excluded))
    ensures forall f :: f in InScope(files, excluded) <==> f in files && f != "" && !excluded(f)
  {
    var kept := Filter(files, f => f != "" && !excluded(f));
    FilterMembers(files, f => f != "" && !excluded(f));
    LexIsTotalOrder();
    DedupCorrect(kept);
    SortCorrect(Dedup(kept), LexLeq);
    SortElements(Dedup(kept), LexLeq);
  }

  lemma {:induction false} DirLeqIsTotalOrder()
    ensures TotalOrder(DirLeq)
  {
    LexIsTotalOrder();
  }

  lemma {:induction false} PlanLeqIsTotalOrder()
    ensures TotalOrder(PlanLeq)
  {
    LexIsTotalOrder();
    DirLeqIsTotalOrder();
  }

  // ---- The planner as it runs ----

  /** `_normalized_file_sizes`. */
  method NormalizedFileSizes(files: seq<string>, source: map<string, RawSize>) returns (sizes: map<string, Option<nat>>)
    ensures sizes == map p | p in files :: NormalizedSize(p, source)
  {
    sizes := map[];
    for i := 0 to |files|
      invariant sizes.Keys == set p | p in files[..i]
      invariant forall p :: p in sizes ==> sizes[p] == NormalizedSize(p, source)
    {
      var path := files[i];
      assert files[..i + 1] == files[..i] + [path];
      if path !in source {
        sizes := sizes[path := None];
      } else {
        match source[path]
        case Flag => sizes := sizes[path := None];
        case Unparsable => sizes := sizes[path := None];
        case Number(n) => sizes := sizes[path := if n >= 0 then Some(n) else None];
      }
    }
    assert files[..|files|] == files;
  }

  /** The `by_dir` dictionary; `keys` lists its keys in insertion order. */
  method GroupByDirectory(inScope: seq<string>) returns (byDir: map<string, seq<string>>, keys: seq<string>)
    ensures Distinct(keys) && Elements(keys) == Elements(Dirs(inScope)) == byDir.Keys
    ensures forall d :: d in byDir ==> byDir[d] == InDir(inScope, d)
    ensures forall d :: d in keys <==> d in byDir
  {
    hide TopLevelDir, InDir, Dirs, Distinct, Elements;
    byDir, keys := map[], [];
    NothingGrouped(inScope);
    for i := 0 to |inScope|
      invariant Distinct(keys) && forall d :: d in keys <==> d in byDir
      invariant forall d :: InDir(inScope[..i], d) == if d in byDir then byDir[d] else []
      invariant forall d :: d in byDir ==> byDir[d] != []
    {
      var path := inScope[i];
      var directory := TopLevelDir(path);
      InDirStep(inScope, i);
      if directory !in byDir {
        DistinctSnoc(keys, directory);
        byDir := byDir[directory := []];
        keys := keys + [directory];
      }
      byDir := byDir[directory := byDir[directory] + [path]];
    }
    KeySet(keys, byDir);
    assert inScope[..|inScope|] == inScope;
    KeysAreDirs(inScope, byDir.Keys);
  }

  lemma KeysAreDirs(inScope: seq<string>, keys: set<string>)
    requires forall d :: d in keys <==> InDir(inScope, d) != []
    ensures Elements(Dirs(inScope)) == keys
  {
    hide TopLevelDir;
    forall d ensures d in Elements(Dirs(inScope)) <==> d in keys { DirsWithPaths(inScope, d); }
  }

  lemma KeySet(keys: seq<string>, byDir: map<string, seq<string>>)
    requires forall d :: d in keys <==> d in byDir
    ensures Elements(keys) == byDir.Keys
  {
  }

  lemma NothingGrouped(inScope: seq<string>)
    ensures forall d :: InDir(inScope[..0], d) == []
    ensures Distinct<string>([])
  {
  }

  lemma InDirStep(inScope: seq<string>, i: nat)
    requires i < |inScope|
    ensures forall d :: InDir(inScope[..i + 1], d)
                        == InDir(inScope[..i], d) + if TopLevelDir(inScope[i]) == d then [inScope[i]] else []
  {
    hide TopLevelDir;
    assert inScope[..i + 1][..i] == inScope[..i] && inScope[..i + 1][i] == inScope[i];
  }

  lemma DirsWithPaths(inScope: seq<string>, d: string)
    ensures d in Dirs(inScope) <==> InDir(inScope, d) != []
  {
    hide TopLevelDir;
    FilterMembers(inScope, (p: string) => TopLevelDir(p) == d);
    if d in Dirs(inScope) {
      var k :| 0 <= k < |inScope| && Dirs(inScope)[k] == d;
      assert inScope[k] in InDir(inScope, d);
    }
    if InDir(inScope, d) != [] {
      assert InDir(inScope, d)[0] in inScope;
      var k :| 0 <= k < |inScope| && inScope[k] == InDir(inScope, d)[0];
      assert Dirs(inScope)[k] == d;
    }
  }

  /** The variables that `flush` rebinds in the enclosing function. */
  class Packer {
    var batches: seq<Batch>
    var nextId: nat
    var current: seq<string>
    var currentBytes: nat
    var oversizedFiles: seq<string>
    var missingFiles: seq<string>

    constructor (ghost cfg: Config)
      ensures batches == [] && current == [] && currentBytes == 0 && Tallied(cfg)
    {
      batches, nextId, current, currentBytes := [], 1, [], 0;
      oversizedFiles, missingFiles := [], [];
    }

    /** The counters and side lists always describe the batches emitted so far. */
    ghost predicate Tallied(cfg: Config)
      reads this`batches, this`nextId, this`missingFiles, this`oversizedFiles
    {
      && nextId == 1 + |batches|
      && missingFiles == Missing(cfg, Flatten(FilesOf(batches)))
      && oversizedFiles == Oversize(cfg, Flatten(FilesOf(batches)))
    }

    /** An empty group is not flushed; any other becomes the next numbered batch. */
    method Flush(directory: string, cfg: Config)
      requires Tallied(cfg)
      modifies this
      ensures Tallied(cfg)
      ensures current == [] && currentBytes == 0
      ensures batches == if old(current) == [] then old(batches)
                         else old(batches) + [MakeBatch(1 + |old(batches)|, directory, old(current), cfg)]
    {
      if current != [] {
        BatchAdded(batches, nextId, directory, current, cfg);
        batches := batches + [MakeBatch(nextId, directory, current, cfg)];
        oversizedFiles := oversizedFiles + Oversize(cfg, current);
        missingFiles := missingFiles + Missing(cfg, current);
        nextId := nextId + 1;
      }
      current, currentBytes := [], 0;
    }

    /** `flush` inside a directory begun after the batches `before`, whose closed groups are `parts`. */
    method FlushGroup(ghost parts: seq<seq<string>>, directory: string, cfg: Config, ghost before: seq<Batch>)
        returns (ghost more: seq<seq<string>>)
      requires Tallied(cfg) && batches == before + Numbered(directory, parts, 1 + |before|, cfg)
      modifies this
      ensures Tallied(cfg) && batches == before + Numbered(directory, more, 1 + |before|, cfg)
      ensures current == [] && currentBytes == 0
      ensures more == Closed(parts, old(current))
      ensures Flatten(more) == Flatten(parts) + old(current)
    {
      more := Closed(parts, current);
      FlattenSnoc(parts, current);
      hide Tallied, MakeBatch;
      assert current != [] ==>
          Numbered(directory, more, 1 + |before|, cfg)
          == Numbered(directory, parts, 1 + |before|, cfg) + [MakeBatch(1 + |batches|, directory, current, cfg)];
      Flush(directory, cfg);
    }

    ghost predicate OpenGroup(cfg: Config)
      reads this`current, this`currentBytes
    {
      AllKnown(current, Lim(cfg)) && currentBytes == KnownWeight(current, Lim(cfg))
    }

    /** The body of the packing loop: place the first path of `xs`. */
    method Place(path: string, directory: string, cfg: Config, ghost parts: seq<seq<string>>, ghost xs: seq<string>,
                 ghost whole: seq<seq<string>>, ghost before: seq<Batch>)
        returns (ghost more: seq<seq<string>>)
      requires xs != [] && xs[0] == path && OpenGroup(cfg)
      requires OnCourse(parts, current, xs, whole, Lim(cfg))
      requires Tallied(cfg) && batches == before + Numbered(directory, parts, 1 + |before|, cfg)
      modifies this
      ensures OpenGroup(cfg)
      ensures OnCourse(more, current, xs[1..], whole, Lim(cfg))
      ensures Tallied(cfg) && batches == before + Numbered(directory, more, 1 + |before|, cfg)
    {
      hide Tallied, Numbered, MakeBatch, Flatten, Greedy, OnCourse, Fits, KnownWeight, AllKnown;
      NoWeight(Lim(cfg));
      var size := SizeIn(cfg.sizes, path);
      assert Lim(cfg).weight(path) == size;
      if size.None? || size.value > cfg.maxBytes {
        StepIsolate(parts, current, xs, whole, Lim(cfg));
        more := FlushGroup(parts, directory, cfg, before);
        current := [path];
        more := FlushGroup(more, directory, cfg, before);
      } else {
        if current != [] { GrowTest(current, path, size.value, Lim(cfg)); }
        more := parts;
        if current != [] && (|current| >= cfg.maxFiles || currentBytes + size.value > cfg.maxBytes) {
          StepClose(parts, current, xs, whole, Lim(cfg));
          more := FlushGroup(parts, directory, cfg, before);
        }
        StepGrow(more, current, xs, whole, Lim(cfg));
        WeightGrows(current, path, size.value, Lim(cfg));
        current := current + [path];
        currentBytes := currentBytes + size.value;
      }
    }

    /** One directory of the packing loop. */
    method PackDirectory(directory: string, paths: seq<string>, cfg: Config)
      requires current == [] && currentBytes == 0 && Tallied(cfg)
      modifies this
      ensures current == [] && currentBytes == 0 && Tallied(cfg)
      ensures batches == old(batches) + Numbered(directory, Greedy(paths, Lim(cfg)), 1 + |old(batches)|, cfg)
    {
      hide MakeBatch, ClassifyTier, Tallied;
      ghost var whole, was := Greedy(paths, Lim(cfg)), batches;
      ghost var parts: seq<seq<string>> := [];
      var i := 0;
      assert [] + paths == paths[0..] && [] + whole == whole;
      while i < |paths|
        invariant 0 <= i <= |paths|
        invariant OpenGroup(cfg)
        invariant OnCourse(parts, current, paths[i..], whole, Lim(cfg))
        invariant Tallied(cfg) && batches == was + Numbered(directory, parts, 1 + |was|, cfg)
      {
        assert paths[i..][1..] == paths[i + 1..];
        parts := Place(paths[i], directory, cfg, parts, paths[i..], whole, was);
        i := i + 1;
      }
      StepClose(parts, current, paths[i..], whole, Lim(cfg));
      assert paths[i..] == [];
      parts := FlushGroup(parts, directory, cfg, was);
    }
  }

  lemma BatchAdded(batches: seq<Batch>, id: nat, directory: string, paths: seq<string>, cfg: Config)
    ensures var files := Flatten(FilesOf(batches + [MakeBatch(id, directory, paths, cfg)]));
            && Missing(cfg, files) == Missing(cfg, Flatten(FilesOf(batches))) + Missing(cfg, paths)
            && Oversize(cfg, files) == Oversize(cfg, Flatten(FilesOf(batches))) + Oversize(cfg, paths)
  {
    var b := MakeBatch(id, directory, paths, cfg);
    assert FilesOf(batches + [b]) == FilesOf(batches) + [paths];
    FlattenSnoc(FilesOf(batches), paths);
    FilterAppend(Flatten(FilesOf(batches)), paths, p => Unknown(cfg, p));
    FilterAppend(Flatten(FilesOf(batches)), paths, p => TooBig(cfg, p));
  }

  /** `build_plan`. `excluded` stands for the match against the exclude globs. */
  method BuildPlan(files: seq<string>, excluded: string -> bool, threshold: int, firstPass: int,
                   fileSizes: map<string, RawSize>, maxBatchFiles: Option<int>, maxBatchBytes: Option<int>)
      returns (plan: Plan)
    ensures var inScope := InScope(files, excluded);
            plan == PlanFor(inScope, ConfigFor(inScope, threshold, firstPass, fileSizes, maxBatchFiles, maxBatchBytes))
  {
    hide *;
    var inScope := InScope(files, excluded);
    InScopeCorrect(files, excluded);
    var maxFiles := PositiveInt(maxBatchFiles, DEFAULT_MAX_BATCH_FILES);
    var maxBytes := PositiveInt(maxBatchBytes, DEFAULT_MAX_BATCH_BYTES);
    var sizes := NormalizedFileSizes(inScope, fileSizes);
    var large := |inScope| > threshold;
    var cfg := Config(sizes, maxFiles, maxBytes, large, firstPass);
    ConfigIsFor(cfg, inScope, threshold, fileSizes, maxBatchFiles, maxBatchBytes);
    var byDir, keys := GroupByDirectory(inScope);
    KeysAreOrderedDirs(keys, inScope);
    var batches, missing, oversized := PackDirectories(inScope, byDir, Sort(keys, DirLeq), cfg);
    TalliesSorted(inScope, cfg);
    plan := Plan(|inScope|, |batches|, large, if large then Some(firstPass) else None, maxFiles, maxBytes,
                 Sort(missing, LexLeq), Sort(oversized, LexLeq), batches, []);
    PlanIsFor(plan, inScope, cfg);
  }

  lemma ConfigIsFor(cfg: Config, inScope: seq<string>, threshold: int, source: map<string, RawSize>,
                    maxFiles: Option<int>, maxBytes: Option<int>)
    requires cfg.sizes == map p | p in inScope :: NormalizedSize(p, source)
    requires cfg.maxFiles == PositiveInt(maxFiles, DEFAULT_MAX_BATCH_FILES)
    requires cfg.maxBytes == PositiveInt(maxBytes, DEFAULT_MAX_BATCH_BYTES)
    requires cfg.large == (|inScope| > threshold)
    ensures cfg == ConfigFor(inScope, threshold, cfg.firstPass, source, maxFiles, maxBytes)
  {
  }

  lemma PlanIsFor(plan: Plan, inScope: seq<string>, cfg: Config)
    requires plan.batches == PlanBatches(inScope, OrderedDirs(inScope), 1, cfg)
    requires plan == Plan(|inScope|, |plan.batches|, cfg.large, if cfg.large then Some(cfg.firstPass) else None,
                          cfg.maxFiles, cfg.maxBytes, Missing(cfg, inScope), Oversize(cfg, inScope), plan.batches, [])
    ensures plan == PlanFor(inScope, cfg)
  {
    hide PlanBatches, OrderedDirs, Missing, Oversize;
  }

  /** The loop over `ordered_dirs`. */
  method PackDirectories(inScope: seq<string>, byDir: map<string, seq<string>>, orderedDirs: seq<string>, cfg: Config)
      returns (batches: seq<Batch>, missing: seq<string>, oversized: seq<string>)
    requires SortedBy(inScope, LexLeq)
    requires forall d :: d in orderedDirs ==> d in byDir && byDir[d] == InDir(inScope, d)
    ensures batches == PlanBatches(inScope, orderedDirs, 1, cfg)
    ensures missing == Missing(cfg, Flatten(FilesOf(batches)))
    ensures oversized == Oversize(cfg, Flatten(FilesOf(batches)))
  {
    hide ClassifyTier, MakeBatch, Greedy, InDir, Sort;
    var packer := new Packer(cfg);
    var i := 0;
    while i < |orderedDirs|
      invariant 0 <= i <= |orderedDirs|
      invariant packer.current == [] && packer.currentBytes == 0 && packer.Tallied(cfg)
      invariant packer.batches == PlanBatches(inScope, orderedDirs[..i], 1, cfg)
    {
      var directory := orderedDirs[i];
      assert orderedDirs[..i + 1] == orderedDirs[..i] + [directory];
      DirectoryListIsSorted(inScope, directory);
      PlanBatchesSnoc(inScope, orderedDirs[..i], directory, 1, cfg);
      packer.PackDirectory(directory, Sort(byDir[directory], LexLeq), cfg);
      i := i + 1;
    }
    assert orderedDirs[..i] == orderedDirs;
    batches, missing, oversized := packer.batches, packer.missingFiles, packer.oversizedFiles;
  }

  lemma DirectoryListIsSorted(inScope: seq<string>, directory: string)
    requires SortedBy(inScope, LexLeq)
    ensures Sort(InDir(inScope, directory), LexLeq) == InDir(inScope, directory)
  {
    LexIsTotalOrder();
    FilterSorted(inScope, (p: string) => TopLevelDir(p) == directory, LexLeq);
    SortIsThe(InDir(inScope, directory), InDir(inScope, directory), LexLeq);
  }

  /** Sorting the side lists collected batch by batch gives the unknown and the oversized files of the scope. */
  lemma {:induction false} TalliesSorted(inScope: seq<string>, cfg: Config)
    requires SortedBy(inScope, LexLeq) && Distinct(inScope)
    ensures var files := Flatten(FilesOf(PlanBatches(inScope, OrderedDirs(inScope), 1, cfg)));
            && Sort(Missing(cfg, files), LexLeq) == Missing(cfg, inScope)
            && Sort(Oversize(cfg, files), LexLeq) == Oversize(cfg, inScope)
  {
    PlanIsOrderedPartition(inScope, cfg);
    var files := Flatten(FilesOf(PlanBatches(inScope, OrderedDirs(inScope), 1, cfg)));
    SortedFilterOfPermutation(files, inScope, p => Unknown(cfg, p));
    SortedFilterOfPermutation(files, inScope, p => TooBig(cfg, p));
  }

  lemma {:induction false} KeysAreOrderedDirs(keys: seq<string>, inScope: seq<string>)
    requires Distinct(keys) && Elements(keys) == Elements(Dirs(inScope))
    ensures Sort(keys, DirLeq) == OrderedDirs(inScope)
    ensures forall d :: d in Sort(keys, DirLeq) <==> d in keys
  {
    DirLeqIsTotalOrder();
    DedupCorrect(Dirs(inScope));
    forall d ensures d in Elements(Dedup(Dirs(inScope))) <==> d in Elements(keys) {
      assert d in Elements(keys) <==> d in Elements(Dirs(inScope));
    }
    SameElementsSameMultiset(keys, Dedup(Dirs(inScope)));
    SortCorrect(keys, DirLeq);
    SortElements(keys, DirLeq);
    SortIsThe(Dedup(Dirs(inScope)), Sort(keys, DirLeq), DirLeq);
  }

  lemma NumberedFiles(dir: string, parts: seq<seq<string>>, firstId: nat, cfg: Config)
    ensures FilesOf(Numbered(dir, parts, firstId, cfg)) == parts
  {
  }

  lemma FilesOfAppend(done: seq<Batch>, more: seq<Batch>)
    ensures FilesOf(done + more) == FilesOf(done) + FilesOf(more)
  {
  }

  lemma GreedyFlattens(paths: seq<string>, lim: Limits<string>)
    ensures Flatten(Greedy(paths, lim)) == paths
  {
    GreedyIsLegal(paths, lim);
  }

  lemma {:induction false} PlanBatchesSnoc(inScope: seq<string>, dirs: seq<string>, dir: string, firstId: nat,
                                           cfg: Config)
    ensures PlanBatches(inScope, dirs + [dir], firstId, cfg)
            == PlanBatches(inScope, dirs, firstId, cfg)
               + Numbered(dir, Greedy(InDir(inScope, dir), Lim(cfg)),
                          firstId + |PlanBatches(inScope, dirs, firstId, cfg)|, cfg)
    decreases |dirs|
  {
    hide MakeBatch, Greedy, InDir, Lim;
    if dirs == [] {
      assert dirs + [dir] == [dir] && [dir][1..] == [];
      assert PlanBatches(inScope, [], firstId + |Greedy(InDir(inScope, dir), Lim(cfg))|, cfg) == [];
    } else {
      assert (dirs + [dir])[1..] == dirs[1..] + [dir];
      PlanBatchesSnoc(inScope, dirs[1..], dir, firstId + |Greedy(InDir(inScope, dirs[0]), Lim(cfg))|, cfg);
    }
  }

  lemma {:induction false} SortedFilterOfPermutation(xs: seq<string>, ys: seq<string>, keep: string -> bool)
    requires multiset(xs) == multiset(ys) && SortedBy(ys, LexLeq)
    ensures Sort(Filter(xs, keep), LexLeq) == Filter(ys, keep)
  {
    LexIsTotalOrder();
    FilterMultiset(xs, keep);
    FilterMultiset(ys, keep);
    FilterSorted(ys, keep, LexLeq);
    assert multiset(Filter(xs, keep)) == multiset(Filter(ys, keep));
    SortIsThe(Filter(xs, keep), Filter(ys, keep), LexLeq);
  }

  // ---- Main results ----

  function ByDirectory(inScope: seq<string>, dirs: seq<string>): seq<string> {
    if dirs == [] then [] else InDir(inScope, dirs[0]) + ByDirectory(inScope, dirs[1..])
  }

  lemma {:induction false} PlanFlattens(inScope: seq<string>, dirs: seq<string>, firstId: nat, cfg: Config)
    ensures Flatten(FilesOf(PlanBatches(inScope, dirs, firstId, cfg))) == ByDirectory(inScope, dirs)
    decreases |dirs|
  {
    hide MakeBatch, Greedy, InDir, Lim, LegalPartition;
    if dirs == [] {
      assert FilesOf(PlanBatches(inScope, dirs, firstId, cfg)) == [];
    } else {
      var parts := Greedy(InDir(inScope, dirs[0]), Lim(cfg));
      var more := PlanBatches(inScope, dirs[1..], firstId + |parts|, cfg);
      PlanFlattens(inScope, dirs[1..], firstId + |parts|, cfg);
      GreedyFlattens(InDir(inScope, dirs[0]), Lim(cfg));
      NumberedFiles(dirs[0], parts, firstId, cfg);
      FilesOfAppend(Numbered(dirs[0], parts, firstId, cfg), more);
      FlattenAppend(parts, FilesOf(more));
    }
  }

  lemma {:induction false} ByDirectoryMultiset(inScope: seq<string>, dirs: seq<string>)
    requires Distinct(dirs)
    ensures forall p :: multiset(ByDirectory(inScope, dirs))[p] == if TopLevelDir(p) in dirs then multiset(inScope)[p]
              else 0
    decreases |dirs|
  {
    if dirs != [] {
      assert forall i :: 0 <= i < |dirs[1..]| ==> dirs[1..][i] == dirs[i + 1];
      ByDirectoryMultiset(inScope, dirs[1..]);
      FilterMultiset(inScope, (p: string) => TopLevelDir(p) == dirs[0]);
      assert dirs == [dirs[0]] + dirs[1..];
    }
  }

  lemma {:induction false} ByDirectorySorted(inScope: seq<string>, dirs: seq<string>)
    requires SortedBy(inScope, LexLeq) && Distinct(dirs) && SortedBy(dirs, DirLeq)
    ensures SortedBy(ByDirectory(inScope, dirs), PlanLeq)
    decreases |dirs|
  {
    if dirs != [] {
      var first, more := InDir(inScope, dirs[0]), ByDirectory(inScope, dirs[1..]);
      assert forall i :: 0 <= i < |dirs[1..]| ==> dirs[1..][i] == dirs[i + 1];
      ByDirectorySorted(inScope, dirs[1..]);
      ByDirectoryMultiset(inScope, dirs[1..]);
      FilterSorted(inScope, (p: string) => TopLevelDir(p) == dirs[0], LexLeq);
      FilterMembers(inScope, (p: string) => TopLevelDir(p) == dirs[0]);
      forall i | 0 <= i < |first| ensures TopLevelDir(first[i]) == dirs[0] { assert first[i] in first; }
      forall i, j | 0 <= i < |first| && 0 <= j < |more| ensures PlanLeq(first[i], more[j]) {
        assert more[j] in multiset(more);
        var k :| 0 <= k < |dirs[1..]| && dirs[1..][k] == TopLevelDir(more[j]);
        assert DirLeq(dirs[0], dirs[k + 1]);
      }
    }
  }

  /** The batches, read in order, are the in-scope files sorted by tier, directory and path. */
  lemma {:induction false} PlanIsOrderedPartition(inScope: seq<string>, cfg: Config)
    requires SortedBy(inScope, LexLeq) && Distinct(inScope)
    ensures Flatten(FilesOf(PlanFor(inScope, cfg).batches)) == Sort(inScope, PlanLeq)
    ensures multiset(Flatten(FilesOf(PlanFor(inScope, cfg).batches))) == multiset(inScope)
  {
    var dirs := OrderedDirs(inScope);
    DirLeqIsTotalOrder();
    PlanLeqIsTotalOrder();
    DedupCorrect(Dirs(inScope));
    SortCorrect(Dedup(Dirs(inScope)), DirLeq);
    SortElements(Dedup(Dirs(inScope)), DirLeq);
    PlanFlattens(inScope, dirs, 1, cfg);
    ByDirectorySorted(inScope, dirs);
    ByDirectoryMultiset(inScope, dirs);
    forall p | p in inScope ensures TopLevelDir(p) in dirs {
      var i :| 0 <= i < |inScope| && inScope[i] == p;
      assert Dirs(inScope)[i] == TopLevelDir(p);
    }
    forall p ensures multiset(ByDirectory(inScope, dirs))[p] == multiset(inScope)[p] {
      assert p in multiset(inScope) ==> p in inScope;
    }
    SortIsThe(inScope, ByDirectory(inScope, dirs), PlanLeq);
  }

  /** Whatever the order or repetition in the input, the plan is the same. */
  lemma PlanIgnoresInputOrder(files: seq<string>, shuffled: seq<string>, excluded: string -> bool)
    requires Elements(files) == Elements(shuffled)
    ensures InScope(files, excluded) == InScope(shuffled, excluded)
  {
    LexIsTotalOrder();
    var keep := f => f != "" && !excluded(f);
    FilterMembers(files, keep);
    FilterMembers(shuffled, keep);
    forall x ensures x in Elements(Filter(files, keep)) <==> x in Elements(Filter(shuffled, keep)) {
      assert x in files <==> x in Elements(files);
      assert x in shuffled <==> x in Elements(shuffled);
    }
    SortDedupCanonical(Filter(files, keep), Filter(shuffled, keep), LexLeq);
    assert InScope(files, excluded) == Sort(Dedup(Filter(files, keep)), LexLeq);
    assert InScope(shuffled, excluded) == Sort(Dedup(Filter(shuffled, keep)), LexLeq);
  }

  /** A batch is either within both caps, or a lone file flagged as unknown or oversized. */
  ghost predicate Bounded(b: Batch, cfg: Config) {
    || (b.status == Known && !b.oversized && b.missing == [] && 1 <= |b.files| <= cfg.maxFiles
        && b.byteCount.Some? && b.byteCount.value <= cfg.maxBytes)
    || (|b.files| == 1 && b.status == MissingSize && b.byteCount.None? && b.missing == b.files && !b.oversized
        && Unknown(cfg, b.files[0]))
    || (|b.files| == 1 && b.status == Oversized && b.oversized && b.byteCount.Some?
        && b.byteCount.value > cfg.maxBytes && b.missing == [])
  }

  lemma FilterSingleton<T>(x: T, keep: T -> bool)
    ensures Filter([x], keep) == if keep(x) then [x] else []
  {
    assert [x][..0] == [];
  }

  lemma MadeBatchIsBounded(id: nat, dir: string, paths: seq<string>, cfg: Config)
    requires Fits(paths, Lim(cfg)) && cfg.maxFiles >= 1
    ensures Bounded(MakeBatch(id, dir, paths, cfg), cfg)
  {
    FilterMembers(paths, p => Unknown(cfg, p));
    FilterMembers(paths, p => TooBig(cfg, p));
    if |paths| == 1 {
      assert paths == [paths[0]];
      FilterSingleton(paths[0], p => Unknown(cfg, p));
      FilterSingleton(paths[0], p => TooBig(cfg, p));
      assert paths[..0] == [];
      assert KnownWeight([], Lim(cfg)) == 0;
    } else {
      var missing, big := Missing(cfg, paths), Oversize(cfg, paths);
      forall i | 0 <= i < |paths| ensures !Unknown(cfg, paths[i]) && !TooBig(cfg, paths[i]) {
        assert Lim(cfg).weight(paths[i]) == SizeIn(cfg.sizes, paths[i]);
        WeightOfMember(paths, i, Lim(cfg));
      }
      FilterAllOrNone(paths, p => Unknown(cfg, p));
      FilterAllOrNone(paths, p => TooBig(cfg, p));
    }
  }

  ghost predicate NumberedAndBounded(bs: seq<Batch>, firstId: nat, cfg: Config) {
    forall i :: 0 <= i < |bs| ==>
      bs[i].id == firstId + i && Bounded(bs[i], cfg) && (bs[i].deferred <==> cfg.large && firstId + i > cfg.firstPass)
  }

  /** Ids run 1..n, every batch is bounded, and exactly the ids past the cap are deferred in large mode. */
  lemma {:induction false} BatchesAreNumberedAndBounded(inScope: seq<string>, dirs: seq<string>, firstId: nat,
                                                        cfg: Config)
    requires cfg.maxFiles >= 1
    ensures NumberedAndBounded(PlanBatches(inScope, dirs, firstId, cfg), firstId, cfg)
    decreases |dirs|
  {
    hide Bounded, Greedy, InDir, Lim;
    if dirs != [] {
      var parts := Greedy(InDir(inScope, dirs[0]), Lim(cfg));
      var more := PlanBatches(inScope, dirs[1..], firstId + |parts|, cfg);
      BatchesAreNumberedAndBounded(inScope, dirs[1..], firstId + |parts|, cfg);
      GreedyIsLegal(InDir(inScope, dirs[0]), Lim(cfg));
      NumberedPartsAreBounded(dirs[0], parts, firstId, cfg);
    }
  }

  lemma NumberedPartsAreBounded(dir: string, parts: seq<seq<string>>, firstId: nat, cfg: Config)
    requires cfg.maxFiles >= 1 && forall i :: 0 <= i < |parts| ==> Fits(parts[i], Lim(cfg))
    ensures NumberedAndBounded(Numbered(dir, parts, firstId, cfg), firstId, cfg)
  {
    hide Bounded, Fits;
    forall i | 0 <= i < |parts| ensures Bounded(MakeBatch(firstId + i, dir, parts[i], cfg), cfg) {
      MadeBatchIsBounded(firstId + i, dir, parts[i], cfg);
    }
  }

  function BatchesOf(batches: seq<Batch>, dir: string): seq<Batch> {
    Filter(batches, (b: Batch) => b.dir == dir)
  }

  lemma {:induction false} FilterAllOrNone<T>(xs: seq<T>, keep: T -> bool)
    ensures (forall i :: 0 <= i < |xs| ==> keep(xs[i])) ==> Filter(xs, keep) == xs
    ensures (forall i :: 0 <= i < |xs| ==> !keep(xs[i])) ==> Filter(xs, keep) == []
  {
    if xs != [] {
      FilterAllOrNone(xs[..|xs| - 1], keep);
    }
  }

  lemma BatchesOfNumbered(dir: string, parts: seq<seq<string>>, firstId: nat, cfg: Config, wanted: string)
    ensures BatchesOf(Numbered(dir, parts, firstId, cfg), wanted)
            == if dir == wanted then Numbered(dir, parts, firstId, cfg) else []
  {
    hide Filter, Missing, Oversize, KnownWeight;
    FilterAllOrNone(Numbered(dir, parts, firstId, cfg), (b: Batch) => b.dir == wanted);
  }

  lemma {:induction false} BatchesOfDir(inScope: seq<string>, dirs: seq<string>, firstId: nat, cfg: Config, dir: string)
    requires Distinct(dirs)
    ensures FilesOf(BatchesOf(PlanBatches(inScope, dirs, firstId, cfg), dir))
            == if dir in dirs then Greedy(InDir(inScope, dir), Lim(cfg)) else []
    decreases |dirs|
  {
    hide Greedy, InDir, Lim, KnownWeight, MakeBatch, Numbered, Filter;
    if dirs == [] {
      FilterAllOrNone<Batch>([], (b: Batch) => b.dir == dir);
    } else {
      var parts := Greedy(InDir(inScope, dirs[0]), Lim(cfg));
      var first := Numbered(dirs[0], parts, firstId, cfg);
      var more := PlanBatches(inScope, dirs[1..], firstId + |parts|, cfg);
      assert forall i :: 0 <= i < |dirs[1..]| ==> dirs[1..][i] == dirs[i + 1];
      BatchesOfDir(inScope, dirs[1..], firstId + |parts|, cfg, dir);
      BatchesOfNumbered(dirs[0], parts, firstId, cfg, dir);
      FilterAppend(first, more, (b: Batch) => b.dir == dir);
      NumberedFiles(dirs[0], parts, firstId, cfg);
      FilesOfAppend(BatchesOf(first, dir), BatchesOf(more, dir));
      assert dirs == [dirs[0]] + dirs[1..];
    }
  }

  /** For each directory, no legal order-preserving partition of its files uses fewer batches. */
  lemma PlanIsOptimalPerDirectory(inScope: seq<string>, cfg: Config, dir: string, parts: seq<seq<string>>)
    requires LegalPartition(parts, InDir(inScope, dir), Lim(cfg))
    ensures |BatchesOf(PlanFor(inScope, cfg).batches, dir)| <= |parts|
  {
    DirLeqIsTotalOrder();
    DedupCorrect(Dirs(inScope));
    SortElements(Dedup(Dirs(inScope)), DirLeq);
    var bs := BatchesOf(PlanFor(inScope, cfg).batches, dir);
    BatchesOfDir(inScope, OrderedDirs(inScope), 1, cfg, dir);
    assert |FilesOf(bs)| == |bs|;
    GreedyIsOptimal(parts, InDir(inScope, dir), Lim(cfg));
  }

  // ---- Which files come first ----

  /** `dir` reads as `hint` when the case of ASCII letters does not matter; every hint is in lower case. */
  predicate ReadsAs(dir: string, hint: string) {
    |dir| == |hint| && forall i :: 0 <= i < |dir| ==> dir[i] == hint[i] || LowerOf(dir[i], hint[i])
  }

  predicate LowerOf(upper: char, lower: char) {
    'A' <= upper <= 'Z' && lower as int - 'a' as int == upper as int - 'A' as int
  }

  predicate Plain(hint: string) {
    hint != "" && forall i :: 0 <= i < |hint| ==> 'a' <= hint[i] <= 'z'
  }

  /** A path whose first segment is one of the hints, in any case. */
  ghost predicate Under(path: string, hints: set<string>) {
    exists dir, rest, hint :: hint in hints && ReadsAs(dir, hint) && path == dir + "/" + rest
  }

  lemma LowerReads(dir: string, hint: string)
    requires Plain(hint)
    ensures ToLower(dir) == hint <==> ReadsAs(dir, hint)
  {
    if ReadsAs(dir, hint) {
      assert ToLower(dir) == hint;
    }
  }

  lemma SinkHintsArePlain()
    ensures forall hint :: hint in SINK_DIR_HINTS ==> Plain(hint)
  {
  }

  lemma LowHintsArePlain()
    ensures forall hint :: hint in LOW_PRIORITY_DIR_HINTS ==> Plain(hint)
  {
  }

  lemma FirstSegment(dir: string, rest: string)
    requires '/' !in dir
    ensures TopLevelDir(dir + "/" + rest) == dir && Paths.Components(dir) == [dir]
  {
    var path := dir + "/" + rest;
    assert path[|dir|] == '/' && path[..|dir|] == dir;
    forall k | 0 <= k < |dir| ensures path[k] == dir[k] != '/' { assert dir[k] in dir; }
    assert Paths.IndexOf(path, '/', 0) == |dir| && Paths.IndexOf(dir, '/', 0) == |dir|;
  }

  lemma RootFile(path: string)
    requires '/' !in path
    ensures TopLevelDir(path) == "."
  {
    forall k | 0 <= k < |path| ensures path[k] != '/' { assert path[k] in path; }
    assert Paths.IndexOf(path, '/', 0) == |path|;
  }

  lemma SplitAtSlash(path: string) returns (dir: string, rest: string)
    requires '/' in path
    ensures path == dir + "/" + rest && '/' !in dir
  {
    var i := Paths.IndexOf(path, '/', 0);
    var k :| 0 <= k < |path| && path[k] == '/';
    assert i <= k;
    dir, rest := path[..i], path[i + 1..];
  }

  lemma ReadsAsPlain(dir: string, hint: string)
    requires ReadsAs(dir, hint) && Plain(hint)
    ensures '/' !in dir && dir != "."
  {
    assert hint[0] != '.' && dir[0] != '.';
    forall k | 0 <= k < |dir| ensures dir[k] != '/' { assert hint[k] != '/'; }
  }

  lemma HintOfSegment(dir: string, hints: set<string>)
    requires '/' !in dir && forall hint :: hint in hints ==> Plain(hint)
    ensures HasHint(dir, hints) <==> exists hint :: hint in hints && ReadsAs(dir, hint)
  {
    FirstSegment(dir, "");
    assert Paths.Components(dir)[0] == dir;
    assert HasHint(dir, hints) <==> ToLower(dir) in hints by {
      hide ToLower;
      assert ToLower("") == "" by { LowerReads("", "a"); }
    }
    hide ToLower, HasHint, Plain, ReadsAs;
    forall hint | hint in hints ensures ToLower(dir) == hint <==> ReadsAs(dir, hint) { LowerReads(dir, hint); }
    if ToLower(dir) in hints { assert ReadsAs(dir, ToLower(dir)); }
  }

  lemma HintIs(path: string, hints: set<string>)
    requires forall hint :: hint in hints ==> Plain(hint)
    ensures TopLevelDir(path) != "." && HasHint(TopLevelDir(path), hints) <==> Under(path, hints)
  {
    hide TopLevelDir, HasHint, Plain, ReadsAs;
    if Under(path, hints) {
      var dir, rest, hint :| hint in hints && ReadsAs(dir, hint) && path == dir + "/" + rest;
      ReadsAsPlain(dir, hint);
      FirstSegment(dir, rest);
      HintOfSegment(dir, hints);
    } else if '/' in path {
      var dir, rest := SplitAtSlash(path);
      FirstSegment(dir, rest);
      HintOfSegment(dir, hints);
    } else {
      RootFile(path);
    }
  }

  /** Sinks win over the low hints; a file in the root, and any other file, is normal. */
  lemma TierIs(path: string)
    ensures var tier := ClassifyTier(TopLevelDir(path));
            && (tier == Critical <==> Under(path, SINK_DIR_HINTS))
            && (tier == Low <==> Under(path, LOW_PRIORITY_DIR_HINTS) && !Under(path, SINK_DIR_HINTS))
  {
    SinkHintsArePlain();
    LowHintsArePlain();
    hide TopLevelDir, HasHint, Plain, Under;
    HintIs(path, SINK_DIR_HINTS);
    HintIs(path, LOW_PRIORITY_DIR_HINTS);
  }

  /** `dir` is the first segment of `path`; the files directly under the root lie in ".". */
  ghost predicate LiesIn(path: string, dir: string) {
    (dir == "." && '/' !in path) || ('/' !in dir && exists rest :: path == dir + "/" + rest)
  }

  lemma TopLevelDirIs(path: string, dir: string)
    ensures TopLevelDir(path) == dir <==> LiesIn(path, dir)
  {
    hide TopLevelDir;
    if '/' in path {
      var first, rest := SplitAtSlash(path);
      FirstSegment(first, rest);
    } else {
      RootFile(path);
    }
    if '/' !in dir {
      forall rest | path == dir + "/" + rest ensures TopLevelDir(path) == dir { FirstSegment(dir, rest); }
    }
  }

  /** A batch is made of files of its own directory, in that directory's tier. */
  ghost predicate OfItsDirectory(b: Batch) {
    b.tier == ClassifyTier(b.dir) && forall p :: p in b.files ==> TopLevelDir(p) == b.dir
  }

  lemma PartOfDirectory(inScope: seq<string>, dir: string, cfg: Config, k: nat)
    requires k < |Greedy(InDir(inScope, dir), Lim(cfg))|
    ensures forall p :: p in Greedy(InDir(inScope, dir), Lim(cfg))[k] ==> TopLevelDir(p) == dir
  {
    var paths := InDir(inScope, dir);
    var parts := Greedy(paths, Lim(cfg));
    FilterMembers(inScope, (p: string) => TopLevelDir(p) == dir);
    GreedyFlattens(paths, Lim(cfg));
    assert forall p :: p in paths ==> TopLevelDir(p) == dir;
    hide Greedy, InDir, TopLevelDir;
    forall p | p in parts[k] ensures p in paths { InFlatten(parts, p); }
  }

  ghost predicate Follow(bs: seq<Batch>, dirs: seq<string>) {
    && (forall k :: 0 <= k < |bs| ==> bs[k].dir in dirs && OfItsDirectory(bs[k]))
    && (forall i, j :: 0 <= i < j < |bs| ==> DirLeq(bs[i].dir, bs[j].dir))
  }

  lemma FollowAppend(first: seq<Batch>, more: seq<Batch>, dirs: seq<string>)
    requires dirs != [] && SortedBy(dirs, DirLeq) && Follow(more, dirs[1..])
    requires forall k :: 0 <= k < |first| ==> first[k].dir == dirs[0] && OfItsDirectory(first[k])
    ensures Follow(first + more, dirs)
  {
    DirLeqIsTotalOrder();
    hide DirLeq, OfItsDirectory;
    var bs := first + more;
    assert DirLeq(dirs[0], dirs[0]);
    forall i, j | 0 <= i < j < |bs| ensures DirLeq(bs[i].dir, bs[j].dir) {
      if i < |first| <= j {
        var k :| 0 <= k < |dirs[1..]| && dirs[1..][k] == more[j - |first|].dir;
        assert DirLeq(dirs[0], dirs[k + 1]);
      }
    }
  }

  lemma {:induction false} BatchesFollowDirectories(inScope: seq<string>, dirs: seq<string>, firstId: nat, cfg: Config)
    requires SortedBy(dirs, DirLeq)
    ensures Follow(PlanBatches(inScope, dirs, firstId, cfg), dirs)
    decreases |dirs|
  {
    hide Greedy, InDir, Lim, DirLeq, Missing, Oversize, TopLevelDir, ClassifyTier, Follow;
    if dirs == [] {
      NothingFollows(dirs);
    } else {
      var parts := Greedy(InDir(inScope, dirs[0]), Lim(cfg));
      var first := Numbered(dirs[0], parts, firstId, cfg);
      forall k | 0 <= k < |first| ensures OfItsDirectory(first[k]) {
        PartOfDirectory(inScope, dirs[0], cfg, k);
      }
      assert forall i :: 0 <= i < |dirs[1..]| ==> dirs[1..][i] == dirs[i + 1];
      BatchesFollowDirectories(inScope, dirs[1..], firstId + |parts|, cfg);
      FollowAppend(first, PlanBatches(inScope, dirs[1..], firstId + |parts|, cfg), dirs);
    }
  }

  lemma NothingFollows(dirs: seq<string>)
    ensures Follow([], dirs)
  {
  }

  /** A path of the low tier. */
  ghost predicate Unlikely(path: string) {
    Under(path, LOW_PRIORITY_DIR_HINTS) && !Under(path, SINK_DIR_HINTS)
  }

  /**
   In the plan, each batch holds files of one first-level directory; files under a sink hint come before all
   others, files under a low hint alone after them, and within a tier the directories are in dictionary order.
   */
  lemma TiersComeInOrder(inScope: seq<string>, cfg: Config, i: nat, j: nat, p: string, q: string)
    requires i <= j < |PlanFor(inScope, cfg).batches|
    requires p in PlanFor(inScope, cfg).batches[i].files && q in PlanFor(inScope, cfg).batches[j].files
    ensures var bs := PlanFor(inScope, cfg).batches;
            && LiesIn(p, bs[i].dir)
            && (bs[i].tier == Critical <==> Under(p, SINK_DIR_HINTS)) && (bs[i].tier == Low <==> Unlikely(p))
            && (Under(q, SINK_DIR_HINTS) ==> Under(p, SINK_DIR_HINTS)) && (Unlikely(p) ==> Unlikely(q))
            && (bs[i].tier == bs[j].tier ==> LexLeq(bs[i].dir, bs[j].dir))
  {
    var bs := PlanFor(inScope, cfg).batches;
    PlanFollows(inScope, cfg);
    assert OfItsDirectory(bs[i]) && OfItsDirectory(bs[j]) && (i == j || DirLeq(bs[i].dir, bs[j].dir));
    hide *;
    InTierOrder(bs[i], bs[j], p, q);
  }

  lemma InTierOrder(b: Batch, c: Batch, p: string, q: string)
    requires OfItsDirectory(b) && OfItsDirectory(c) && (b == c || DirLeq(b.dir, c.dir))
    requires p in b.files && q in c.files
    ensures LiesIn(p, b.dir) && (b.tier == Critical <==> Under(p, SINK_DIR_HINTS)) && (b.tier == Low <==> Unlikely(p))
    ensures (Under(q, SINK_DIR_HINTS) ==> Under(p, SINK_DIR_HINTS)) && (Unlikely(p) ==> Unlikely(q))
    ensures b.tier == c.tier ==> LexLeq(b.dir, c.dir)
  {
    LexTotal(b.dir, b.dir);
    hide LexLeq, ClassifyTier, TopLevelDir, Under, LiesIn;
    TierIs(p);
    TierIs(q);
    TopLevelDirIs(p, b.dir);
  }

  lemma PlanFollows(inScope: seq<string>, cfg: Config)
    ensures Follow(PlanFor(inScope, cfg).batches, OrderedDirs(inScope))
  {
    var dirs := OrderedDirs(inScope);
    DirLeqIsTotalOrder();
    SortCorrect(Dedup(Dirs(inScope)), DirLeq);
    BatchesFollowDirectories(inScope, dirs, 1, cfg);
  }

  /** What a plan's limits are: a size counts when it is a number from 0 up, a cap when it is a positive integer. */
  lemma LimitsAre(inScope: seq<string>, threshold: int, firstPass: int, source: map<string, RawSize>,
                  maxFiles: Option<int>, maxBytes: Option<int>, path: string)
    requires path in inScope
    ensures var cfg := ConfigFor(inScope, threshold, firstPass, source, maxFiles, maxBytes);
            && (forall n: nat :: SizeIn(cfg.sizes, path) == Some(n) <==> path in source && source[path] == Number(n))
            && cfg.maxFiles > 0 && cfg.maxBytes > 0
            && (forall n: nat :: n > 0 && maxFiles == Some(n) ==> cfg.maxFiles == n)
            && (forall n: nat :: n > 0 && maxBytes == Some(n) ==> cfg.maxBytes == n)
            && (maxFiles.None? || maxFiles.value <= 0 ==> cfg.maxFiles == 25)
            && (maxBytes.None? || maxBytes.value <= 0 ==> cfg.maxBytes == 128 * 1024)
            && (cfg.large <==> |inScope| >= threshold + 1)
  {
  }
}
