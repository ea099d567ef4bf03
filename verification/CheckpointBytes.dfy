/**
 The checkpoint's logs as bytes: what the readers see of them, verification of every reachable run directory,
 and what a retry behind a torn line does.
 */
module CheckpointBytes {
  import opened Wrappers
  import opened GitObjects
  import ReconValidation
  import opened JsonlTail
  import opened Coverage
  import opened Checkpoint
  import opened CheckpointSteps
  import opened CheckpointRuns
  import Sorting

  /** How records of one log are written as lines and read back. */
  datatype Codec<!R> = Codec(encode: R -> seq<byte>, parse: seq<byte> -> Option<R>)

  /** The lines written for the records of a log. */
  function Lines<R>(log: seq<R>, encode: R -> seq<byte>): seq<seq<byte>> {
    seq(|log|, i requires 0 <= i < |log| => encode(log[i]))
  }

  function LogBytes<R>(log: seq<R>, codec: Codec<R>): seq<byte> {
    Encode(Lines(log, codec.encode))
  }

  /** Each record of the log is one writer line of the stated size that parses back to it. */
  ghost predicate Faithful<R(!new)>(log: seq<R>, codec: Codec<R>, size: R -> nat) {
    forall i :: 0 <= i < |log| ==>
      && WriterLine(codec.encode(log[i]), MAX_JSONL_LINE_BYTES)
      && codec.parse(codec.encode(log[i])) == Some(log[i])
      && size(log[i]) == |codec.encode(log[i])| + 1
  }

  function ReadLedger(file: seq<byte>, codec: Codec<LedgerRow>): seq<LedgerRow> {
    TailRecords(file, MAX_LEDGER_TAIL_BYTES, MAX_JSONL_LINE_BYTES, codec.parse)
  }

  function ReadSnapshots(file: seq<byte>, codec: Codec<SnapshotRow>): seq<SnapshotRow> {
    TailRecords(file, MAX_SNAPSHOT_TAIL_BYTES, MAX_JSONL_LINE_BYTES, codec.parse)
  }

  // ---- The windows of the record-level model are the reader's ----

  lemma FaithfulWrites<R(!new)>(log: seq<R>, codec: Codec<R>, size: R -> nat)
    requires Faithful(log, codec, size)
    ensures Writes(Lines(log, codec.encode), log, MAX_JSONL_LINE_BYTES, codec.parse)
  {
  }

  lemma {:induction false} TotalIsEncodedLength<R(!new)>(log: seq<R>, codec: Codec<R>, size: R -> nat)
    requires Faithful(log, codec, size)
    ensures Total(log, size) == |LogBytes(log, codec)|
  {
    if log != [] {
      TotalIsEncodedLength(log[1..], codec, size);
      assert Lines(log, codec.encode)[1..] == Lines(log[1..], codec.encode);
    }
  }

  lemma {:induction false} LastWithinLines<R(!new)>(log: seq<R>, codec: Codec<R>, size: R -> nat, budget: nat)
      returns (i: nat)
    requires Faithful(log, codec, size)
    ensures i <= |log| && LastWithin(log, size, budget) == log[i..]
    ensures Lines(LastWithin(log, size, budget), codec.encode) == LastLinesWithin(Lines(log, codec.encode), budget)
  {
    TotalIsEncodedLength(log, codec, size);
    hide Total, Encode;
    i := 0;
    if Total(log, size) > budget && log != [] {
      var j := LastWithinLines(log[1..], codec, size, budget);
      i := j + 1;
      assert Lines(log, codec.encode)[1..] == Lines(log[1..], codec.encode);
    }
  }

  /** Reading the bytes of a cleanly appended log yields exactly the records the model's window shows. */
  lemma {:induction false} VisibleIsTheByteWindow<R(!new)>(log: seq<R>, codec: Codec<R>, size: R -> nat, maxBytes: nat)
    requires Faithful(log, codec, size) && maxBytes > 0
    ensures TailRecords(LogBytes(log, codec), maxBytes, MAX_JSONL_LINE_BYTES, codec.parse)
            == Visible(log, size, maxBytes)
  {
    var lines := Lines(log, codec.encode);
    FaithfulWrites(log, codec, size);
    TotalIsEncodedLength(log, codec, size);
    WindowOfWholeLines(lines, maxBytes, MAX_JSONL_LINE_BYTES, codec.parse);
    var i := LastWithinLines(log, codec, size, maxBytes - 1);
    var seen := Visible(log, size, maxBytes);
    FaithfulWrites(seen, codec, size);
    ParsedBlock(Lines(seen, codec.encode), seen, MAX_JSONL_LINE_BYTES, codec.parse);
  }

  /** Each row's line is nonempty, has no line break, parses back to the row and has the stated size; it may be long. */
  ghost predicate Parses(rows: seq<SnapshotRow>, codec: Codec<SnapshotRow>, sizes: Sizes) {
    forall i :: 0 <= i < |rows| ==>
      && var line := codec.encode(rows[i]);
      && line != [] && Fragment(line) && codec.parse(line) == Some(rows[i]) && sizes.snapshot(rows[i]) == |line| + 1
  }

  /**
   Why the whole batch is measured before its first row is written: rows that fit are read back in full, whatever
   precedes them and behind the torn tail of a next append.
   */
  lemma FittingRowsAreReadBack(pre: seq<byte>, rows: seq<SnapshotRow>, torn: seq<byte>, codec: Codec<SnapshotRow>,
                               sizes: Sizes)
    requires EndsLine(pre) && NoNewline(torn) && |torn| < MAX_JSONL_LINE_BYTES
    requires SnapshotsFit(rows, sizes) && Parses(rows, codec, sizes)
    ensures var seen := ReadSnapshots(pre + LogBytes(rows, codec) + torn, codec);
            |seen| >= |rows| && seen[|seen| - |rows|..] == rows
  {
    assert Faithful(rows, codec, sizes.snapshot);
    FaithfulWrites(rows, codec, sizes.snapshot);
    TotalIsEncodedLength(rows, codec, sizes.snapshot);
    FinalBlockRecovered(pre, Lines(rows, codec.encode), rows, torn, MAX_SNAPSHOT_TAIL_BYTES, MAX_JSONL_LINE_BYTES,
                        codec.parse);
  }

  // ---- Every reachable run directory verifies ----

  /** Bytes a stopped append may leave behind the last newline. */
  predicate NoNewline(torn: seq<byte>) {
    forall k :: 0 <= k < |torn| ==> torn[k] != NEWLINE
  }

  /** `file` holds the log, behind it perhaps a torn line, all inside the window. */
  ghost predicate Holds<R(!new)>(file: seq<byte>, log: seq<R>, codec: Codec<R>, size: R -> nat, maxBytes: nat) {
    && Faithful(log, codec, size) && |file| <= maxBytes
    && LogBytes(log, codec) <= file && NoNewline(file[|LogBytes(log, codec)|..])
  }

  lemma HeldIsRead<R(!new)>(file: seq<byte>, log: seq<R>, codec: Codec<R>, size: R -> nat, maxBytes: nat)
    requires Holds(file, log, codec, size, maxBytes)
    ensures TailRecords(file, maxBytes, MAX_JSONL_LINE_BYTES, codec.parse) == log
    ensures Total(log, size) <= maxBytes
  {
    var whole := LogBytes(log, codec);
    var torn := file[|whole|..];
    assert file == whole + torn;
    FaithfulWrites(log, codec, size);
    TotalIsEncodedLength(log, codec, size);
    WholeLogReadBack(Lines(log, codec.encode), log, torn, maxBytes, MAX_JSONL_LINE_BYTES, codec.parse);
  }

  /** The two log files of a run directory whose records are those of `d`. */
  ghost predicate OnDisk(d: Disk, ledgerFile: seq<byte>, snapshotFile: seq<byte>, events: Codec<LedgerRow>,
                         snapshots: Codec<SnapshotRow>, sizes: Sizes)
  {
    && Holds(ledgerFile, d.ledger, events, sizes.event, MAX_LEDGER_TAIL_BYTES)
    && Holds(snapshotFile, d.snapshots, snapshots, sizes.snapshot, MAX_SNAPSHOT_TAIL_BYTES)
  }

  lemma OnDiskFits(d: Disk, ledgerFile: seq<byte>, snapshotFile: seq<byte>, events: Codec<LedgerRow>,
                   snapshots: Codec<SnapshotRow>, sizes: Sizes)
    requires OnDisk(d, ledgerFile, snapshotFile, events, snapshots, sizes)
    ensures ReadLedger(ledgerFile, events) == SeenEvents(d, sizes) == d.ledger
    ensures ReadSnapshots(snapshotFile, snapshots) == SeenSnapshots(d, sizes) == d.snapshots
    ensures forall b :: Recoverable(d, sizes, b)
  {
    HeldIsRead(ledgerFile, d.ledger, events, sizes.event, MAX_LEDGER_TAIL_BYTES);
    HeldIsRead(snapshotFile, d.snapshots, snapshots, sizes.snapshot, MAX_SNAPSHOT_TAIL_BYTES);
    hide TailRecords, Total, Recoverable;
    forall b ensures Recoverable(d, sizes, b) { FittingIsRecoverable(d, sizes, b); }
  }

  lemma {:induction false} BothAll(covered: seq<int>, events: set<int>)
    requires forall b :: b in covered ==> b in events
    ensures Both(covered, events) == covered
  {
    if covered != [] { BothAll(covered[..|covered| - 1], events); }
  }

  /** The head verification reports for a covered batch is that of its first durable row. */
  lemma {:induction false} ReportedHead(d: Disk, repo: Repo, sizes: Sizes, b: int)
    requires Inv(d, repo, sizes) && Recoverable(d, sizes, b) && b in d.recon.covered && b in PlanOf(d)
    requires SeenSnapshots(d, sizes) == d.snapshots
    ensures BatchHead(d.snapshots, PlanOf(d), b) == HeadOf(RowsFor(d.snapshots, b)) && RowsFor(d.snapshots, b) != []
  {
    hide ReconValidation.WellFormed, ReconValidation.BatchFiles, UniformOids, RowsFor, EventsFor, Recoverable,
      SnapshotsFit, AllInv, Collect, EventBatches, SeenEvents, SeenSnapshots, EventOf;
    var files := PlanOf(d)[b];
    assert InvAt(d, repo, sizes, b, files) by { AllInvAt(d, PlanOf(d), repo, sizes, b); }
    SelectedIs(d, repo, b);
    EvidenceSeen(d, repo, sizes, b, files);
    BatchSeen(d, repo, sizes, b, files, HeadOf(RowsFor(d.snapshots, b)));
    assert files[..|files|] == files;
  }

  /** What verification must return for a run: the files of the covered batches, each at its first durable head. */
  ghost predicate ReportsRun(vs: seq<Verified>, d0: Disk, steps: seq<Step>, repo: Repo, sizes: Sizes) {
    && Pairs(vs) == ExpectedPairs(Sorting.Sort(Exec(d0, steps, repo, sizes).recon.covered, IntLeq), PlanOf(d0))
    && forall i :: 0 <= i < |vs| ==>
         && vs[i].head == FirstHead(d0, steps, repo, sizes, vs[i].batch)
         && BlobAt(repo, vs[i].head, vs[i].file) == Some(vs[i].blob)
  }

  /** The run theorems and the byte-level verification meet: the bytes of every reachable state verify. */
  lemma {:induction false} EveryRunVerifies(d0: Disk, steps: seq<Step>, repo: Repo, sizes: Sizes, ledgerFile: seq<byte>,
                                            snapshotFile: seq<byte>, events: Codec<LedgerRow>,
                                            snapshots: Codec<SnapshotRow>)
    requires Untouched(d0) && RunOk(d0, steps, repo) && Sighted(d0, steps, repo, sizes)
    requires OnDisk(Exec(d0, steps, repo, sizes), ledgerFile, snapshotFile, events, snapshots, sizes)
    ensures var d := Exec(d0, steps, repo, sizes);
            var ledger, rows := ReadLedger(ledgerFile, events), ReadSnapshots(snapshotFile, snapshots);
            && CoverageHolds(d.recon, ledger, rows, repo)
            && ReportsRun(VerifiedRows(CoveredBatches(d.recon.covered, ledger), PlanOf(d), rows), d0, steps, repo,
                          sizes)
  {
    var d := Exec(d0, steps, repo, sizes);
    EveryRun(d0, steps, repo, sizes);
    OnDiskFits(d, ledgerFile, snapshotFile, events, snapshots, sizes);
    hide Exec, OnDisk, Sighted, RunOk, Recoverable, ReadLedger, ReadSnapshots, Inv, SeenEvents, SeenSnapshots,
      FirstHead, DoneOrder, ReconValidation.WellFormed, EventBatches, ReconValidation.BatchFiles, RowsFor, EventsFor;
    ReachableStatesVerify(d, repo, sizes);
    AcceptedRecon(d.recon);
    CoveredMembers(d.recon.covered, d.ledger);
    BothAll(d.recon.covered, EventBatches(d.ledger));
    hide CoveredBatches, Both;
    var order := CoveredBatches(d.recon.covered, d.ledger);
    CoverageIsSound(order, PlanOf(d), d.snapshots, repo);
    var vs := VerifiedRows(order, PlanOf(d), d.snapshots);
    HeadsReported(VerifiedRows(order, PlanOf(d), d.snapshots), order, d, repo, sizes);
    hide Pairs, ExpectedPairs, VerifiedRows, AllCertified, AllSound;
  }

  lemma HeadsReported(vs: seq<Verified>, order: seq<int>, d: Disk, repo: Repo, sizes: Sizes)
    requires AllSound(vs, order, PlanOf(d), d.snapshots, repo)
    requires Inv(d, repo, sizes) && SeenSnapshots(d, sizes) == d.snapshots
    requires forall b :: b in order ==> b in d.recon.covered && b in PlanOf(d) && Recoverable(d, sizes, b)
    ensures forall i :: 0 <= i < |vs| ==>
              && vs[i].batch in order && RowsFor(d.snapshots, vs[i].batch) != []
              && vs[i].head == HeadOf(RowsFor(d.snapshots, vs[i].batch))
              && BlobAt(repo, vs[i].head, vs[i].file) == Some(vs[i].blob)
  {
    hide Inv, Recoverable, RowsFor, BatchHead, ReconValidation.BatchFiles, SeenSnapshots, Witnessed;
    forall i | 0 <= i < |vs|
      ensures vs[i].head == HeadOf(RowsFor(d.snapshots, vs[i].batch)) && RowsFor(d.snapshots, vs[i].batch) != []
    {
      assert Sound(vs[i], order, PlanOf(d), d.snapshots, repo);
      ReportedHead(d, repo, sizes, vs[i].batch);
    }
  }

  /** `verify_run_coverage` on the run directory that a run of checkpoint commands left. */
  method VerifyRunDirectory(ghost d0: Disk, ghost steps: seq<Step>, repo: Repo, ghost sizes: Sizes,
                            recon: ReconValidation.Recon,
                            ledgerFile: seq<byte>, snapshotFile: seq<byte>, events: Codec<LedgerRow>,
                            snapshots: Codec<SnapshotRow>)
      returns (r: Result<seq<Verified>>)
    requires Untouched(d0) && RunOk(d0, steps, repo) && Sighted(d0, steps, repo, sizes)
    requires recon == Exec(d0, steps, repo, sizes).recon
    requires OnDisk(Exec(d0, steps, repo, sizes), ledgerFile, snapshotFile, events, snapshots, sizes)
    ensures r.Success? && ReportsRun(r.value, d0, steps, repo, sizes)
  {
    hide Untouched, RunOk, Sighted, OnDisk, Exec, ReportsRun, CoverageHolds, TailRecords, VerifiedRows, CoveredBatches;
    EveryRunVerifies(d0, steps, repo, sizes, ledgerFile, snapshotFile, events, snapshots);
    r := VerifyRunCoverage(recon, ledgerFile, snapshotFile, events.parse, snapshots.parse, repo);
  }
}
