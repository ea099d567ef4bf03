/**
 A checkpoint retried behind a torn line of the snapshot log: one append stopped inside a line, so the first
 record of the retry merges with what it left.
 */
module TornRetry {
  import opened Wrappers
  import Sequences
  import opened GitObjects
  import opened ReconValidation
  import opened JsonlTail
  import opened Coverage
  import opened Checkpoint
  import opened CheckpointSteps
  import opened CheckpointRuns
  import opened CheckpointBytes

  // ---- A covered batch that lost a file's row ----

  /** The batch is marked covered and the log records nothing for one of its files. */
  ghost predicate Stuck(disk: Disk, b: int, f: string) {
    && WellFormed(disk.recon) && b in disk.recon.covered
    && b in PlanOf(disk) && f in PlanOf(disk)[b]
    && Unmentioned(disk.snapshots, b, f)
  }

  ghost predicate Unmentioned(log: seq<SnapshotRow>, b: int, f: string) {
    forall i :: 0 <= i < |log| && Relevant(log[i], b) ==> log[i].file != Some(f)
  }

  /** No window on a log that does not mention the file yields evidence for it. */
  lemma NoEvidence(rows: seq<SnapshotRow>, b: int, f: string, allowed: set<string>)
    requires Unmentioned(rows, b, f)
    ensures Collect(rows, b, allowed).Some? ==> f !in Collect(rows, b, allowed).value
  {
    CollectMeaning(rows, b, allowed);
  }

  /** What a window shows: the log without its first `unseen` records. */
  function Suffix<R>(log: seq<R>, unseen: nat): seq<R> {
    if unseen <= |log| then log[unseen..] else []
  }

  /** A command on the batch refuses, whatever HEAD, the work tree and the windows are. */
  lemma StuckRefusesAnyView(disk: Disk, unseen: nat, ledger: seq<LedgerRow>, repo: Repo, ws: Workspace, sizes: Sizes,
                            b: int, f: string)
    requires Stuck(disk, b, f)
    ensures DecideOn(disk.recon, Suffix(disk.snapshots, unseen), ledger, repo, ws, sizes, b) == None
  {
    hide WellFormed, BatchFiles, Prepared, EventBatches, Collect;
    var files := PlanOf(disk)[b];
    NoEvidence(Suffix(disk.snapshots, unseen), b, f, Sequences.Elements(files));
    assert f in Sequences.Elements(files);
  }

  /** So every later attempt refuses and writes nothing. */
  lemma StuckRefuses(disk: Disk, repo: Repo, ws: Workspace, sizes: Sizes, b: int, f: string, budget: nat)
    requires Stuck(disk, b, f)
    ensures Attempt(disk, repo, ws, sizes, b, budget) == (disk, Refused)
  {
    hide Stuck, DecideOn;
    var i := LastWithinIsSuffix(disk.snapshots, sizes.snapshot, MAX_SNAPSHOT_TAIL_BYTES - 1);
    assert disk.snapshots[0..] == disk.snapshots;
    var unseen := if Total(disk.snapshots, sizes.snapshot) <= MAX_SNAPSHOT_TAIL_BYTES then 0 else i;
    StuckRefusesAnyView(disk, unseen, SeenEvents(disk, sizes), repo, ws, sizes, b, f);
  }

  /** While the event of the batch is in the ledger's window, verification of the whole run fails. */
  lemma StuckFailsVerification(disk: Disk, ledger: seq<LedgerRow>, rows: seq<SnapshotRow>, repo: Repo, b: int,
                               f: string)
    requires Stuck(disk, b, f) && Unmentioned(rows, b, f) && b in EventBatches(ledger)
    ensures !CoverageHolds(disk.recon, ledger, rows, repo)
  {
    var files := PlanOf(disk)[b];
    AcceptedRecon(disk.recon);
    CoveredMembers(disk.recon.covered, ledger);
    NoEvidence(rows, b, f, Sequences.Elements(files));
    assert f in Sequences.Elements(files);
    hide WellFormed, BatchFiles, EventBatches, Collect, CoveredBatches;
    assert !BatchCertified(rows, PlanOf(disk), repo, b);
  }

  lemma OthersRowsUnmentioned(log: seq<SnapshotRow>, more: seq<SnapshotRow>, c: int, b: int, f: string)
    requires Unmentioned(log, b, f) && AllOf(more, c) && c != b
    ensures Unmentioned(log + more, b, f)
  {
    var all := log + more;
    assert forall i :: |log| <= i < |all| ==> all[i] == more[i - |log|];
  }

  lemma DecidedRowsAreOwn(recon: Recon, rows: seq<SnapshotRow>, ledger: seq<LedgerRow>, repo: Repo, ws: Workspace,
                          sizes: Sizes, c: int)
    requires DecideOn(recon, rows, ledger, repo, ws, sizes, c).Some?
    ensures WellFormed(recon) && c in BatchFiles(recon.batches) && c >= 1
    ensures AllOf(DecideOn(recon, rows, ledger, repo, ws, sizes, c).value.rows, c)
    ensures DecideOn(recon, rows, ledger, repo, ws, sizes, c).value.markCovered ==> c !in recon.covered
  {
    BatchFilesKeys(recon.batches);
    var i :| 0 <= i < |recon.batches| && Ids(recon.batches)[i] == c;
    assert BatchOk(recon.batches[i]);
    hide BatchFiles, Collect, Prepared, EventBatches, SnapshotsFit, BatchOk, BatchesOk;
    forall h, fs ensures AllOf(Rows(c, fs, h, repo), c) { RowsAllOf(c, fs, h, repo); }
  }

  /**
   A later command or event; the command's windows show the logs without their first records. How many those are is
   left open: the bytes of a line that no longer parses also take room in a window.
   */
  datatype Later = Later(step: Step, unseenRows: nat, unseenEvents: nat)

  ghost function ApplyLater(disk: Disk, later: Later, repo: Repo, sizes: Sizes): Disk {
    match later.step
    case Emit(row) => disk.(ledger := disk.ledger + [row])
    case Run(b, ws, budget) =>
      match DecideOn(disk.recon, Suffix(disk.snapshots, later.unseenRows), Suffix(disk.ledger, later.unseenEvents),
                     repo, ws, sizes, b)
      case None => disk
      case Some(todo) => CarryOut(disk, todo, b, sizes, budget).0
  }

  ghost function ExecLater(disk: Disk, laters: seq<Later>, repo: Repo, sizes: Sizes): Disk {
    if laters == [] then disk
    else ApplyLater(ExecLater(disk, laters[..|laters| - 1], repo, sizes), laters[|laters| - 1], repo, sizes)
  }

  lemma StillStuck(disk: Disk, later: Later, repo: Repo, sizes: Sizes, b: int, f: string)
    requires Stuck(disk, b, f)
    ensures Stuck(ApplyLater(disk, later, repo, sizes), b, f)
  {
    hide WellFormed, BatchFiles, DecideOn, Unmentioned, AllOf, Suffix;
    if later.step.Run? {
      var Run(c, ws, budget) := later.step;
      var rows, ledger := Suffix(disk.snapshots, later.unseenRows), Suffix(disk.ledger, later.unseenEvents);
      if c == b {
        StuckRefusesAnyView(disk, later.unseenRows, ledger, repo, ws, sizes, b, f);
      } else if DecideOn(disk.recon, rows, ledger, repo, ws, sizes, c).Some? {
        var todo := DecideOn(disk.recon, rows, ledger, repo, ws, sizes, c).value;
        DecidedRowsAreOwn(disk.recon, rows, ledger, repo, ws, sizes, c);
        SomeRowsAreOwn(todo.rows, c, budget);
        OthersRowsUnmentioned(disk.snapshots, if budget < |todo.rows| then todo.rows[..budget] else todo.rows, c, b, f);
        if todo.markCovered { StillWellFormed(disk.recon, c); }
      }
    }
  }

  lemma SomeRowsAreOwn(rows: seq<SnapshotRow>, c: int, budget: nat)
    requires AllOf(rows, c)
    ensures budget < |rows| ==> AllOf(rows[..budget], c)
  {
  }

  /** No run of commands ever gets the batch unstuck, whatever their windows show. */
  lemma {:induction false} StuckForever(disk: Disk, laters: seq<Later>, repo: Repo, sizes: Sizes, b: int, f: string)
    requires Stuck(disk, b, f)
    ensures Stuck(ExecLater(disk, laters, repo, sizes), b, f)
  {
    hide Stuck, ApplyLater;
    if laters != [] {
      var n := |laters| - 1;
      StuckForever(disk, laters[..n], repo, sizes, b, f);
      StillStuck(ExecLater(disk, laters[..n], repo, sizes), laters[n], repo, sizes, b, f);
    }
  }

  // ---- The retry ----

  /** What the readers see after a whole retry behind `torn`: its first row is gone exactly when `torn` is not empty. */
  function Retried(d: Disk, todo: Todo, b: int, torn: seq<byte>): Disk
    requires todo.rows != []
  {
    Disk(d.snapshots + (if torn == [] then todo.rows else todo.rows[1..]), d.ledger + todo.events,
         d.recon.(covered := d.recon.covered + [b]))
  }

  lemma {:induction false} RelevantIsOwn(log: seq<SnapshotRow>, b: int, i: nat)
    requires i < |log| && Relevant(log[i], b)
    ensures log[i] in RowsFor(log, b)
  {
    var n := |log| - 1;
    if i < n {
      assert log[..n][i] == log[i];
      RelevantIsOwn(log[..n], b, i);
    }
  }

  lemma LostRowIsUnmentioned(log: seq<SnapshotRow>, b: int, files: seq<string>, h: string, repo: Repo, k: nat)
    requires Sequences.Distinct(files) && k < |files| && |Rows(b, files, h, repo)| == |files|
    requires RowsFor(log, b) == Rows(b, files, h, repo)[..k]
    ensures Unmentioned(log + Rows(b, files, h, repo)[k..][1..], b, files[k])
  {
    hide BlobAt, RowsFor;
    var full := Rows(b, files, h, repo);
    var all := log + full[k..][1..];
    forall i | 0 <= i < |all| && Relevant(all[i], b) ensures all[i].file != Some(files[k]) {
      var j: nat;
      if i < |log| {
        RelevantIsOwn(log, b, i);
        j :| 0 <= j < k && full[..k][j] == log[i];
      } else {
        j := i - |log| + k + 1;
      }
      assert all[i] == full[j] && j != k;
    }
  }

  /** Bytes as the readers find them before and after the retry. */
  ghost predicate RetriesBehind(d: Disk, todo: Todo, torn: seq<byte>, events: Codec<LedgerRow>,
                                snapshots: Codec<SnapshotRow>, sizes: Sizes)
  {
    && todo.rows != []
    && Faithful(d.snapshots, snapshots, sizes.snapshot) && Faithful(todo.rows, snapshots, sizes.snapshot)
    && Faithful(d.ledger + todo.events, events, sizes.event)
    && Fragment(torn) && (torn != [] ==> snapshots.parse(torn + snapshots.encode(todo.rows[0])).None?)
    && |LogBytes(d.snapshots, snapshots) + torn + LogBytes(todo.rows, snapshots)| <= MAX_SNAPSHOT_TAIL_BYTES
    && |LogBytes(d.ledger + todo.events, events)| <= MAX_LEDGER_TAIL_BYTES
  }

  /** Records appended behind a fragment are read back, but for the first one if the fragment is not empty. */
  lemma ReadBehind<R(!new)>(log: seq<R>, more: seq<R>, torn: seq<byte>, codec: Codec<R>, size: R -> nat, maxBytes: nat)
    requires Faithful(log, codec, size) && Faithful(more, codec, size) && more != []
    requires Fragment(torn) && (torn != [] ==> codec.parse(torn + codec.encode(more[0])).None?)
    requires |LogBytes(log, codec) + torn + LogBytes(more, codec)| <= maxBytes
    ensures var behind := LogBytes(log, codec) + torn;
            && TailRecords(behind, maxBytes, MAX_JSONL_LINE_BYTES, codec.parse) == log
            && TailRecords(behind + LogBytes(more, codec), maxBytes, MAX_JSONL_LINE_BYTES, codec.parse)
               == log + (if torn == [] then more else more[1..])
            && (EndsLine(behind) <==> torn == [])
  {
    FaithfulWrites(log, codec, size);
    FaithfulWrites(more, codec, size);
    hide TailRecords, Encode, Faithful, Writes;
    RetryAfterTornAppend(Lines(log, codec.encode), log, torn, Lines(more, codec.encode), more, maxBytes,
                         MAX_JSONL_LINE_BYTES, codec.parse);
    WholeLogReadBack(Lines(log, codec.encode), log, torn, maxBytes, MAX_JSONL_LINE_BYTES, codec.parse);
  }

  /** A whole log that fits its window is read back. */
  lemma ReadWhole<R(!new)>(log: seq<R>, codec: Codec<R>, size: R -> nat, maxBytes: nat)
    requires Faithful(log, codec, size) && |LogBytes(log, codec)| <= maxBytes
    ensures TailRecords(LogBytes(log, codec), maxBytes, MAX_JSONL_LINE_BYTES, codec.parse) == log
  {
    FaithfulWrites(log, codec, size);
    hide TailRecords, Encode, Faithful, Writes;
    assert LogBytes(log, codec) + [] == LogBytes(log, codec);
    WholeLogReadBack(Lines(log, codec.encode), log, [], maxBytes, MAX_JSONL_LINE_BYTES, codec.parse);
  }

  lemma RetryIsRead(d: Disk, todo: Todo, b: int, torn: seq<byte>, events: Codec<LedgerRow>,
                    snapshots: Codec<SnapshotRow>, sizes: Sizes)
    requires RetriesBehind(d, todo, torn, events, snapshots, sizes)
    ensures var log := LogBytes(d.snapshots, snapshots) + torn;
            && ReadSnapshots(log, snapshots) == d.snapshots
            && ReadSnapshots(log + LogBytes(todo.rows, snapshots), snapshots) == Retried(d, todo, b, torn).snapshots
            && ReadLedger(LogBytes(d.ledger + todo.events, events), events) == Retried(d, todo, b, torn).ledger
            && (EndsLine(log) <==> torn == [])
  {
    hide TailRecords, LogBytes, Faithful, EndsLine;
    ReadBehind(d.snapshots, todo.rows, torn, snapshots, sizes.snapshot, MAX_SNAPSHOT_TAIL_BYTES);
    ReadWhole(d.ledger + todo.events, events, sizes.event, MAX_LEDGER_TAIL_BYTES);
  }

  /** At the level of records: the retry is the attempt proved correct, or leaves the batch stuck. */
  lemma {:induction false} RetriedIs(d: Disk, repo: Repo, ws: Workspace, sizes: Sizes, b: int, files: seq<string>,
                                     todo: Todo, torn: seq<byte>)
    requires Inv(d, repo, sizes) && Recoverable(d, sizes, b) && WorkspaceOk(repo, ws) && Planned(d, b, files)
    requires Decide(d, repo, ws, sizes, b) == Some(todo) && todo.rows != [] && EventWritable(d, sizes, b)
    ensures var d' := Retried(d, todo, b, torn);
            && (torn == [] ==> Inv(d', repo, sizes) && Attempt(d, repo, ws, sizes, b, |files| + 2) == (d', Done))
            && (torn != [] ==> todo.rows[0].file.Some? && Stuck(d', b, todo.rows[0].file.value))
            && b in EventBatches(d'.ledger)
  {
    hide WellFormed, BatchFiles, UniformOids, RowsFor, EventsFor, Recoverable, Decide, EventOf, StartedAt, Rows,
      EventBatches, AllInv;
    var h := AttemptFinishes(d, repo, ws, sizes, b, files);
    var k, full := |RowsFor(d.snapshots, b)|, Rows(b, files, h, repo);
    var step := Run(b, ws, |files| + 2);
    FinishingEffect(d, step, repo, sizes, files, todo, h);
    CarriedOut(d, todo, b, sizes, |files| + 2, full, k);
    assert InvAt(d, repo, sizes, b, files) by { AllInvAt(d, PlanOf(d), repo, sizes, b); }
    SelectedIs(d, repo, b);
    assert b !in d.recon.covered;
    StillWellFormed(d.recon, b);
    EventSeen(d.ledger + todo.events, b);
    LostRowIsUnmentioned(d.snapshots, b, files, h, repo, k);
    assert todo.rows[0] == full[k];
    assert full[k].file == Some(files[k]) by { RowFile(b, files, h, repo, k); }
  }

  lemma RowFile(b: int, files: seq<string>, h: string, repo: Repo, k: nat)
    requires k < |files|
    ensures |Rows(b, files, h, repo)| == |files| && Rows(b, files, h, repo)[k].file == Some(files[k])
  {
  }

  lemma LogBytesAppend<R>(log: seq<R>, more: seq<R>, codec: Codec<R>)
    ensures LogBytes(log + more, codec) == LogBytes(log, codec) + LogBytes(more, codec)
  {
    EncodeAppend(Lines(log, codec.encode), Lines(more, codec.encode));
    assert Lines(log + more, codec.encode) == Lines(log, codec.encode) + Lines(more, codec.encode);
  }

  /** Behind a newline, the retry leaves whole logs inside the windows. */
  lemma CleanRetryOnDisk(d: Disk, todo: Todo, b: int, events: Codec<LedgerRow>, snapshots: Codec<SnapshotRow>,
                         sizes: Sizes)
    requires RetriesBehind(d, todo, [], events, snapshots, sizes)
    ensures OnDisk(Retried(d, todo, b, []), LogBytes(d.ledger + todo.events, events),
                   LogBytes(d.snapshots + todo.rows, snapshots), events, snapshots, sizes)
  {
    hide Encode, WriterLine;
    LogBytesAppend(d.snapshots, todo.rows, snapshots);
    assert LogBytes(d.snapshots, snapshots) + [] == LogBytes(d.snapshots, snapshots);
    var all := d.snapshots + todo.rows;
    assert forall i :: |d.snapshots| <= i < |all| ==> all[i] == todo.rows[i - |d.snapshots|];
  }

  /**
   A retry that has rows to write succeeds in the sense the design needs if and only if the snapshot log ends in
   a newline when it starts. Otherwise it still reports success, but its first row is lost: the batch is marked
   covered, verification of the whole run fails, and no later attempt repairs it (`StuckRefuses`, `StuckForever`).
   */
  lemma {:induction false} TornRetryIsFatal(d: Disk, repo: Repo, ws: Workspace, sizes: Sizes, b: int,
                                            files: seq<string>, todo: Todo, torn: seq<byte>, events: Codec<LedgerRow>,
                                            snapshots: Codec<SnapshotRow>)
    requires Inv(d, repo, sizes) && Recoverable(d, sizes, b) && WorkspaceOk(repo, ws) && Planned(d, b, files)
    requires Decide(d, repo, ws, sizes, b) == Some(todo) && EventWritable(d, sizes, b)
    requires RetriesBehind(d, todo, torn, events, snapshots, sizes)
    ensures var log := LogBytes(d.snapshots, snapshots) + torn;
            var rows := ReadSnapshots(log + LogBytes(todo.rows, snapshots), snapshots);
            var ledger := ReadLedger(LogBytes(d.ledger + todo.events, events), events);
            var d' := Retried(d, todo, b, torn);
            && ReadSnapshots(log, snapshots) == d.snapshots && rows == d'.snapshots && ledger == d'.ledger
            && b in d'.recon.covered
            && (CoverageHolds(d'.recon, ledger, rows, repo) <==> EndsLine(log))
            && (EndsLine(log) ==> Attempt(d, repo, ws, sizes, b, |files| + 2) == (d', Done))
            && (!EndsLine(log) ==> todo.rows[0].file.Some? && Stuck(d', b, todo.rows[0].file.value))
  {
    var d' := Retried(d, todo, b, torn);
    RetryIsRead(d, todo, b, torn, events, snapshots, sizes);
    RetriedIs(d, repo, ws, sizes, b, files, todo, torn);
    hide Decide, Inv, Recoverable, Attempt, LogBytes, ReadSnapshots, ReadLedger, CoverageHolds, Stuck, EventBatches,
      WellFormed, BatchFiles, EventWritable, RetriesBehind;
    if torn == [] {
      CleanRetryVerifies(d, todo, b, repo, events, snapshots, sizes);
    } else {
      var f := todo.rows[0].file.value;
      StuckUnmentioned(d', b, f);
      StuckFailsVerification(d', d'.ledger, d'.snapshots, repo, b, f);
    }
  }

  lemma CleanRetryVerifies(d: Disk, todo: Todo, b: int, repo: Repo, events: Codec<LedgerRow>,
                           snapshots: Codec<SnapshotRow>, sizes: Sizes)
    requires RetriesBehind(d, todo, [], events, snapshots, sizes)
    requires Inv(Retried(d, todo, b, []), repo, sizes)
    ensures var d' := Retried(d, todo, b, []); CoverageHolds(d'.recon, d'.ledger, d'.snapshots, repo)
  {
    var d' := Retried(d, todo, b, []);
    CleanRetryOnDisk(d, todo, b, events, snapshots, sizes);
    OnDiskFits(d', LogBytes(d.ledger + todo.events, events), LogBytes(d.snapshots + todo.rows, snapshots),
               events, snapshots, sizes);
    hide OnDisk, Recoverable, Inv, CoverageHolds, RetriesBehind, SeenEvents, SeenSnapshots;
    ReachableStatesVerify(d', repo, sizes);
  }

  lemma StuckUnmentioned(d: Disk, b: int, f: string)
    requires Stuck(d, b, f)
    ensures Unmentioned(d.snapshots, b, f)
  {
  }

  // ---- The same behind a torn line of the ledger ----

  /** The state after a whole retry whose event merged with a torn line of the ledger, as the readers see it. */
  function EventLost(d: Disk, todo: Todo, b: int): Disk {
    Disk(d.snapshots + todo.rows, d.ledger, d.recon.(covered := d.recon.covered + [b]))
  }

  function EventFound(d: Disk, todo: Todo, b: int): Disk {
    EventLost(d, todo, b).(ledger := d.ledger + todo.events)
  }

  /** Bytes as the readers find them around a retry that writes its event behind `torn`. */
  ghost predicate EventsBehind(d: Disk, todo: Todo, torn: seq<byte>, events: Codec<LedgerRow>,
                               snapshots: Codec<SnapshotRow>, sizes: Sizes)
  {
    && todo.events != []
    && Faithful(d.snapshots + todo.rows, snapshots, sizes.snapshot)
    && Faithful(d.ledger, events, sizes.event) && Faithful(todo.events, events, sizes.event)
    && Fragment(torn) && (torn != [] ==> events.parse(torn + events.encode(todo.events[0])).None?)
    && |LogBytes(d.snapshots + todo.rows, snapshots)| <= MAX_SNAPSHOT_TAIL_BYTES
    && |LogBytes(d.ledger, events) + torn + LogBytes(todo.events + todo.events, events)| <= MAX_LEDGER_TAIL_BYTES
  }

  /** The event behind a torn line is lost; the same event appended once more is read back. */
  lemma SecondEventIsRead(d: Disk, todo: Todo, b: int, torn: seq<byte>, events: Codec<LedgerRow>,
                          snapshots: Codec<SnapshotRow>, sizes: Sizes)
    requires EventsBehind(d, todo, torn, events, snapshots, sizes) && torn != [] && |todo.events| == 1
    ensures var file := LogBytes(d.ledger, events) + torn + LogBytes(todo.events, events);
            && ReadLedger(file, events) == d.ledger
            && ReadLedger(file + LogBytes(todo.events, events), events) == d.ledger + todo.events
    ensures ReadSnapshots(LogBytes(d.snapshots + todo.rows, snapshots), snapshots) == d.snapshots + todo.rows
  {
    var ledger, event := LogBytes(d.ledger, events), LogBytes(todo.events, events);
    var twice := todo.events + todo.events;
    FaithfulTwice(todo.events, events, sizes.event);
    LogBytesAppend(todo.events, todo.events, events);
    hide TailRecords, LogBytes, Faithful, EndsLine;
    ReadBehind(d.ledger, todo.events, torn, events, sizes.event, MAX_LEDGER_TAIL_BYTES);
    ReadBehind(d.ledger, twice, torn, events, sizes.event, MAX_LEDGER_TAIL_BYTES);
    ReadWhole(d.snapshots + todo.rows, snapshots, sizes.snapshot, MAX_SNAPSHOT_TAIL_BYTES);
    assert todo.events[1..] == [] && twice[1..] == todo.events && d.ledger + [] == d.ledger;
    Sequences.Associative(ledger + torn, event, event);
  }

  lemma FaithfulTwice<R(!new)>(log: seq<R>, codec: Codec<R>, size: R -> nat)
    requires Faithful(log, codec, size)
    ensures Faithful(log + log, codec, size)
  {
  }

  /** The state without the event is the attempt stopped before it, with the batch marked covered nevertheless. */
  lemma {:induction false} LostEventIs(d: Disk, repo: Repo, ws: Workspace, sizes: Sizes, b: int, files: seq<string>,
                                       todo: Todo)
    requires Inv(d, repo, sizes) && Recoverable(d, sizes, b) && WorkspaceOk(repo, ws) && Planned(d, b, files)
    requires Decide(d, repo, ws, sizes, b) == Some(todo) && todo.events != [] && EventWritable(d, sizes, b)
    ensures todo.events == [EventOf(b)] && b !in d.recon.covered && EventsFor(d.ledger, b) == []
    ensures var stopped := EventLost(d, todo, b).(recon := d.recon);
            Inv(stopped, repo, sizes) && RowsFor(stopped.snapshots, b) != []
            && |RowsFor(stopped.snapshots, b)| == |files|
    ensures WellFormed(EventLost(d, todo, b).recon)
    ensures Inv(EventFound(d, todo, b), repo, sizes)
            && Attempt(d, repo, ws, sizes, b, |files| + 2) == (EventFound(d, todo, b), Done)
  {
    hide WellFormed, BatchFiles, UniformOids, RowsFor, EventsFor, Recoverable, Decide, EventOf, StartedAt, Rows,
      EventBatches, AllInv;
    var h := AttemptFinishes(d, repo, ws, sizes, b, files);
    var k, full := |RowsFor(d.snapshots, b)|, Rows(b, files, h, repo);
    assert InvAt(d, repo, sizes, b, files) by { AllInvAt(d, PlanOf(d), repo, sizes, b); }
    SelectedIs(d, repo, b);
    FinishingEffect(d, Run(b, ws, |todo.rows|), repo, sizes, files, todo, h);
    FinishingEffect(d, Run(b, ws, |files| + 2), repo, sizes, files, todo, h);
    CarriedOut(d, todo, b, sizes, |todo.rows|, full, k);
    StillWellFormed(d.recon, b);
    assert todo.events[..0] == [] && d.ledger + [] == d.ledger;
  }

  /** What the readers see of a disk that fits its windows. */
  lemma WholeLogsSeen(d: Disk, sizes: Sizes)
    requires FitsWindows(d, sizes)
    ensures SeenSnapshots(d, sizes) == d.snapshots && SeenEvents(d, sizes) == d.ledger
    ensures forall b :: Recoverable(d, sizes, b)
  {
    hide Recoverable, Total;
    forall b ensures Recoverable(d, sizes, b) { FittingIsRecoverable(d, sizes, b); }
  }

  lemma EventsBehindFits(d: Disk, todo: Todo, b: int, torn: seq<byte>, events: Codec<LedgerRow>,
                         snapshots: Codec<SnapshotRow>, sizes: Sizes)
    requires EventsBehind(d, todo, torn, events, snapshots, sizes)
    ensures FitsWindows(EventLost(d, todo, b), sizes)
  {
    TotalIsEncodedLength(d.snapshots + todo.rows, snapshots, sizes.snapshot);
    TotalIsEncodedLength(d.ledger, events, sizes.event);
    hide LogBytes, Faithful, Total;
  }

  /** A batch without an event in the ledger is ignored, even if it is marked covered. */
  lemma UneventedIsIgnored(covered: seq<int>, b: int, ledger: seq<LedgerRow>)
    requires b !in EventBatches(ledger)
    ensures CoveredBatches(covered + [b], ledger) == CoveredBatches(covered, ledger)
  {
    hide EventBatches;
    assert (covered + [b])[..|covered + [b]| - 1] == covered;
  }

  /** A covered batch with complete evidence and no event in sight gets its event. */
  lemma DecideCovered(d: Disk, repo: Repo, ws: Workspace, sizes: Sizes, b: int, files: seq<string>, existing: Evidence)
    requires Selected(d, repo, b, files) && b in d.recon.covered
    requires Collect(SeenSnapshots(d, sizes), b, Sequences.Elements(files)) == Some(existing)
    requires existing.Keys == Sequences.Elements(files) && Prepared(repo, ws, files, existing).Some?
    requires b !in EventBatches(SeenEvents(d, sizes))
    ensures Decide(d, repo, ws, sizes, b) == Some(Todo([], [EventOf(b)], false))
  {
    hide WellFormed, BatchFiles, SnapshotsFit, Prepared, Collect, EventBatches, Unrecorded, Rows, SeenSnapshots,
      SeenEvents, UniformOids, EventOf;
  }

  /** The next command on the batch, at whatever HEAD and work tree, appends the lost event. */
  lemma {:induction false} NextCommandRepairs(d: Disk, stopped: Disk, repo: Repo, ws: Workspace, sizes: Sizes, b: int,
                                              files: seq<string>)
    requires stopped == d.(recon := stopped.recon) && stopped.recon.batches == d.recon.batches
    requires Inv(stopped, repo, sizes) && WellFormed(d.recon) && Planned(stopped, b, files) && b in d.recon.covered
    requires FitsWindows(d, sizes) && |RowsFor(d.snapshots, b)| == |files| && EventsFor(d.ledger, b) == []
    requires sizes.event(EventOf(b)) <= MAX_JSONL_LINE_BYTES
    ensures Attempt(d, repo, ws, sizes, b, 1) == (d.(ledger := d.ledger + [EventOf(b)]), Done)
  {
    hide WellFormed, BatchFiles, UniformOids, RowsFor, EventsFor, Recoverable, EventBatches, AllInv, Collect, Prepared,
      SnapshotsFit, EventOf, FitsWindows, StartedAt;
    WholeLogsSeen(d, sizes);
    assert FitsWindows(stopped, sizes) by { SameLogsFit(d, stopped, sizes); }
    WholeLogsSeen(stopped, sizes);
    assert InvAt(stopped, repo, sizes, b, files) by { AllInvAt(stopped, PlanOf(stopped), repo, sizes, b); }
    SelectedIs(stopped, repo, b);
    SelectedIs(d, repo, b);
    assert RowsInSight(stopped, sizes, b);
    EvidenceSeen(stopped, repo, sizes, b, files);
    var rows := RowsFor(d.snapshots, b);
    assert rows != [];
    StartedFacts(stopped, repo, ws, sizes, b, files);
    EventSeen(d.ledger, b);
    DecideCovered(d, repo, ws, sizes, b, files, EvidenceAt(files[..|rows|], HeadOf(rows), repo));
    hide Decide, Selected, InvAt;
    assert d.snapshots + [] == d.snapshots;
  }

  lemma SameLogsFit(d: Disk, e: Disk, sizes: Sizes)
    requires d.snapshots == e.snapshots && d.ledger == e.ledger && FitsWindows(d, sizes)
    ensures FitsWindows(e, sizes)
  {
  }

  /**
   A retry that writes its event behind a torn line of the ledger marks the batch covered, but its event is lost.
   Verification then ignores the batch and accepts the others, and one further command on the batch, whatever HEAD
   and the work tree are, brings the directory to where the retry would have brought it.
   */
  lemma {:induction false} TornLedgerIsRepaired(d: Disk, repo: Repo, ws: Workspace, later: Workspace, sizes: Sizes,
                                                b: int, files: seq<string>, todo: Todo, torn: seq<byte>,
                                                events: Codec<LedgerRow>, snapshots: Codec<SnapshotRow>)
    requires Inv(d, repo, sizes) && Recoverable(d, sizes, b) && WorkspaceOk(repo, ws) && Planned(d, b, files)
    requires Decide(d, repo, ws, sizes, b) == Some(todo) && sizes.event(EventOf(b)) <= MAX_JSONL_LINE_BYTES
    requires EventsBehind(d, todo, torn, events, snapshots, sizes) && torn != []
    ensures var lost, found := EventLost(d, todo, b), EventFound(d, todo, b);
            var file := LogBytes(d.ledger, events) + torn + LogBytes(todo.events, events);
            && ReadLedger(file, events) == lost.ledger
            && ReadLedger(file + LogBytes(todo.events, events), events) == found.ledger
            && ReadSnapshots(LogBytes(d.snapshots + todo.rows, snapshots), snapshots) == lost.snapshots
            && b in lost.recon.covered && b !in CoveredBatches(lost.recon.covered, lost.ledger)
            && CoverageHolds(lost.recon, lost.ledger, lost.snapshots, repo)
            && Sequences.Elements(CoveredBatches(lost.recon.covered, lost.ledger))
               == Sequences.Elements(d.recon.covered)
            && Attempt(lost, repo, later, sizes, b, 1) == (found, Done)
            && Attempt(d, repo, ws, sizes, b, |files| + 2) == (found, Done) && Inv(found, repo, sizes)
  {
    var lost := EventLost(d, todo, b);
    var stopped := lost.(recon := d.recon);
    LostEventIs(d, repo, ws, sizes, b, files, todo);
    SecondEventIsRead(d, todo, b, torn, events, snapshots, sizes);
    EventsBehindFits(d, todo, b, torn, events, snapshots, sizes);
    SameLogsFit(lost, stopped, sizes);
    EventSeen(d.ledger, b);
    hide Decide, Inv, Recoverable, Attempt, LogBytes, ReadSnapshots, ReadLedger, CoverageHolds, EventBatches,
      WellFormed, BatchFiles, EventWritable, EventsBehind, FitsWindows, RowsFor, EventsFor, EventOf;
    NextCommandRepairs(lost, stopped, repo, later, sizes, b, files);
    OthersVerify(stopped, lost, repo, sizes, b);
  }

  lemma OthersVerify(stopped: Disk, lost: Disk, repo: Repo, sizes: Sizes, b: int)
    requires Inv(stopped, repo, sizes) && FitsWindows(stopped, sizes) && b !in EventBatches(stopped.ledger)
    requires lost == stopped.(recon := stopped.recon.(covered := stopped.recon.covered + [b]))
    requires WellFormed(lost.recon)
    ensures CoverageHolds(lost.recon, lost.ledger, lost.snapshots, repo)
    ensures var reported := CoveredBatches(lost.recon.covered, lost.ledger);
            b !in reported && Sequences.Elements(reported) == Sequences.Elements(stopped.recon.covered)
  {
    WholeLogsSeen(stopped, sizes);
    UneventedIsIgnored(stopped.recon.covered, b, stopped.ledger);
    hide Recoverable, FitsWindows, SeenEvents, SeenSnapshots, EventBatches, WellFormed, BatchFiles, BatchCertified;
    ReachableStatesVerify(stopped, repo, sizes);
    AcceptedRecon(stopped.recon);
    CoveredMembers(stopped.recon.covered, stopped.ledger);
  }
}
