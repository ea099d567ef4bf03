/**
 `_checkpoint`: the durable, idempotent mark of a hunted batch, with crashes between any two durable writes.
 Logs are lists of whole lines; `budget` is the number of durable writes before the process stops.
 */
module Checkpoint {
  import opened Wrappers
  import opened Sequences
  import opened GitObjects
  import ReconValidation
  import JsonlTail
  import opened Coverage

  /** What is on disk in the run directory. */
  datatype Disk = Disk(snapshots: seq<SnapshotRow>, ledger: seq<LedgerRow>, recon: ReconValidation.Recon)

  /** The repository's mutable side: the commit HEAD names, if it resolves, and the locally changed paths. */
  datatype Workspace = Workspace(head: Option<string>, dirty: set<string>)

  /** Encoded line lengths, newline included. */
  datatype Sizes = Sizes(snapshot: SnapshotRow -> nat, event: LedgerRow -> nat)

  datatype Outcome = Done | Refused | Crashed

  function SnapshotOf(batch: int, file: string, head: string, blob: string): SnapshotRow {
    SnapshotRow(true, Int(batch), Some(file), Some(head), Some(blob))
  }

  function EventOf(batch: int): LedgerRow {
    LedgerRow("batch_covered", Int(batch), Absent)
  }

  // ---- The bounded window on whole records ----

  function Total<R>(log: seq<R>, size: R -> nat): nat {
    if log == [] then 0 else size(log[0]) + Total(log[1..], size)
  }

  function LastWithin<R>(log: seq<R>, size: R -> nat, budget: nat): seq<R> {
    if Total(log, size) <= budget || log == [] then log else LastWithin(log[1..], size, budget)
  }

  /** The records the bounded reader sees; a cut window loses one byte to the line it starts in. */
  function Visible<R(!new)>(log: seq<R>, size: R -> nat, maxBytes: nat): seq<R>
    requires maxBytes > 0
  {
    if Total(log, size) <= maxBytes then log else LastWithin(log, size, maxBytes - 1)
  }

  // ---- What one attempt decides to write ----

  /** The head recorded for the first file that has evidence. */
  function RecordedHead(existing: Evidence, files: seq<string>): string {
    if files == [] then "" else if files[0] in existing then existing[files[0]].0
        else RecordedHead(existing, files[1..])
  }

  /** `_verify_or_prepare_snapshots`: the head to snapshot at, or an error. */
  function Prepared(repo: Repo, ws: Workspace, files: seq<string>, existing: Evidence): Option<string> {
    var head :=
      if existing != map[] then
        var recorded := RecordedHead(existing, files);
        if (forall f :: f in existing ==> existing[f].0 == recorded) && Resolves(repo, recorded) then Some(recorded)
            else None
      else if ws.head.Some? && ws.head.value in repo.commits && (forall f :: f in files ==> f !in ws.dirty) then ws.head
      else None;
    if head.Some? && AllExact(repo, head.value, files)
       && forall f :: f in existing ==>
            existing[f].0 == head.value && BlobAt(repo, head.value, f) == Some(existing[f].1)
    then head else None
  }

  /**
   A head is admissible exactly when every file is an exact object there and every recorded row names that head and
   the blob it holds; with no row recorded it must also be today's HEAD with the files unchanged, and with some it
   must still resolve to itself.
   */
  lemma PreparedExactlyWhen(repo: Repo, ws: Workspace, files: seq<string>, existing: Evidence, head: string)
    requires existing.Keys <= Elements(files)
    ensures Prepared(repo, ws, files, existing) == Some(head) <==>
              && AllExact(repo, head, files)
              && (forall f :: f in existing ==> existing[f].0 == head && BlobAt(repo, head, f) == Some(existing[f].1))
              && if existing == map[] then ws.head == Some(head) && head in repo.commits
                                           && forall f :: f in files ==> f !in ws.dirty
                 else Resolves(repo, head)
  {
    hide AllExact, BlobAt, Resolves;
    if existing != map[] {
      RecordedHeadIsOne(existing, files);
    }
  }

  function Rows(batch: int, files: seq<string>, head: string, repo: Repo): seq<SnapshotRow> {
    seq(|files|, i requires 0 <= i < |files| =>
      SnapshotOf(batch, files[i], head, match BlobAt(repo, head, files[i]) case Some(oid) => oid case None => ""))
  }

  function Unrecorded(files: seq<string>, existing: Evidence): seq<string> {
    if files == [] then []
    else
      var front, f := files[..|files| - 1], files[|files| - 1];
      if f in existing then Unrecorded(front, existing) else Unrecorded(front, existing) + [f]
  }

  /** The whole batch must fit the recovery window, and each line the line limit. */
  predicate SnapshotsFit(rows: seq<SnapshotRow>, sizes: Sizes) {
    && (forall i :: 0 <= i < |rows| ==> sizes.snapshot(rows[i]) <= JsonlTail.MAX_JSONL_LINE_BYTES)
    && Total(rows, sizes.snapshot) <= MAX_SNAPSHOT_TAIL_BYTES - JsonlTail.MAX_JSONL_LINE_BYTES
  }

  datatype Todo = Todo(rows: seq<SnapshotRow>, events: seq<LedgerRow>, markCovered: bool)

  function SeenSnapshots(disk: Disk, sizes: Sizes): seq<SnapshotRow> {
    Visible(disk.snapshots, sizes.snapshot, MAX_SNAPSHOT_TAIL_BYTES)
  }

  function SeenEvents(disk: Disk, sizes: Sizes): seq<LedgerRow> {
    Visible(disk.ledger, sizes.event, MAX_LEDGER_TAIL_BYTES)
  }

  /** The checks of `_checkpoint` up to its first write; `None` stands for a raised error. */
  ghost function Decide(disk: Disk, repo: Repo, ws: Workspace, sizes: Sizes, batch: int): Option<Todo> {
    DecideOn(disk.recon, SeenSnapshots(disk, sizes), SeenEvents(disk, sizes), repo, ws, sizes, batch)
  }

  /** The same on the records that the windows show. */
  ghost function DecideOn(recon: ReconValidation.Recon, rows: seq<SnapshotRow>, ledger: seq<LedgerRow>, repo: Repo,
                          ws: Workspace, sizes: Sizes, batch: int): Option<Todo>
  {
    if !ReconValidation.WellFormed(recon) || batch !in ReconValidation.BatchFiles(recon.batches) then None
    else
      var files := ReconValidation.BatchFiles(recon.batches)[batch];
      match Collect(rows, batch, Elements(files))
      case None => None
      case Some(existing) =>
        var eventSeen := batch in EventBatches(ledger);
        var events := if eventSeen then [] else [EventOf(batch)];
        var complete := existing.Keys == Elements(files);
        match Prepared(repo, ws, files, existing)
        case None => None
        case Some(head) =>
          if batch in recon.covered then
            if complete then Some(Todo([], events, false)) else None
          else if eventSeen && !complete then None
          else if !SnapshotsFit(Rows(batch, files, head, repo), sizes) then None
          else Some(Todo(Rows(batch, Unrecorded(files, existing), head, repo), events, true))
  }

  // ---- Carrying it out under a write budget ----

  function AppendUpTo<R>(log: seq<R>, more: seq<R>, budget: nat): seq<R> {
    if budget < |more| then log + more[..budget] else log + more
  }

  function CarryOut(disk: Disk, todo: Todo, batch: int, sizes: Sizes, budget: nat): (Disk, Outcome) {
    var d1 := disk.(snapshots := AppendUpTo(disk.snapshots, todo.rows, budget));
    if budget < |todo.rows| then (d1, Crashed)
    else
      var budget1 := budget - |todo.rows|;
      if todo.events != [] && sizes.event(EventOf(batch)) > JsonlTail.MAX_JSONL_LINE_BYTES then (d1, Refused)
      else
        var d2 := d1.(ledger := AppendUpTo(disk.ledger, todo.events, budget1));
        if budget1 < |todo.events| then (d2, Crashed)
        else if !todo.markCovered then (d2, Done)
        else if budget1 - |todo.events| == 0 then (d2, Crashed)
        else (d2.(recon := disk.recon.(covered := disk.recon.covered + [batch])), Done)
  }

  /** One run of the checkpoint command that may stop after any durable write. */
  ghost function Attempt(disk: Disk, repo: Repo, ws: Workspace, sizes: Sizes, batch: int,
                         budget: nat): (Disk, Outcome) {
    match Decide(disk, repo, ws, sizes, batch)
    case None => (disk, Refused)
    case Some(todo) => CarryOut(disk, todo, batch, sizes, budget)
  }

  // ---- The command as it runs ----

  method TotalSize(rows: seq<SnapshotRow>, sizes: Sizes) returns (ok: bool)
    ensures ok <==> SnapshotsFit(rows, sizes)
  {
    var total := 0;
    assert rows[0..] == rows;
    for i := 0 to |rows|
      invariant forall k :: 0 <= k < i ==> sizes.snapshot(rows[k]) <= JsonlTail.MAX_JSONL_LINE_BYTES
      invariant total + Total(rows[i..], sizes.snapshot) == Total(rows, sizes.snapshot)
    {
      assert rows[i..][1..] == rows[i + 1..];
      if sizes.snapshot(rows[i]) > JsonlTail.MAX_JSONL_LINE_BYTES {
        return false;
      }
      total := total + sizes.snapshot(rows[i]);
    }
    assert rows[|rows|..] == [];
    ok := total <= MAX_SNAPSHOT_TAIL_BYTES - JsonlTail.MAX_JSONL_LINE_BYTES;
  }

  /** `_require_head_clean`, chunk by chunk. */
  method RequireHeadClean(ws: Workspace, files: seq<string>) returns (ok: bool)
    ensures ok <==> forall f :: f in files ==> f !in ws.dirty
  {
    var chunks := PathChunks(files);
    for i := 0 to |chunks|
      invariant forall k, f :: 0 <= k < i && f in chunks[k] ==> f !in ws.dirty
    {
      if exists f :: f in chunks[i] && f in ws.dirty {
        ghost var f :| f in chunks[i] && f in ws.dirty;
        InFlatten(chunks, f);
        return false;
      }
    }
    forall f | f in files ensures f !in ws.dirty { InFlatten(chunks, f); }
    ok := true;
  }

  /** `_verify_or_prepare_snapshots`. */
  method VerifyOrPrepare(repo: Repo, ws: Workspace, files: seq<string>, existing: Evidence)
      returns (r: Option<(string, map<string, string>)>)
    requires Distinct(files) && existing.Keys <= Elements(files)
    ensures r.Some? <==> Prepared(repo, ws, files, existing).Some?
    ensures r.Some? ==> Prepared(repo, ws, files, existing) == Some(r.value.0)
                        && AllExact(repo, r.value.0, files) && r.value.1 == BlobMap(repo, r.value.0, files)
  {
    hide ValidOid;
    var head := "";
    if existing != map[] {
      var heads := set f | f in existing :: existing[f].0;
      RecordedHeadIsOne(existing, files);
      var recorded := RecordedHead(existing, files);
      if heads != {recorded} {
        assert exists f :: f in existing && existing[f].0 != recorded;
        return None;
      }
      forall f | f in existing ensures existing[f].0 == recorded { assert existing[f].0 in heads; }
      if ResolveCommit(repo, recorded) != Some(recorded) {
        return None;
      }
      head := recorded;
    } else {
      if ws.head.None? || ws.head.value !in repo.commits {
        return None;
      }
      var clean := RequireHeadClean(ws, files);
      if !clean {
        return None;
      }
      head := ws.head.value;
    }
    var blobs := BlobOids(repo, head, files);
    if blobs.Failure? {
      return None;
    }
    var expected := blobs.value;
    if exists f :: f in existing && (existing[f].0 != head || f !in expected || expected[f] != existing[f].1) {
      ghost var f :| f in existing && (existing[f].0 != head || f !in expected || expected[f] != existing[f].1);
      assert f in Elements(files);
      assert f in files && BlobAt(repo, head, f) == Some(expected[f]);
      return None;
    }
    forall f | f in existing ensures BlobAt(repo, head, f) == Some(existing[f].1) {
      assert f in Elements(files);
      assert f in files;
    }
    r := Some((head, expected));
  }

  lemma RecordedHeadIsOne(existing: Evidence, files: seq<string>)
    requires existing != map[] && existing.Keys <= Elements(files)
    ensures exists f :: f in existing && existing[f].0 == RecordedHead(existing, files)
  {
    var f :| f in existing;
    assert f in Elements(files);
    RecordedHeadFound(existing, files);
  }

  lemma RecordedHeadFound(existing: Evidence, files: seq<string>)
    requires exists f :: f in existing && f in files
    ensures exists f :: f in existing && existing[f].0 == RecordedHead(existing, files)
  {
    if files[0] !in existing { RecordedHeadFound(existing, files[1..]); }
  }

  /** The snapshot records for `files`, from the looked-up blobs. */
  method MakeRows(batch: int, files: seq<string>, head: string, expected: map<string, string>, repo: Repo)
      returns (rows: seq<SnapshotRow>)
    requires forall f :: f in files ==> f in expected && BlobAt(repo, head, f) == Some(expected[f])
    ensures rows == Rows(batch, files, head, repo)
  {
    hide BlobAt;
    rows := [];
    for i := 0 to |files|
      invariant rows == Rows(batch, files, head, repo)[..i]
    {
      assert files[i] in files;
      assert Rows(batch, files, head, repo)[i] == SnapshotOf(batch, files[i], head, expected[files[i]]);
      rows := rows + [SnapshotOf(batch, files[i], head, expected[files[i]])];
    }
  }

  /** `_event_exists`. */
  method EventExists(values: seq<LedgerRow>, batch: int) returns (found: bool)
    ensures found <==> batch in EventBatches(values)
  {
    for i := 0 to |values|
      invariant batch !in EventBatches(values[..i])
    {
      assert values[..i + 1] == values[..i] + [values[i]];
      EventBatchesSnoc(values[..i], values[i]);
      if EventBatch(values[i]) == Some(batch) {
        assert values[i] in values;
        return true;
      }
    }
    assert values[..|values|] == values;
    found := false;
  }

  lemma UnrecordedMembers(files: seq<string>, existing: Evidence)
    ensures forall f :: f in Unrecorded(files, existing) <==> f in files && f !in existing
  {
    if files != [] {
      UnrecordedMembers(files[..|files| - 1], existing);
      assert files == files[..|files| - 1] + [files[|files| - 1]];
    }
  }

  lemma CollectKeysAllowed(rows: seq<SnapshotRow>, batch: int, allowed: set<string>)
    requires Collect(rows, batch, allowed).Some?
    ensures Collect(rows, batch, allowed).value.Keys <= allowed
  {
    CollectMeaning(rows, batch, allowed);
  }

  /** The run directory: two append-only logs and the atomically replaced recon.json. */
  class RunDirectory {
    var snapshots: seq<SnapshotRow>
    var ledger: seq<LedgerRow>
    var recon: ReconValidation.Recon

    function Contents(): Disk
      reads this
    {
      Disk(snapshots, ledger, recon)
    }

    constructor (snapshots: seq<SnapshotRow>, ledger: seq<LedgerRow>, recon: ReconValidation.Recon)
      ensures Contents() == Disk(snapshots, ledger, recon)
    {
      this.snapshots, this.ledger, this.recon := snapshots, ledger, recon;
    }

    /** Durable line appends; `None` when the process stops part way. */
    method AppendSnapshots(rows: seq<SnapshotRow>, budget: nat) returns (left: Option<nat>)
      modifies this`snapshots
      ensures snapshots == AppendUpTo(old(snapshots), rows, budget)
      ensures left == if budget < |rows| then None else Some(budget - |rows|)
    {
      assert old(snapshots) + rows[..0] == old(snapshots);
      for i := 0 to |rows|
        invariant i <= budget && snapshots == old(snapshots) + rows[..i]
      {
        if i == budget {
          return None;
        }
        assert rows[..i + 1] == rows[..i] + [rows[i]];
        snapshots := snapshots + [rows[i]];
      }
      assert rows[..|rows|] == rows;
      left := Some(budget - |rows|);
    }

    method AppendEvents(rows: seq<LedgerRow>, budget: nat) returns (left: Option<nat>)
      modifies this`ledger
      ensures ledger == AppendUpTo(old(ledger), rows, budget)
      ensures left == if budget < |rows| then None else Some(budget - |rows|)
    {
      assert old(ledger) + rows[..0] == old(ledger);
      for i := 0 to |rows|
        invariant i <= budget && ledger == old(ledger) + rows[..i]
      {
        if i == budget {
          return None;
        }
        assert rows[..i + 1] == rows[..i] + [rows[i]];
        ledger := ledger + [rows[i]];
      }
      assert rows[..|rows|] == rows;
      left := Some(budget - |rows|);
    }

    /** The checks of `_checkpoint` before its first write. */
    method Check(repo: Repo, ws: Workspace, sizes: Sizes, batch: int) returns (todo: Option<Todo>)
      ensures todo == Decide(Contents(), repo, ws, sizes, batch)
    {
      hide ReconValidation.WellFormed, Collect, Prepared, Visible, SnapshotsFit, AllExact, BlobAt, Rows,
          ReconValidation.BatchFiles, EventBatches;
      var validated := ReconValidation.ValidateReconPlan(recon);
      if validated.Failure? || batch !in validated.value.0 {
        return None;
      }
      var (batchFiles, covered) := validated.value;
      var files := batchFiles[batch];
      AcceptedRecon(recon);
      var seen := SeenSnapshots(Contents(), sizes);
      var records := SnapshotRecords(seen, batch, files);
      var eventSeen := EventExists(SeenEvents(Contents(), sizes), batch);
      if records.None? {
        return None;
      }
      var existing := records.value;
      CollectKeysAllowed(seen, batch, Elements(files));
      var complete := existing.Keys == Elements(files);
      var prepared := VerifyOrPrepare(repo, ws, files, existing);
      var events := if eventSeen then [] else [EventOf(batch)];
      if batch in covered {
        if !complete || prepared.None? {
          return None;
        }
        return Some(Todo([], events, false));
      }
      if prepared.None? {
        return None;
      }
      if eventSeen && !complete {
        return None;
      }
      var (head, expected) := prepared.value;
      ExactBlobsKnown(repo, head, files);
      UnrecordedMembers(files, existing);
      var full := MakeRows(batch, files, head, expected, repo);
      var missing := MakeRows(batch, Unrecorded(files, existing), head, expected, repo);
      var fits := TotalSize(full, sizes);
      if !fits {
        return None;
      }
      todo := Some(Todo(missing, events, true));
    }

    /** `_checkpoint`, stopping after `budget` durable writes. */
    method Checkpoint(repo: Repo, ws: Workspace, sizes: Sizes, batch: int, budget: nat) returns (outcome: Outcome)
      modifies this
      ensures (Contents(), outcome) == Attempt(old(Contents()), repo, ws, sizes, batch, budget)
    {
      hide Decide;
      var todo := Check(repo, ws, sizes, batch);
      if todo.None? {
        return Refused;
      }
      var Todo(rows, events, markCovered) := todo.value;
      var left := AppendSnapshots(rows, budget);
      if left.None? {
        return Crashed;
      }
      if events != [] && sizes.event(EventOf(batch)) > JsonlTail.MAX_JSONL_LINE_BYTES {
        return Refused;
      }
      left := AppendEvents(events, left.value);
      if left.None? {
        return Crashed;
      }
      if markCovered {
        if left.value == 0 {
          return Crashed;
        }
        recon := recon.(covered := recon.covered + [batch]);
      }
      outcome := Done;
    }
  }

  lemma ExactBlobsKnown(repo: Repo, head: string, files: seq<string>)
    requires AllExact(repo, head, files)
    ensures forall f :: f in files ==>
              f in BlobMap(repo, head, files) && BlobAt(repo, head, f) == Some(BlobMap(repo, head, files)[f])
  {
    hide ValidOid;
  }
}
