/** `verify_run_coverage`: the read-only proof that covered batches have exact snapshots. */
module Coverage {
  import opened Wrappers
  import opened Sequences
  import opened Sorting
  import opened GitObjects
  import opened ReconValidation
  import opened JsonlTail

  const MAX_LEDGER_TAIL_BYTES: nat := 4 * 1024 * 1024
  const MAX_SNAPSHOT_TAIL_BYTES: nat := 32 * 1024 * 1024

  /** A field of a parsed record: missing, an integer, or some other JSON value. */
  datatype Field = Absent | Int(n: int) | NotInt

  /** A record of the snapshot log; a non-string file, head or blob reads as `None`. */
  datatype SnapshotRow = SnapshotRow(schemaOne: bool, batch: Field, file: Option<string>, head: Option<string>,
                                     blob: Option<string>)

  /** A record of the event ledger. */
  datatype LedgerRow = LedgerRow(event: string, batch: Field, id: Field)

  datatype Verified = Verified(batch: int, file: string, head: string, blob: string)

  /** A file's recorded head and blob. */
  type Evidence = map<string, (string, string)>

  /** `_batch_id`. */
  function BatchNumber(field: Field): Option<int> {
    if field.Int? && field.n >= 1 then Some(field.n) else None
  }

  /** The batch a ledger record covers, if it is a well-formed coverage event. */
  function EventBatch(row: LedgerRow): Option<int> {
    if row.event != "batch_covered" then None
    else BatchNumber(if row.batch.Absent? then row.id else row.batch)
  }

  /** A record covers a batch when it names it by a positive number, under `batch` or, without that field, `id`. */
  lemma EventNames(row: LedgerRow, batch: int)
    ensures EventBatch(row) == Some(batch) <==>
              row.event == "batch_covered" && batch > 0
              && (row.batch == Int(batch) || (row.batch == Absent && row.id == Int(batch)))
  {
  }

  predicate Relevant(row: SnapshotRow, batch: int) {
    BatchNumber(row.batch) == Some(batch)
  }

  predicate Usable(row: SnapshotRow, allowed: set<string>) {
    && row.schemaOne
    && row.file.Some? && row.file.value in allowed
    && row.head.Some? && ValidOid(row.head.value)
    && row.blob.Some? && ValidOid(row.blob.value)
    && |row.head.value| == |row.blob.value|
  }

  /** A row is usable when it is one the checkpoint could have written for an allowed file. */
  lemma UsableIsWritten(row: SnapshotRow, allowed: set<string>)
    ensures Usable(row, allowed) <==>
              exists file, head, blob ::
                && row == SnapshotRow(true, row.batch, Some(file), Some(head), Some(blob))
                && file in allowed && ValidOid(head) && ValidOid(blob) && (|head| == 40 <==> |blob| == 40)
  {
    hide HexDigit;
    if Usable(row, allowed) {
      assert row == SnapshotRow(true, row.batch, Some(row.file.value), Some(row.head.value), Some(row.blob.value));
    }
  }

  // ---- Snapshot records of one batch ----

  function Absorb(acc: Option<Evidence>, row: SnapshotRow, batch: int, allowed: set<string>): Option<Evidence> {
    if acc.None? || !Relevant(row, batch) then acc
    else if !Usable(row, allowed) then None
    else
      var current := (row.head.value, row.blob.value);
      if row.file.value in acc.value && acc.value[row.file.value] != current then None
      else Some(acc.value[row.file.value := current])
  }

  function Collect(rows: seq<SnapshotRow>, batch: int, allowed: set<string>): Option<Evidence> {
    if rows == [] then Some(map[])
    else Absorb(Collect(rows[..|rows| - 1], batch, allowed), rows[|rows| - 1], batch, allowed)
  }

  /** `_snapshot_records_from_values`. */
  method SnapshotRecords(values: seq<SnapshotRow>, batch: int, files: seq<string>) returns (r: Option<Evidence>)
    ensures r == Collect(values, batch, Elements(files))
  {
    hide ValidOid;
    var allowed := Elements(files);
    var records: Evidence := map[];
    for i := 0 to |values|
      invariant Collect(values[..i], batch, allowed) == Some(records)
    {
      var value := values[i];
      assert values[..i + 1][..i] == values[..i] && values[..i + 1][i] == value;
      if BatchNumber(value.batch) != Some(batch) {
        continue;
      }
      if !Usable(value, allowed) {
        FailureSticks(values, i + 1, batch, allowed);
        return None;
      }
      var current := (value.head.value, value.blob.value);
      if value.file.value in records && records[value.file.value] != current {
        FailureSticks(values, i + 1, batch, allowed);
        return None;
      }
      records := records[value.file.value := current];
    }
    assert values[..|values|] == values;
    r := Some(records);
  }

  lemma FailureSticks(rows: seq<SnapshotRow>, n: nat, batch: int, allowed: set<string>)
    requires n <= |rows| && Collect(rows[..n], batch, allowed).None?
    ensures Collect(rows, batch, allowed).None?
    decreases |rows|
  {
    if n == |rows| {
      assert rows[..n] == rows;
    } else {
      assert rows[..|rows| - 1][..n] == rows[..n];
      FailureSticks(rows[..|rows| - 1], n, batch, allowed);
    }
  }

  ghost predicate Agreeing(rows: seq<SnapshotRow>, batch: int, allowed: set<string>) {
    && (forall i :: 0 <= i < |rows| && Relevant(rows[i], batch) ==> Usable(rows[i], allowed))
    && (forall i, j :: 0 <= i < j < |rows| && Relevant(rows[i], batch) && Relevant(rows[j], batch)
                       && rows[i].file == rows[j].file ==>
          rows[i].head == rows[j].head && rows[i].blob == rows[j].blob)
  }

  predicate Says(row: SnapshotRow, batch: int, f: string, said: (string, string)) {
    Relevant(row, batch) && row.schemaOne && row.file == Some(f) && row.head == Some(said.0) && row.blob == Some(said.1)
  }

  /** Some row of the log records this head and blob for the file. */
  ghost predicate Witnessed(rows: seq<SnapshotRow>, batch: int, f: string, said: (string, string)) {
    exists i :: 0 <= i < |rows| && Says(rows[i], batch, f, said)
  }

  /** `m` holds what the batch's rows say, for allowed files only. */
  ghost predicate Describes(m: Evidence, rows: seq<SnapshotRow>, batch: int, allowed: set<string>) {
    && (forall i :: 0 <= i < |rows| && Relevant(rows[i], batch) ==>
          rows[i].file.Some? && rows[i].file.value in m
              && Says(rows[i], batch, rows[i].file.value, m[rows[i].file.value]))
    && (forall f :: f in m ==> f in allowed && Witnessed(rows, batch, f, m[f]))
  }

  lemma {:induction false} AbsorbMeaning(front: seq<SnapshotRow>, row: SnapshotRow, m: Evidence, batch: int,
                                         allowed: set<string>)
    requires Agreeing(front, batch, allowed) && Describes(m, front, batch, allowed)
    ensures match Absorb(Some(m), row, batch, allowed)
            case None => !Agreeing(front + [row], batch, allowed)
            case Some(m') => Agreeing(front + [row], batch, allowed) && Describes(m', front + [row], batch, allowed)
  {
    assert (front + [row])[|front|] == row;
    if Relevant(row, batch) && !Usable(row, allowed) {
    } else if Relevant(row, batch) && row.file.value in m && m[row.file.value] != (row.head.value, row.blob.value) {
      Conflict(front, row, m, batch, allowed);
    } else {
      Harmless(front, row, m, batch, allowed);
    }
  }

  lemma Conflict(front: seq<SnapshotRow>, row: SnapshotRow, m: Evidence, batch: int, allowed: set<string>)
    requires Describes(m, front, batch, allowed) && Relevant(row, batch) && Usable(row, allowed)
    requires row.file.value in m && m[row.file.value] != (row.head.value, row.blob.value)
    ensures !Agreeing(front + [row], batch, allowed)
  {
    hide ValidOid;
    var rows, f := front + [row], row.file.value;
    var i :| 0 <= i < |front| && Says(front[i], batch, f, m[f]);
    assert rows[i] == front[i] && rows[|front|] == row;
  }

  lemma Harmless(front: seq<SnapshotRow>, row: SnapshotRow, m: Evidence, batch: int, allowed: set<string>)
    requires Agreeing(front, batch, allowed) && Describes(m, front, batch, allowed)
    requires Relevant(row, batch) ==> Usable(row, allowed)
    requires Relevant(row, batch) && row.file.value in m ==> m[row.file.value] == (row.head.value, row.blob.value)
    ensures var m' := if Relevant(row, batch) then m[row.file.value := (row.head.value, row.blob.value)] else m;
            Agreeing(front + [row], batch, allowed) && Describes(m', front + [row], batch, allowed)
  {
    StillAgreeing(front, row, m, batch, allowed);
    StillDescribed(front, row, m, batch, allowed);
  }

  lemma StillAgreeing(front: seq<SnapshotRow>, row: SnapshotRow, m: Evidence, batch: int, allowed: set<string>)
    requires Agreeing(front, batch, allowed) && Describes(m, front, batch, allowed)
    requires Relevant(row, batch) ==> Usable(row, allowed)
    requires Relevant(row, batch) && row.file.value in m ==> m[row.file.value] == (row.head.value, row.blob.value)
    ensures Agreeing(front + [row], batch, allowed)
  {
    hide ValidOid, Witnessed;
    var rows := front + [row];
    assert rows[|front|] == row && forall i :: 0 <= i < |front| ==> rows[i] == front[i];
    if Relevant(row, batch) {
      forall i | 0 <= i < |front| && Relevant(front[i], batch) && front[i].file == row.file
        ensures front[i].head == row.head && front[i].blob == row.blob
      {
        assert Says(front[i], batch, front[i].file.value, m[front[i].file.value]);
      }
    }
  }

  lemma StillDescribed(front: seq<SnapshotRow>, row: SnapshotRow, m: Evidence, batch: int, allowed: set<string>)
    requires Describes(m, front, batch, allowed)
    requires Relevant(row, batch) ==> Usable(row, allowed)
    requires Relevant(row, batch) && row.file.value in m ==> m[row.file.value] == (row.head.value, row.blob.value)
    ensures var m' := if Relevant(row, batch) then m[row.file.value := (row.head.value, row.blob.value)] else m;
            Describes(m', front + [row], batch, allowed)
  {
    hide ValidOid;
    var rows := front + [row];
    assert rows[|front|] == row && forall i :: 0 <= i < |front| ==> rows[i] == front[i];
    forall f | f in m ensures Witnessed(rows, batch, f, m[f]) {
      var i :| 0 <= i < |front| && Says(front[i], batch, f, m[f]);
      assert Says(rows[i], batch, f, m[f]);
    }
    if Relevant(row, batch) {
      assert Says(rows[|front|], batch, row.file.value, (row.head.value, row.blob.value));
    }
  }

  /** The evidence exists exactly when the batch's rows are usable and agree, and then holds what they say. */
  lemma {:induction false} CollectMeaning(rows: seq<SnapshotRow>, batch: int, allowed: set<string>)
    ensures match Collect(rows, batch, allowed)
            case None => !Agreeing(rows, batch, allowed)
            case Some(m) => Agreeing(rows, batch, allowed) && Describes(m, rows, batch, allowed)
  {
    if rows != [] {
      var n := |rows| - 1;
      hide Usable;
      CollectMeaning(rows[..n], batch, allowed);
      assert rows == rows[..n] + [rows[n]];
      hide Describes, Agreeing;
      match Collect(rows[..n], batch, allowed)
      case None =>
      case Some(m) => AbsorbMeaning(rows[..n], rows[n], m, batch, allowed);
    }
  }

  // ---- What makes a batch covered ----

  /** What the evidence records for a file, as head and blob. */
  function Recorded(evidence: Evidence, f: string): (string, string) {
    if f in evidence then evidence[f] else ("", "")
  }

  /** The head recorded for the first file of a batch. */
  function HeadIn(evidence: Evidence, files: seq<string>): string {
    if files == [] then "" else Recorded(evidence, files[0]).0
  }

  /** The evidence names every file of the batch and no other, all at one head. */
  predicate Complete(evidence: Evidence, files: seq<string>) {
    && files != []
    && evidence.Keys == Elements(files)
    && forall f :: f in files ==> Recorded(evidence, f).0 == HeadIn(evidence, files)
  }

  /** `_resolve_commit` on a recorded object ID. */
  function ResolveCommit(repo: Repo, revision: string): Option<string> {
    if ValidOid(revision) && revision in repo.commits && ValidOid(repo.commits[revision])
    then Some(repo.commits[revision]) else None
  }

  predicate Resolves(repo: Repo, head: string) {
    ResolveCommit(repo, head) == Some(head)
  }

  /** The blob a commit holds at an exact tracked path. */
  function BlobAt(repo: Repo, head: string, f: string): Option<string> {
    if head in repo.trees && Exact(repo.trees[head], f) then Some(repo.trees[head][f].oid) else None
  }

  /** Complete evidence at a resolvable head, each blob being the one that commit holds. */
  predicate Certified(evidence: Evidence, files: seq<string>, repo: Repo) {
    && Complete(evidence, files)
    && Resolves(repo, HeadIn(evidence, files))
    && forall f :: f in files ==> BlobAt(repo, HeadIn(evidence, files), f) == Some(Recorded(evidence, f).1)
  }

  function FilesIn(batchFiles: map<int, seq<string>>, b: int): seq<string> {
    if b in batchFiles then batchFiles[b] else []
  }

  function EvidenceFor(rows: seq<SnapshotRow>, batchFiles: map<int, seq<string>>, b: int): Option<Evidence> {
    Collect(rows, b, Elements(FilesIn(batchFiles, b)))
  }

  function BatchHead(rows: seq<SnapshotRow>, batchFiles: map<int, seq<string>>, b: int): string {
    match EvidenceFor(rows, batchFiles, b)
    case None => ""
    case Some(m) => HeadIn(m, FilesIn(batchFiles, b))
  }

  predicate BatchComplete(rows: seq<SnapshotRow>, batchFiles: map<int, seq<string>>, b: int) {
    match EvidenceFor(rows, batchFiles, b)
    case None => false
    case Some(m) => Complete(m, FilesIn(batchFiles, b))
  }

  predicate BatchCertified(rows: seq<SnapshotRow>, batchFiles: map<int, seq<string>>, repo: Repo, b: int) {
    match EvidenceFor(rows, batchFiles, b)
    case None => false
    case Some(m) => Certified(m, FilesIn(batchFiles, b), repo)
  }

  function RowsOf(batch: int, files: seq<string>, evidence: Evidence): seq<Verified> {
    seq(|files|, i requires 0 <= i < |files| =>
      Verified(batch, files[i], Recorded(evidence, files[i]).0, Recorded(evidence, files[i]).1))
  }

  function BatchRows(rows: seq<SnapshotRow>, batchFiles: map<int, seq<string>>, b: int): seq<Verified> {
    match EvidenceFor(rows, batchFiles, b)
    case None => []
    case Some(m) => RowsOf(b, FilesIn(batchFiles, b), m)
  }

  function VerifiedRows(covered: seq<int>, batchFiles: map<int, seq<string>>, rows: seq<SnapshotRow>): seq<Verified> {
    if covered == [] then []
    else VerifiedRows(covered[..|covered| - 1], batchFiles, rows) + BatchRows(rows, batchFiles, covered[|covered| - 1])
  }

  function EventBatches(rows: seq<LedgerRow>): set<int> {
    set r | r in rows && EventBatch(r).Some? :: EventBatch(r).value
  }

  predicate IntLeq(a: int, b: int) {
    a <= b
  }

  /** The batches claimed by both recon.json and the ledger, in ascending order. */
  function CoveredBatches(covered: seq<int>, ledger: seq<LedgerRow>): seq<int> {
    Sort(Both(covered, EventBatches(ledger)), IntLeq)
  }

  function Both(covered: seq<int>, events: set<int>): seq<int> {
    if covered == [] then []
    else
      var front, b := covered[..|covered| - 1], covered[|covered| - 1];
      if b in events then Both(front, events) + [b] else Both(front, events)
  }

  lemma BothMembers(covered: seq<int>, events: set<int>)
    ensures forall b :: b in Both(covered, events) <==> b in covered && b in events
    ensures Distinct(covered) ==> Distinct(Both(covered, events))
  {
    if covered != [] {
      var front, b := covered[..|covered| - 1], covered[|covered| - 1];
      BothMembers(front, events);
      assert covered == front + [b];
      if Distinct(covered) {
        assert forall i :: 0 <= i < |front| ==> front[i] == covered[i];
        assert b !in Both(front, events);
      }
    }
  }

  lemma CoveredMembers(covered: seq<int>, ledger: seq<LedgerRow>)
    requires Distinct(covered)
    ensures forall b :: b in CoveredBatches(covered, ledger) <==> b in covered && b in EventBatches(ledger)
    ensures Distinct(CoveredBatches(covered, ledger))
  {
    BothMembers(covered, EventBatches(ledger));
    IntOrder();
    SortElements(Both(covered, EventBatches(ledger)), IntLeq);
  }

  lemma IntOrder()
    ensures TotalOrder(IntLeq)
  {
  }

  // ---- The verifier as it runs ----

  /** The ledger loop. */
  method LedgerCovered(values: seq<LedgerRow>, batchFiles: map<int, seq<string>>) returns (covered: set<int>)
    ensures covered == set b | b in EventBatches(values) && b in batchFiles
  {
    covered := {};
    for i := 0 to |values|
      invariant covered == set b | b in EventBatches(values[..i]) && b in batchFiles
    {
      assert values[..i + 1] == values[..i] + [values[i]];
      EventBatchesSnoc(values[..i], values[i]);
      if values[i].event != "batch_covered" {
        continue;
      }
      var b := BatchNumber(if values[i].batch.Absent? then values[i].id else values[i].batch);
      if b.None? {
        continue;
      }
      if b.value in batchFiles {
        covered := covered + {b.value};
      }
    }
    assert values[..|values|] == values;
  }

  lemma EventBatchesSnoc(rows: seq<LedgerRow>, row: LedgerRow)
    ensures EventBatches(rows + [row])
            == EventBatches(rows) + match EventBatch(row) case None => {} case Some(b) => {b}
  {
    forall b ensures b in EventBatches(rows + [row]) <==>
                     b in EventBatches(rows) || EventBatch(row) == Some(b)
    {
      if b in EventBatches(rows) {
        var r :| r in rows && EventBatch(r) == Some(b);
        assert r in rows + [row];
      }
      if EventBatch(row) == Some(b) { assert row in rows + [row]; }
    }
  }

  /** File lists of the batches recorded at `head`, in order. */
  ghost function ListsAt(covered: seq<int>, batchFiles: map<int, seq<string>>, rows: seq<SnapshotRow>,
                         head: string): seq<seq<string>> {
    if covered == [] then []
    else
      var front, b := covered[..|covered| - 1], covered[|covered| - 1];
      if BatchHead(rows, batchFiles, b) == head then ListsAt(front, batchFiles, rows, head) + [FilesIn(batchFiles, b)]
      else ListsAt(front, batchFiles, rows, head)
  }

  ghost predicate ListedAt(covered: seq<int>, batchFiles: map<int, seq<string>>, rows: seq<SnapshotRow>, head: string,
                           files: seq<string>) {
    exists b :: b in covered && BatchHead(rows, batchFiles, b) == head && FilesIn(batchFiles, b) == files
  }

  lemma {:induction false} ListsAtMembers(covered: seq<int>, batchFiles: map<int, seq<string>>, rows: seq<SnapshotRow>,
                                          head: string)
    ensures forall files :: files in ListsAt(covered, batchFiles, rows, head) <==>
              ListedAt(covered, batchFiles, rows, head, files)
  {
    hide BatchHead, FilesIn;
    if covered != [] {
      var front, b := covered[..|covered| - 1], covered[|covered| - 1];
      ListsAtMembers(front, batchFiles, rows, head);
      assert covered == front + [b];
      forall files
        ensures ListedAt(covered, batchFiles, rows, head, files) <==>
                ListedAt(front, batchFiles, rows, head, files)
                || (BatchHead(rows, batchFiles, b) == head && FilesIn(batchFiles, b) == files)
      {
        if ListedAt(front, batchFiles, rows, head, files) {
          var c :| c in front && BatchHead(rows, batchFiles, c) == head && FilesIn(batchFiles, c) == files;
          assert c in covered;
        }
        if BatchHead(rows, batchFiles, b) == head && FilesIn(batchFiles, b) == files { assert b in covered; }
      }
    }
  }

  lemma {:induction false} ListsAtDistinct(covered: seq<int>, batchFiles: map<int, seq<string>>,
                                           rows: seq<SnapshotRow>, head: string)
    requires forall b :: b in covered ==> b in batchFiles
    requires Distinct(covered) && DisjointFiles(batchFiles)
    ensures Distinct(Flatten(ListsAt(covered, batchFiles, rows, head)))
  {
    hide BatchHead, Flatten;
    if covered == [] {
      NothingFlattens();
    } else {
      var front, b := covered[..|covered| - 1], covered[|covered| - 1];
      assert forall i :: 0 <= i < |front| ==> front[i] == covered[i];
      assert b !in front;
      ListsAtDistinct(front, batchFiles, rows, head);
      var ls := ListsAt(front, batchFiles, rows, head);
      FlattenSnoc(ls, batchFiles[b]);
      DistinctAppend(Flatten(ls), batchFiles[b]);
      ListsAtMembers(front, batchFiles, rows, head);
      forall f | f in Elements(Flatten(ls)) ensures f !in Elements(batchFiles[b]) {
        InFlatten(ls, f);
        var i :| 0 <= i < |ls| && f in ls[i];
        assert ls[i] in ls;
        var c :| c in front && BatchHead(rows, batchFiles, c) == head && FilesIn(batchFiles, c) == ls[i];
        assert f in Elements(batchFiles[c]) && c != b;
      }
    }
  }

  /** What the gathering loop has built after the batches `covered`. */
  ghost predicate Grouped(covered: seq<int>, batchFiles: map<int, seq<string>>, rows: seq<SnapshotRow>,
                          filesByHead: map<string, seq<string>>, headOrder: seq<string>)
  {
    && (forall b :: b in covered ==> BatchComplete(rows, batchFiles, b))
    && (forall h :: Flatten(ListsAt(covered, batchFiles, rows, h)) == if h in filesByHead then filesByHead[h] else [])
    && (forall h :: h in headOrder <==> h in filesByHead)
    && (forall h :: h in filesByHead <==> HeadUsed(covered, batchFiles, rows, h))
  }

  ghost predicate HeadUsed(covered: seq<int>, batchFiles: map<int, seq<string>>, rows: seq<SnapshotRow>, h: string) {
    exists b :: b in covered && BatchHead(rows, batchFiles, b) == h
  }

  lemma GroupGrows(covered: seq<int>, b: int, batchFiles: map<int, seq<string>>, rows: seq<SnapshotRow>,
                   filesByHead: map<string, seq<string>>, headOrder: seq<string>)
    requires Grouped(covered, batchFiles, rows, filesByHead, headOrder) && BatchComplete(rows, batchFiles, b)
    ensures var head := BatchHead(rows, batchFiles, b);
            var known := if head in filesByHead then filesByHead[head] else [];
            Grouped(covered + [b], batchFiles, rows, filesByHead[head := known + FilesIn(batchFiles, b)],
                    if head in filesByHead then headOrder else headOrder + [head])
  {
    hide BatchComplete, BatchHead, FilesIn, Flatten;
    var head := BatchHead(rows, batchFiles, b);
    var more := covered + [b];
    assert more[..|covered|] == covered && more[|covered|] == b;
    FlattenSnoc(ListsAt(covered, batchFiles, rows, head), FilesIn(batchFiles, b));
    forall h ensures HeadUsed(more, batchFiles, rows, h) <==> h == head || HeadUsed(covered, batchFiles, rows, h) {
      if c :| c in covered && BatchHead(rows, batchFiles, c) == h { assert c in more; }
      assert b in more;
    }
  }

  lemma NothingGrouped(batchFiles: map<int, seq<string>>, rows: seq<SnapshotRow>)
    ensures Grouped([], batchFiles, rows, map[], [])
  {
    NothingFlattens();
  }

  /** The gathering loop: complete evidence for every covered batch, and files grouped by head. */
  method GatherSnapshots(covered: seq<int>, batchFiles: map<int, seq<string>>, rows: seq<SnapshotRow>)
      returns (ok: bool, evidence: map<int, Evidence>, filesByHead: map<string, seq<string>>, headOrder: seq<string>)
    requires forall b :: b in covered ==> b in batchFiles && batchFiles[b] != []
    ensures ok <==> forall b :: b in covered ==> BatchComplete(rows, batchFiles, b)
    ensures ok ==> Grouped(covered, batchFiles, rows, filesByHead, headOrder)
    ensures ok ==> forall b :: b in covered ==> b in evidence && EvidenceFor(rows, batchFiles, b) == Some(evidence[b])
  {
    hide Grouped, Complete, Collect;
    ok, evidence, filesByHead, headOrder := true, map[], map[], [];
    NothingGrouped(batchFiles, rows);
    assert covered[..0] == [];
    for i := 0 to |covered|
      invariant Grouped(covered[..i], batchFiles, rows, filesByHead, headOrder)
      invariant forall k :: 0 <= k < i ==>
                  && covered[k] in evidence && EvidenceFor(rows, batchFiles, covered[k]) == Some(evidence[covered[k]])
                  && BatchComplete(rows, batchFiles, covered[k])
    {
      var b := covered[i];
      var files := batchFiles[b];
      assert covered[..i + 1] == covered[..i] + [b];
      var records := SnapshotRecords(rows, b, files);
      assert records == EvidenceFor(rows, batchFiles, b);
      if records.None? {
        assert !BatchComplete(rows, batchFiles, b);
        return false, map[], map[], [];
      }
      var complete := CheckComplete(records.value, files);
      if !complete {
        assert !BatchComplete(rows, batchFiles, b);
        return false, map[], map[], [];
      }
      var head := HeadIn(records.value, files);
      GroupGrows(covered[..i], b, batchFiles, rows, filesByHead, headOrder);
      if head !in filesByHead {
        assert filesByHead[head := []][head := [] + files] == filesByHead[head := [] + files];
        filesByHead := filesByHead[head := []];
        headOrder := headOrder + [head];
      }
      evidence := evidence[b := records.value];
      EmptyLeft(files);
      filesByHead := filesByHead[head := filesByHead[head] + files];
    }
    assert covered[..|covered|] == covered;
  }

  /** The completeness and one-head checks on a batch's evidence. */
  method CheckComplete(records: Evidence, files: seq<string>) returns (ok: bool)
    requires files != []
    ensures ok <==> Complete(records, files)
  {
    if records.Keys != Elements(files) {
      return false;
    }
    var heads := set f | f in records :: records[f].0;
    assert files[0] in Elements(files);
    assert forall f :: f in files ==> f in Elements(files);
    SameHead(records, files, heads);
    ok := |heads| == 1;
  }

  lemma SameHead(records: Evidence, files: seq<string>, heads: set<string>)
    requires files != [] && records.Keys == Elements(files) && heads == set f | f in records :: records[f].0
    ensures |heads| == 1 <==> Complete(records, files)
  {
    var first := HeadIn(records, files);
    assert files[0] in Elements(files);
    assert first in heads;
    if |heads| == 1 {
      SingletonSet(heads, first);
      forall f | f in files ensures Recorded(records, f).0 == first {
        assert f in Elements(files);
        assert records[f].0 in heads;
      }
    }
    if Complete(records, files) { assert heads == {first}; }
  }

  lemma SingletonSet<T>(s: set<T>, x: T)
    requires |s| == 1 && x in s
    ensures s == {x}
  {
    assert |s - {x}| == 0;
  }

  /** The lookup loop: one resolve and one `_blob_oids` call per recorded head. */
  method LookUpHeads(repo: Repo, filesByHead: map<string, seq<string>>, order: seq<string>)
      returns (r: Option<map<string, map<string, string>>>)
    requires forall h :: h in order <==> h in filesByHead
    requires forall h :: h in filesByHead ==> Distinct(filesByHead[h])
    ensures r.Some? <==> forall h :: h in filesByHead ==> Resolves(repo, h) && AllExact(repo, h, filesByHead[h])
    ensures r.Some? ==> forall h :: h in filesByHead ==>
              h in r.value && AllExact(repo, h, filesByHead[h]) && r.value[h] == BlobMap(repo, h, filesByHead[h])
  {
    hide AllExact, ValidOid;
    var expected: map<string, map<string, string>> := map[];
    for i := 0 to |order|
      invariant forall k :: 0 <= k < i ==>
                  && order[k] in expected && Resolves(repo, order[k]) && AllExact(repo, order[k], filesByHead[order[k]])
                  && expected[order[k]] == BlobMap(repo, order[k], filesByHead[order[k]])
    {
      var head := order[i];
      assert head in filesByHead;
      var resolved := ResolveCommit(repo, head);
      if resolved != Some(head) {
        assert !Resolves(repo, head);
        return None;
      }
      var blobs := BlobOids(repo, head, filesByHead[head]);
      if blobs.Failure? {
        return None;
      }
      expected := expected[head := blobs.value];
    }
    r := Some(expected);
  }

  predicate Matches(expected: map<string, map<string, string>>, head: string, f: string, oid: string) {
    head in expected && f in expected[head] && expected[head][f] == oid
  }

  function EvidenceOf(evidence: map<int, Evidence>, b: int): Evidence {
    if b in evidence then evidence[b] else map[]
  }

  predicate BatchMatches(expected: map<string, map<string, string>>, evidence: Evidence, files: seq<string>) {
    forall f :: f in files ==> Matches(expected, HeadIn(evidence, files), f, Recorded(evidence, f).1)
  }

  /** The final loop: compare every recorded blob with the looked-up one and emit its record. */
  method EmitVerified(covered: seq<int>, batchFiles: map<int, seq<string>>, rows: seq<SnapshotRow>,
                      evidence: map<int, Evidence>, expected: map<string, map<string, string>>)
      returns (r: Option<seq<Verified>>)
    requires forall b :: b in covered ==>
               && b in evidence && EvidenceFor(rows, batchFiles, b) == Some(evidence[b])
               && Complete(evidence[b], FilesIn(batchFiles, b))
                  && HeadIn(evidence[b], FilesIn(batchFiles, b)) in expected
    ensures r.Some? <==> forall b :: b in covered ==>
              BatchMatches(expected, EvidenceOf(evidence, b), FilesIn(batchFiles, b))
    ensures r.Some? ==> r.value == VerifiedRows(covered, batchFiles, rows)
  {
    hide Complete, Collect, BatchMatches, FilesIn, HeadIn, RowsOf;
    var verified: seq<Verified> := [];
    for i := 0 to |covered|
      invariant forall k :: 0 <= k < i ==>
                  BatchMatches(expected, EvidenceOf(evidence, covered[k]), FilesIn(batchFiles, covered[k]))
      invariant verified == VerifiedRows(covered[..i], batchFiles, rows)
    {
      var b := covered[i];
      var one := EmitBatch(b, FilesIn(batchFiles, b), evidence[b], expected);
      if one.None? {
        return None;
      }
      assert covered[..i + 1][..i] == covered[..i] && covered[..i + 1][i] == b;
      verified := verified + one.value;
    }
    assert covered[..|covered|] == covered;
    r := Some(verified);
  }

  method EmitBatch(batch: int, files: seq<string>, records: Evidence, expected: map<string, map<string, string>>)
      returns (r: Option<seq<Verified>>)
    requires Complete(records, files) && HeadIn(records, files) in expected
    ensures r.Some? <==> BatchMatches(expected, records, files)
    ensures r.Some? ==> r.value == RowsOf(batch, files, records)
  {
    var head := HeadIn(records, files);
    var blobs := expected[head];
    var verified: seq<Verified> := [];
    for i := 0 to |files|
      invariant forall k :: 0 <= k < i ==> Matches(expected, head, files[k], Recorded(records, files[k]).1)
      invariant verified == RowsOf(batch, files, records)[..i]
    {
      var file := files[i];
      assert file in Elements(files);
      var (recordedHead, recordedOid) := records[file];
      if recordedHead != head || file !in blobs || blobs[file] != recordedOid {
        assert !Matches(expected, head, file, Recorded(records, file).1);
        return None;
      }
      assert RowsOf(batch, files, records)[i] == Verified(batch, file, head, recordedOid);
      verified := verified + [Verified(batch, file, head, recordedOid)];
    }
    r := Some(verified);
  }

  /**
   `verify_run_coverage` on arbitrary file contents. It succeeds exactly when recon.json is well
   formed and every batch on both progress surfaces is certified, and then returns their records.
   */
  method VerifyRunCoverage(recon: Recon, ledgerFile: seq<byte>, snapshotFile: seq<byte>,
                           parseLedger: seq<byte> -> Option<LedgerRow>, parseSnapshot: seq<byte> -> Option<SnapshotRow>,
                           repo: Repo)
      returns (r: Result<seq<Verified>>)
    ensures var ledger := TailRecords(ledgerFile, MAX_LEDGER_TAIL_BYTES, MAX_JSONL_LINE_BYTES, parseLedger);
            var rows := TailRecords(snapshotFile, MAX_SNAPSHOT_TAIL_BYTES, MAX_JSONL_LINE_BYTES, parseSnapshot);
            && (r.Success? <==> CoverageHolds(recon, ledger, rows, repo))
            && (r.Success? ==>
                r.value == VerifiedRows(CoveredBatches(recon.covered, ledger), BatchFiles(recon.batches), rows))
  {
    hide TailRecords, WellFormed, VerifiedRows, BatchFiles, Sort, Both, Certified;
    var validated := ValidateReconPlan(recon);
    if validated.Failure? {
      return Failure("recon.json is not valid");
    }
    var (batchFiles, reconCovered) := validated.value;
    var ledger := ReadJsonlTail(ledgerFile, MAX_LEDGER_TAIL_BYTES, MAX_JSONL_LINE_BYTES, parseLedger);
    var rows := ReadJsonlTail(snapshotFile, MAX_SNAPSHOT_TAIL_BYTES, MAX_JSONL_LINE_BYTES, parseSnapshot);
    AcceptedRecon(recon);
    CoveredMembers(reconCovered, ledger);
    var ledgerCovered := LedgerCovered(ledger, batchFiles);
    BothFiltered(reconCovered, EventBatches(ledger), ledgerCovered);
    var covered := Sort(Both(reconCovered, ledgerCovered), IntLeq);
    assert covered == CoveredBatches(recon.covered, ledger);
    var verdict := VerifyBatches(covered, batchFiles, rows, repo);
    if verdict.None? {
      return Failure("a covered batch is not certified");
    }
    r := Success(verdict.value);
  }

  /** The stages of the verification proper. */
  method VerifyBatches(covered: seq<int>, batchFiles: map<int, seq<string>>, rows: seq<SnapshotRow>, repo: Repo)
      returns (r: Option<seq<Verified>>)
    requires Distinct(covered) && DisjointFiles(batchFiles) && forall b :: b in covered ==> b in batchFiles
    ensures r.Some? <==> AllCertified(covered, batchFiles, rows, repo)
    ensures r.Some? ==> r.value == VerifiedRows(covered, batchFiles, rows)
  {
    hide Certified, Complete, Flatten, BlobMap, AllExact, VerifiedRows, Collect, Resolves, BatchMatches, ListsAt;
    var ok, evidence, filesByHead, headOrder := GatherSnapshots(covered, batchFiles, rows);
    if !ok {
      IncompleteMeansUncertified(covered, batchFiles, rows, repo);
      return None;
    }
    forall h | h in filesByHead ensures Distinct(filesByHead[h]) { ListsAtDistinct(covered, batchFiles, rows, h); }
    OrderedHeads(headOrder);
    var expected := LookUpHeads(repo, filesByHead, Sort(headOrder, LexLeq));
    if expected.None? {
      UnservedMeansUncertified(covered, batchFiles, rows, repo, filesByHead, headOrder);
      return None;
    }
    forall b | b in covered
      ensures HeadIn(evidence[b], FilesIn(batchFiles, b)) in expected.value
      ensures BatchCertified(rows, batchFiles, repo, b)
              <==> BatchMatches(expected.value, EvidenceOf(evidence, b), FilesIn(batchFiles, b))
    {
      assert BatchComplete(rows, batchFiles, b);
      MatchesMeansCertified(covered, batchFiles, rows, repo, filesByHead, headOrder, expected.value, b, evidence[b]);
    }
    r := EmitVerified(covered, batchFiles, rows, evidence, expected.value);
  }

  lemma OrderedHeads(headOrder: seq<string>)
    ensures forall h :: h in Sort(headOrder, LexLeq) <==> h in headOrder
  {
    LexIsTotalOrder();
    SortElements(headOrder, LexLeq);
  }

  ghost predicate AllCertified(covered: seq<int>, batchFiles: map<int, seq<string>>, rows: seq<SnapshotRow>,
                               repo: Repo) {
    forall b :: b in covered ==> BatchCertified(rows, batchFiles, repo, b)
  }

  lemma IncompleteMeansUncertified(covered: seq<int>, batchFiles: map<int, seq<string>>, rows: seq<SnapshotRow>,
                                   repo: Repo)
    requires exists b :: b in covered && !BatchComplete(rows, batchFiles, b)
    ensures !AllCertified(covered, batchFiles, rows, repo)
  {
    hide Complete, Collect;
    var b :| b in covered && !BatchComplete(rows, batchFiles, b);
    assert !BatchCertified(rows, batchFiles, repo, b);
  }

  /** A certified batch's files are all exact objects of its head. */
  lemma CertifiedIsExact(rows: seq<SnapshotRow>, batchFiles: map<int, seq<string>>, repo: Repo, b: int)
    requires BatchCertified(rows, batchFiles, repo, b)
    ensures var h := BatchHead(rows, batchFiles, b);
            Resolves(repo, h) && AllExact(repo, h, FilesIn(batchFiles, b)) && FilesIn(batchFiles, b) != []
  {
    hide Collect, Exact, Resolves;
    var h, files := BatchHead(rows, batchFiles, b), FilesIn(batchFiles, b);
    assert files[0] in files;
    assert BlobAt(repo, h, files[0]).Some?;
  }

  lemma {:induction false} UnservedMeansUncertified(covered: seq<int>, batchFiles: map<int, seq<string>>,
                                                    rows: seq<SnapshotRow>, repo: Repo,
                                 filesByHead: map<string, seq<string>>, headOrder: seq<string>)
    requires Grouped(covered, batchFiles, rows, filesByHead, headOrder)
    requires exists h :: h in filesByHead && !(Resolves(repo, h) && AllExact(repo, h, filesByHead[h]))
    ensures !AllCertified(covered, batchFiles, rows, repo)
  {
    hide BatchCertified, BatchHead, FilesIn, AllExact, Resolves, Flatten;
    var h :| h in filesByHead && !(Resolves(repo, h) && AllExact(repo, h, filesByHead[h]));
    var lists := ListsAt(covered, batchFiles, rows, h);
    if AllCertified(covered, batchFiles, rows, repo) {
      var b :| b in covered && BatchHead(rows, batchFiles, b) == h;
      CertifiedIsExact(rows, batchFiles, repo, b);
      ListsAtMembers(covered, batchFiles, rows, h);
      forall i | 0 <= i < |lists| ensures AllExact(repo, h, lists[i]) {
        assert lists[i] in lists;
        var c :| c in covered && BatchHead(rows, batchFiles, c) == h && FilesIn(batchFiles, c) == lists[i];
        CertifiedIsExact(rows, batchFiles, repo, c);
      }
      GroupedLookupAgrees(repo, h, lists);
    }
  }

  /** Once every head is served, the grouped blob table decides each batch's own certificate. */
  lemma {:induction false} MatchesMeansCertified(covered: seq<int>, batchFiles: map<int, seq<string>>,
                                                 rows: seq<SnapshotRow>, repo: Repo,
                              filesByHead: map<string, seq<string>>, headOrder: seq<string>,
                              expected: map<string, map<string, string>>, b: int, evidence: Evidence)
    requires Grouped(covered, batchFiles, rows, filesByHead, headOrder)
    requires forall h :: h in filesByHead ==>
               Resolves(repo, h) && AllExact(repo, h, filesByHead[h])
               && h in expected && expected[h] == BlobMap(repo, h, filesByHead[h])
    requires b in covered && EvidenceFor(rows, batchFiles, b) == Some(evidence)
    ensures HeadIn(evidence, FilesIn(batchFiles, b)) in expected
    ensures BatchCertified(rows, batchFiles, repo, b) <==> BatchMatches(expected, evidence, FilesIn(batchFiles, b))
  {
    hide Collect, Complete, Flatten, Exact, Resolves;
    var files := FilesIn(batchFiles, b);
    var h := HeadIn(evidence, files);
    assert BatchHead(rows, batchFiles, b) == h && BatchComplete(rows, batchFiles, b);
    assert h in filesByHead;
    ListsAtMembers(covered, batchFiles, rows, h);
    assert ListedAt(covered, batchFiles, rows, h, files);
    assert files in ListsAt(covered, batchFiles, rows, h);
    forall f | f in files ensures f in filesByHead[h] { InFlatten(ListsAt(covered, batchFiles, rows, h), f); }
    forall f | f in files ensures BlobAt(repo, h, f) == Some(expected[h][f]) && f in expected[h] {
      assert f in filesByHead[h];
    }
  }

  lemma AcceptedRecon(recon: Recon)
    requires WellFormed(recon)
    ensures DisjointFiles(BatchFiles(recon.batches)) && Distinct(recon.covered)
    ensures forall b :: b in recon.covered ==> b in BatchFiles(recon.batches)
  {
    AcceptedFilesAreDisjoint(recon.batches);
    BatchFilesKeys(recon.batches);
    hide BatchesOk;
    forall b | b in recon.covered ensures b in BatchFiles(recon.batches) {
      var i :| 0 <= i < |recon.covered| && recon.covered[i] == b;
      assert recon.covered[i] in Ids(recon.batches);
    }
  }

  lemma BothFiltered(covered: seq<int>, events: set<int>, known: set<int>)
    requires forall b :: b in covered ==> (b in events <==> b in known)
    ensures Both(covered, events) == Both(covered, known)
  {
    if covered != [] { BothFiltered(covered[..|covered| - 1], events, known); }
  }

  ghost predicate CoverageHolds(recon: Recon, ledger: seq<LedgerRow>, rows: seq<SnapshotRow>, repo: Repo) {
    && WellFormed(recon)
    && AllCertified(CoveredBatches(recon.covered, ledger), BatchFiles(recon.batches), rows, repo)
  }

  // ---- Soundness ----

  ghost predicate Sound(v: Verified, covered: seq<int>, batchFiles: map<int, seq<string>>, rows: seq<SnapshotRow>,
                        repo: Repo) {
    && v.batch in covered && v.file in FilesIn(batchFiles, v.batch)
    && v.head == BatchHead(rows, batchFiles, v.batch) && Resolves(repo, v.head)
    && BlobAt(repo, v.head, v.file) == Some(v.blob)
    && Witnessed(rows, v.batch, v.file, (v.head, v.blob))
  }

  ghost predicate AllSound(vs: seq<Verified>, covered: seq<int>, batchFiles: map<int, seq<string>>,
                           rows: seq<SnapshotRow>, repo: Repo) {
    forall i :: 0 <= i < |vs| ==> Sound(vs[i], covered, batchFiles, rows, repo)
  }

  /** The (batch, file) pairs a verified result must consist of. */
  function ExpectedPairs(covered: seq<int>, batchFiles: map<int, seq<string>>): seq<(int, string)> {
    if covered == [] then []
    else
      var b := covered[|covered| - 1];
      var files := FilesIn(batchFiles, b);
      ExpectedPairs(covered[..|covered| - 1], batchFiles) + seq(|files|, i requires 0 <= i < |files| => (b, files[i]))
  }

  function Pairs(vs: seq<Verified>): seq<(int, string)> {
    seq(|vs|, i requires 0 <= i < |vs| => (vs[i].batch, vs[i].file))
  }

  lemma BatchRowsPairs(rows: seq<SnapshotRow>, batchFiles: map<int, seq<string>>, repo: Repo, b: int)
    requires BatchCertified(rows, batchFiles, repo, b)
    ensures Pairs(BatchRows(rows, batchFiles, b)) == ExpectedPairs([b], batchFiles)
  {
    hide Exact, Resolves, Collect, BlobAt, Witnessed;
    assert [b][..0] == [] && ExpectedPairs([], batchFiles) == [];
  }

  lemma BatchRowsSound(covered: seq<int>, batchFiles: map<int, seq<string>>, rows: seq<SnapshotRow>, repo: Repo, b: int)
    requires b in covered && BatchCertified(rows, batchFiles, repo, b)
    ensures AllSound(BatchRows(rows, batchFiles, b), covered, batchFiles, rows, repo)
    ensures Pairs(BatchRows(rows, batchFiles, b)) == ExpectedPairs([b], batchFiles)
  {
    BatchRowsPairs(rows, batchFiles, repo, b);
    hide Exact, Resolves, Collect, Pairs, ExpectedPairs;
    var files := FilesIn(batchFiles, b);
    CollectMeaning(rows, b, Elements(files));
    var m := EvidenceFor(rows, batchFiles, b).value;
    forall i | 0 <= i < |files| ensures files[i] in m && Witnessed(rows, b, files[i], m[files[i]]) {
      assert files[i] in Elements(files);
    }
  }

  lemma PairsAppend(vs: seq<Verified>, more: seq<Verified>)
    ensures Pairs(vs + more) == Pairs(vs) + Pairs(more)
  {
  }

  lemma {:induction false} VerifiedPairs(covered: seq<int>, batchFiles: map<int, seq<string>>, rows: seq<SnapshotRow>,
                                         repo: Repo)
    requires AllCertified(covered, batchFiles, rows, repo)
    ensures Pairs(VerifiedRows(covered, batchFiles, rows)) == ExpectedPairs(covered, batchFiles)
  {
    if covered == [] {
      assert Pairs([]) == [];
    } else {
      var front, b := covered[..|covered| - 1], covered[|covered| - 1];
      assert b in covered;
      VerifiedPairs(front, batchFiles, rows, repo);
      BatchRowsSound(covered, batchFiles, rows, repo, b);
      hide Pairs, BatchCertified, BatchRows, FilesIn;
      PairsAppend(VerifiedRows(front, batchFiles, rows), BatchRows(rows, batchFiles, b));
    }
  }

  /**
   Soundness in every disk state: the returned records are exactly the files of the batches on both
   surfaces, once each, every one with the blob its recorded commit holds and a row that recorded it.
   */
  lemma {:induction false} CoverageIsSound(covered: seq<int>, batchFiles: map<int, seq<string>>,
                                           rows: seq<SnapshotRow>, repo: Repo)
    requires AllCertified(covered, batchFiles, rows, repo)
    ensures AllSound(VerifiedRows(covered, batchFiles, rows), covered, batchFiles, rows, repo)
    ensures Pairs(VerifiedRows(covered, batchFiles, rows)) == ExpectedPairs(covered, batchFiles)
  {
    VerifiedPairs(covered, batchFiles, rows, repo);
    hide Pairs, ExpectedPairs, BatchCertified, BatchRows, Sound;
    if covered != [] {
      var front, b := covered[..|covered| - 1], covered[|covered| - 1];
      assert b in covered;
      CoverageIsSound(front, batchFiles, rows, repo);
      BatchRowsSound(covered, batchFiles, rows, repo, b);
      StillSound(VerifiedRows(front, batchFiles, rows), BatchRows(rows, batchFiles, b), front, covered, batchFiles,
                 rows, repo);
    }
  }

  lemma StillSound(vs: seq<Verified>, more: seq<Verified>, front: seq<int>, covered: seq<int>,
                   batchFiles: map<int, seq<string>>, rows: seq<SnapshotRow>, repo: Repo)
    requires front <= covered
    requires AllSound(vs, front, batchFiles, rows, repo) && AllSound(more, covered, batchFiles, rows, repo)
    ensures AllSound(vs + more, covered, batchFiles, rows, repo)
  {
    hide Resolves, BatchHead, BlobAt, Witnessed;
    forall i | 0 <= i < |vs| ensures Sound(vs[i], covered, batchFiles, rows, repo) {
      PrefixMember(front, covered, vs[i].batch);
    }
  }

  /** Every returned record names a file or a submodule of the commit it names, with that entry's object. */
  lemma VerifiedRowsNameObjects(covered: seq<int>, batchFiles: map<int, seq<string>>, rows: seq<SnapshotRow>,
                                repo: Repo, i: nat)
    requires AllCertified(covered, batchFiles, rows, repo) && i < |VerifiedRows(covered, batchFiles, rows)|
    ensures var v := VerifiedRows(covered, batchFiles, rows)[i];
            && v.head in repo.commits && repo.commits[v.head] == v.head
            && v.head in repo.trees && v.file in repo.trees[v.head]
            && (|| repo.trees[v.head][v.file] == Entry(Blob, v.blob)
                || repo.trees[v.head][v.file] == Entry(Gitlink, v.blob))
            && ValidOid(v.head) && ValidOid(v.blob)
  {
    CoverageIsSound(covered, batchFiles, rows, repo);
    hide VerifiedRows, AllCertified, ValidOid, FilesIn, BatchHead, Witnessed;
    assert Sound(VerifiedRows(covered, batchFiles, rows)[i], covered, batchFiles, rows, repo);
  }
}
