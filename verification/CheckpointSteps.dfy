/** What the two logs say about one batch, and what one checkpoint attempt does to it. */
module CheckpointSteps {
  import opened Wrappers
  import opened Sequences
  import opened GitObjects
  import opened ReconValidation
  import JsonlTail
  import opened Coverage
  import opened Checkpoint

  // ---- One batch's view of the logs ----

  function RowsFor(log: seq<SnapshotRow>, b: int): seq<SnapshotRow> {
    if log == [] then []
    else
      var front, row := log[..|log| - 1], log[|log| - 1];
      if Relevant(row, b) then RowsFor(front, b) + [row] else RowsFor(front, b)
  }

  function EventsFor(log: seq<LedgerRow>, b: int): seq<LedgerRow> {
    if log == [] then []
    else
      var front, row := log[..|log| - 1], log[|log| - 1];
      if EventBatch(row) == Some(b) then EventsFor(front, b) + [row] else EventsFor(front, b)
  }

  lemma {:induction false} RowsForAppend(log: seq<SnapshotRow>, more: seq<SnapshotRow>, b: int)
    ensures RowsFor(log + more, b) == RowsFor(log, b) + RowsFor(more, b)
  {
    if more == [] {
      assert log + more == log;
    } else {
      var n := |more| - 1;
      assert (log + more)[..|log + more| - 1] == log + more[..n];
      RowsForAppend(log, more[..n], b);
    }
  }

  lemma {:induction false} EventsForAppend(log: seq<LedgerRow>, more: seq<LedgerRow>, b: int)
    ensures EventsFor(log + more, b) == EventsFor(log, b) + EventsFor(more, b)
  {
    if more == [] {
      assert log + more == log;
    } else {
      var n := |more| - 1;
      assert (log + more)[..|log + more| - 1] == log + more[..n];
      EventsForAppend(log, more[..n], b);
    }
  }

  ghost predicate AllOf(rows: seq<SnapshotRow>, c: int) {
    forall i :: 0 <= i < |rows| ==> BatchNumber(rows[i].batch) == Some(c)
  }

  lemma {:induction false} RowsForOneBatch(rows: seq<SnapshotRow>, c: int, b: int)
    requires AllOf(rows, c)
    ensures RowsFor(rows, b) == if b == c then rows else []
  {
    if rows != [] {
      RowsForOneBatch(rows[..|rows| - 1], c, b);
      assert rows == rows[..|rows| - 1] + [rows[|rows| - 1]];
    }
  }

  lemma EventsForOne(c: int, b: int)
    requires c >= 1
    ensures EventsFor([EventOf(c)], b) == if b == c then [EventOf(c)] else []
  {
    assert [EventOf(c)][..0] == [];
  }

  lemma {:induction false} CollectOnlyOwn(log: seq<SnapshotRow>, b: int, allowed: set<string>)
    ensures Collect(log, b, allowed) == Collect(RowsFor(log, b), b, allowed)
  {
    if log != [] {
      var front, row := log[..|log| - 1], log[|log| - 1];
      CollectOnlyOwn(front, b, allowed);
      hide Usable;
      if Relevant(row, b) {
        var own := RowsFor(front, b);
        assert (own + [row])[..|own + [row]| - 1] == own;
      }
    }
  }

  lemma {:induction false} EventSeen(log: seq<LedgerRow>, b: int)
    ensures b in EventBatches(log) <==> EventsFor(log, b) != []
  {
    if log != [] {
      var front, row := log[..|log| - 1], log[|log| - 1];
      EventSeen(front, b);
      assert log == front + [row];
      EventBatchesSnoc(front, row);
    }
  }

  // ---- A prefix of a batch's rows as evidence ----

  /** All object IDs of one repository have the same length. */
  ghost predicate UniformOids(repo: Repo) {
    forall h, f :: h in repo.trees && ValidOid(h) && Exact(repo.trees[h], f) ==> |repo.trees[h][f].oid| == |h|
  }

  function OidAt(repo: Repo, h: string, f: string): string {
    match BlobAt(repo, h, f) case Some(oid) => oid case None => ""
  }

  function EvidenceAt(files: seq<string>, h: string, repo: Repo): Evidence {
    map f | f in files :: (h, OidAt(repo, h, f))
  }

  lemma RowsSlice(b: int, files: seq<string>, h: string, repo: Repo, i: nat, j: nat)
    requires i <= j <= |files|
    ensures Rows(b, files, h, repo)[i..j] == Rows(b, files[i..j], h, repo)
  {
    hide BlobAt;
  }

  lemma AbsorbRow(b: int, files: seq<string>, allowed: set<string>, h: string, repo: Repo, k: nat)
    requires k < |files| && Elements(files) <= allowed
    requires AllExact(repo, h, files) && Resolves(repo, h) && UniformOids(repo) && b >= 1
    ensures Absorb(Some(EvidenceAt(files[..k], h, repo)), Rows(b, files, h, repo)[k], b, allowed)
            == Some(EvidenceAt(files[..k + 1], h, repo))
  {
    EvidenceGrows(files, h, repo, k);
    assert files[k] in Elements(files);
    hide Rows, AllExact, UniformOids, Resolves, Usable, OidAt, Relevant, EvidenceAt;
  }

  /** Rows for some of the allowed files are read back as evidence for exactly those. */
  lemma {:induction false} CollectRows(b: int, files: seq<string>, allowed: set<string>, h: string, repo: Repo, k: nat)
    requires k <= |files| && Elements(files) <= allowed
    requires AllExact(repo, h, files) && Resolves(repo, h) && UniformOids(repo) && b >= 1
    ensures Collect(Rows(b, files, h, repo)[..k], b, allowed) == Some(EvidenceAt(files[..k], h, repo))
  {
    hide AllExact, UniformOids, Resolves, Absorb, OidAt, Elements;
    var rows := Rows(b, files, h, repo);
    if k > 0 {
      CollectRows(b, files, allowed, h, repo, k - 1);
      AbsorbRow(b, files, allowed, h, repo, k - 1);
      hide EvidenceAt;
      assert rows[..k][..k - 1] == rows[..k - 1] && rows[..k][k - 1] == rows[k - 1];
    } else {
      assert EvidenceAt(files[..k], h, repo) == map[];
    }
  }

  lemma CollectPrefix(b: int, files: seq<string>, h: string, repo: Repo, k: nat)
    requires k <= |files| && AllExact(repo, h, files) && Resolves(repo, h) && UniformOids(repo) && b >= 1
    ensures Collect(Rows(b, files, h, repo)[..k], b, Elements(files)) == Some(EvidenceAt(files[..k], h, repo))
  {
    CollectRows(b, files, Elements(files), h, repo, k);
  }

  lemma EvidenceGrows(files: seq<string>, h: string, repo: Repo, k: nat)
    requires k < |files|
    ensures EvidenceAt(files[..k + 1], h, repo)
            == EvidenceAt(files[..k], h, repo)[files[k] := (h, OidAt(repo, h, files[k]))]
    ensures files[k] in EvidenceAt(files[..k], h, repo) ==>
              EvidenceAt(files[..k], h, repo)[files[k]] == (h, OidAt(repo, h, files[k]))
  {
    hide OidAt;
    assert files[..k + 1] == files[..k] + [files[k]];
  }

  lemma RecordedInMiddle(files: seq<string>, h: string, repo: Repo, m: nat, k: nat, i: nat)
    requires Distinct(files) && m <= k <= |files| && i < |files|
    ensures files[i] in EvidenceAt(files[m..k], h, repo) <==> m <= i < k
  {
    hide OidAt;
    if m <= i < k { assert files[m..k][i - m] == files[i]; }
  }

  lemma UnrecordedStep(files: seq<string>, existing: Evidence, m: nat)
    requires 0 < m <= |files|
    ensures Unrecorded(files[..m], existing)
            == Unrecorded(files[..m - 1], existing) + if files[m - 1] in existing then [] else [files[m - 1]]
  {
    assert files[..m][..m - 1] == files[..m - 1];
  }

  /** Of the first `n` files, those before `m` and those from `k` on. */
  function AroundUpTo(files: seq<string>, m: nat, k: nat, n: nat): seq<string>
    requires m <= k <= |files| && n <= |files|
  {
    if n <= m then files[..n] else if n <= k then files[..m] else files[..m] + files[k..n]
  }

  lemma AroundStep(files: seq<string>, m: nat, k: nat, n: nat)
    requires m <= k <= |files| && 0 < n <= |files|
    ensures AroundUpTo(files, m, k, n)
            == AroundUpTo(files, m, k, n - 1) + if m <= n - 1 < k then [] else [files[n - 1]]
  {
    if n <= m {
      assert files[..n] == files[..n - 1] + [files[n - 1]];
    } else if n > k {
      assert files[k..n] == files[k..n - 1] + [files[n - 1]];
      if n - 1 == m == k { assert files[..m] + [files[m]] == files[..m] + files[k..n]; }
    }
  }

  /** What is unrecorded when only the middle of the batch is. */
  lemma {:induction false} UnrecordedAround(files: seq<string>, h: string, repo: Repo, m: nat, k: nat, n: nat)
    requires Distinct(files) && m <= k <= |files| && n <= |files|
    ensures Unrecorded(files[..n], EvidenceAt(files[m..k], h, repo)) == AroundUpTo(files, m, k, n)
  {
    if n > 0 {
      UnrecordedAround(files, h, repo, m, k, n - 1);
      RecordedInMiddle(files, h, repo, m, k, n - 1);
      UnrecordedStep(files, EvidenceAt(files[m..k], h, repo), n);
      AroundStep(files, m, k, n);
      hide EvidenceAt, Distinct, Unrecorded, AroundUpTo;
    }
  }

  lemma UnrecordedSuffix(files: seq<string>, h: string, repo: Repo, k: nat)
    requires Distinct(files) && k <= |files|
    ensures Unrecorded(files, EvidenceAt(files[..k], h, repo)) == files[k..]
  {
    hide EvidenceAt, Distinct, Unrecorded;
    UnrecordedAround(files, h, repo, 0, k, |files|);
    assert files[..|files|] == files && files[0..k] == files[..k];
    assert files[..0] + files[k..|files|] == files[k..];
    if k == |files| { assert files[k..] == []; }
  }

  lemma EvidenceKeys(files: seq<string>, h: string, repo: Repo, k: nat)
    requires Distinct(files) && k <= |files|
    ensures EvidenceAt(files[..k], h, repo).Keys == Elements(files) <==> k == |files|
    ensures (EvidenceAt(files[..k], h, repo) == map[]) <==> k == 0
  {
    hide OidAt;
    if k == |files| {
      assert files[..k] == files;
    } else {
      assert files[k] in Elements(files);
    }
    if k > 0 { assert files[..k][0] in EvidenceAt(files[..k], h, repo); }
  }

  // ---- What `_verify_or_prepare_snapshots` answers ----

  /** HEAD can start the batch: it resolves, the files are unchanged, tracked and fit the recovery window. */
  ghost predicate Ready(repo: Repo, ws: Workspace, sizes: Sizes, b: int, files: seq<string>) {
    && ws.head.Some? && Resolves(repo, ws.head.value)
    && (forall f :: f in files ==> f !in ws.dirty)
    && AllExact(repo, ws.head.value, files)
    && SnapshotsFit(Rows(b, files, ws.head.value, repo), sizes)
  }

  /** HEAD, if it resolves at all, names a commit of the repository by its own object ID. */
  ghost predicate WorkspaceOk(repo: Repo, ws: Workspace) {
    ws.head.Some? ==> (ws.head.value in repo.commits <==> Resolves(repo, ws.head.value))
  }

  lemma PreparedFromMiddle(repo: Repo, ws: Workspace, files: seq<string>, h: string, m: nat, k: nat)
    requires m < k <= |files| && AllExact(repo, h, files) && Resolves(repo, h)
    ensures Prepared(repo, ws, files, EvidenceAt(files[m..k], h, repo)) == Some(h)
  {
    hide ValidOid, Resolves;
    var existing := EvidenceAt(files[m..k], h, repo);
    assert files[m..k][0] == files[m] && files[m] in existing;
    RecordedHeadFound(existing, files);
    forall f | f in existing ensures existing[f].0 == h && BlobAt(repo, h, f) == Some(existing[f].1) {
      var i :| 0 <= i < k - m && files[m..k][i] == f;
      assert files[m + i] == f;
    }
  }

  lemma PreparedAgain(repo: Repo, ws: Workspace, files: seq<string>, h: string, k: nat)
    requires 0 < k <= |files| && AllExact(repo, h, files) && Resolves(repo, h)
    ensures Prepared(repo, ws, files, EvidenceAt(files[..k], h, repo)) == Some(h)
  {
    hide Prepared, EvidenceAt, AllExact, Resolves;
    PreparedFromMiddle(repo, ws, files, h, 0, k);
    assert files[0..k] == files[..k];
  }

  // ---- The per-batch invariant ----

  /** The head of the first durable row. */
  function HeadOf(rows: seq<SnapshotRow>): string {
    if rows != [] && rows[0].head.Some? then rows[0].head.value else ""
  }

  /** The durable rows are the first rows of the batch at one commit at which the whole batch was writable. */
  ghost predicate StartedAt(rows: seq<SnapshotRow>, repo: Repo, sizes: Sizes, b: int, files: seq<string>, h: string) {
    && Resolves(repo, h) && AllExact(repo, h, files)
    && SnapshotsFit(Rows(b, files, h, repo), sizes)
    && rows <= Rows(b, files, h, repo)
  }

  ghost predicate BatchInv(rows: seq<SnapshotRow>, events: seq<LedgerRow>, covered: bool,
                           repo: Repo, sizes: Sizes, b: int, files: seq<string>) {
    && (rows != [] ==> StartedAt(rows, repo, sizes, b, files, HeadOf(rows)))
    && (events == [] || (events == [EventOf(b)] && |rows| == |files|))
    && (covered ==> events != [])
  }

  /** The logs still fit the windows the recovery reads. */
  predicate FitsWindows(disk: Disk, sizes: Sizes) {
    && Total(disk.snapshots, sizes.snapshot) <= MAX_SNAPSHOT_TAIL_BYTES
    && Total(disk.ledger, sizes.event) <= MAX_LEDGER_TAIL_BYTES
  }

  /** Whatever the logs hold of batch `b` is inside the windows the recovery reads. */
  ghost predicate Recoverable(disk: Disk, sizes: Sizes, b: int) {
    && RowsInSight(disk, sizes, b)
    && (b in EventBatches(SeenEvents(disk, sizes)) <==> EventsFor(disk.ledger, b) != [])
  }

  /** Whatever the snapshot log holds of the batch is inside its window. */
  ghost predicate RowsInSight(disk: Disk, sizes: Sizes, b: int) {
    RowsFor(SeenSnapshots(disk, sizes), b) == RowsFor(disk.snapshots, b)
  }

  lemma FittingIsRecoverable(disk: Disk, sizes: Sizes, b: int)
    requires FitsWindows(disk, sizes)
    ensures Recoverable(disk, sizes, b)
  {
    hide RowsFor, EventsFor, EventBatches, Total;
    EventSeen(disk.ledger, b);
  }

  /** `log` is some earlier records followed by `last`. */
  ghost predicate EndsWith<R>(log: seq<R>, last: seq<R>) {
    |last| <= |log| && log[|log| - |last|..] == last
  }

  /** The batch's rows, and its event if any, are the last records of their logs; so they are if there are none. */
  ghost predicate Resumable(disk: Disk, b: int) {
    EndsWith(disk.snapshots, RowsFor(disk.snapshots, b)) && EndsWith(disk.ledger, EventsFor(disk.ledger, b))
  }

  lemma {:induction false} LastWithinKeeps<R>(pre: seq<R>, last: seq<R>, size: R -> nat, budget: nat) returns (i: nat)
    requires Total(last, size) <= budget
    ensures i <= |pre| && LastWithin(pre + last, size, budget) == pre[i..] + last
  {
    if Total(pre + last, size) <= budget {
      i := 0;
    } else {
      assert pre != [] by { assert [] + last == last; }
      assert (pre + last)[1..] == pre[1..] + last;
      var j := LastWithinKeeps(pre[1..], last, size, budget);
      i := j + 1;
    }
  }

  lemma {:induction false} LastWithinIsSuffix<R>(log: seq<R>, size: R -> nat, budget: nat) returns (i: nat)
    ensures i <= |log| && LastWithin(log, size, budget) == log[i..]
  {
    i := 0;
    if Total(log, size) > budget && log != [] {
      var j := LastWithinIsSuffix(log[1..], size, budget);
      i := j + 1;
    }
  }

  /** The window on a log keeps a last stretch that fits it, whatever precedes. */
  lemma VisibleKeeps<R(!new)>(pre: seq<R>, last: seq<R>, size: R -> nat, maxBytes: nat) returns (i: nat)
    requires maxBytes > 0 && Total(last, size) < maxBytes
    ensures i <= |pre| && Visible(pre + last, size, maxBytes) == pre[i..] + last
  {
    if Total(pre + last, size) <= maxBytes {
      i := 0;
    } else {
      i := LastWithinKeeps(pre, last, size, maxBytes - 1);
    }
  }

  lemma {:induction false} TotalSplits<R>(a: seq<R>, b: seq<R>, size: R -> nat)
    ensures Total(a + b, size) == Total(a, size) + Total(b, size)
  {
    if a == [] {
      assert a + b == b;
    } else {
      assert (a + b)[1..] == a[1..] + b;
      TotalSplits(a[1..], b, size);
    }
  }

  lemma OwnRowsSeen(log: seq<SnapshotRow>, b: int, size: SnapshotRow -> nat, maxBytes: nat)
    requires maxBytes > 0 && EndsWith(log, RowsFor(log, b)) && Total(RowsFor(log, b), size) < maxBytes
    ensures RowsFor(Visible(log, size, maxBytes), b) == RowsFor(log, b)
  {
    hide Visible, Total;
    var own := RowsFor(log, b);
    var pre := log[..|log| - |own|];
    assert log == pre + own;
    var i := VisibleKeeps(pre, own, size, maxBytes);
    assert pre == pre[..i] + pre[i..];
    RowsForAppend(pre, own, b);
    RowsForAppend(pre[..i], pre[i..], b);
    RowsForAppend(pre[i..], own, b);
    OwnRowsAre(log, b);
    RowsForOneBatch(own, b, b);
  }

  lemma OwnRowsAre(log: seq<SnapshotRow>, b: int)
    ensures AllOf(RowsFor(log, b), b)
  {
  }

  lemma EventsSeenAtEnd(log: seq<LedgerRow>, b: int, size: LedgerRow -> nat, maxBytes: nat)
    requires maxBytes > 0 && EndsWith(log, EventsFor(log, b)) && Total(EventsFor(log, b), size) < maxBytes
    ensures b in EventBatches(Visible(log, size, maxBytes)) <==> EventsFor(log, b) != []
  {
    hide Visible, Total, EventBatches;
    var own := EventsFor(log, b);
    var pre := log[..|log| - |own|];
    assert log == pre + own;
    var i := VisibleKeeps(pre, own, size, maxBytes);
    assert pre == pre[..i] + pre[i..];
    EventsForAppend(pre, own, b);
    EventsForAppend(pre[..i], pre[i..], b);
    EventsForAppend(pre[i..], own, b);
    OwnEvents(log, b);
    EventSeen(pre[i..] + own, b);
  }

  lemma OwnEvents(log: seq<LedgerRow>, b: int)
    ensures EventsFor(EventsFor(log, b), b) == EventsFor(log, b)
  {
  }

  lemma OwnRowsFit(rows: seq<SnapshotRow>, repo: Repo, sizes: Sizes, b: int, files: seq<string>, h: string)
    requires StartedAt(rows, repo, sizes, b, files, h)
    ensures Total(rows, sizes.snapshot) < MAX_SNAPSHOT_TAIL_BYTES
  {
    hide AllExact, Resolves, Rows, Total;
    var full := Rows(b, files, h, repo);
    TotalSplits(rows, full[|rows|..], sizes.snapshot);
    assert rows + full[|rows|..] == full;
  }

  lemma OneEventFits(events: seq<LedgerRow>, sizes: Sizes, b: int)
    requires events == [] || events == [EventOf(b)]
    requires sizes.event(EventOf(b)) <= JsonlTail.MAX_JSONL_LINE_BYTES
    ensures Total(events, sizes.event) <= JsonlTail.MAX_JSONL_LINE_BYTES
  {
    hide EventOf;
    assert Total([EventOf(b)], sizes.event) == sizes.event(EventOf(b)) + Total([], sizes.event);
  }

  /** A batch whose records end the logs is inside the windows, however long the logs are. */
  lemma ResumableIsRecoverable(disk: Disk, repo: Repo, sizes: Sizes, b: int, files: seq<string>)
    requires InvAt(disk, repo, sizes, b, files) && Resumable(disk, b)
    requires sizes.event(EventOf(b)) <= JsonlTail.MAX_JSONL_LINE_BYTES
    ensures Recoverable(disk, sizes, b)
  {
    hide StartedAt, RowsFor, EventsFor, EventOf, Visible, EventBatches;
    var rows := RowsFor(disk.snapshots, b);
    if rows != [] {
      OwnRowsFit(rows, repo, sizes, b, files, HeadOf(rows));
    } else {
      assert Total(rows, sizes.snapshot) == 0;
    }
    OneEventFits(EventsFor(disk.ledger, b), sizes, b);
    OwnRowsSeen(disk.snapshots, b, sizes.snapshot, MAX_SNAPSHOT_TAIL_BYTES);
    EventsSeenAtEnd(disk.ledger, b, sizes.event, MAX_LEDGER_TAIL_BYTES);
  }

  /** `disk` seen from batch `b`. */
  ghost predicate InvAt(disk: Disk, repo: Repo, sizes: Sizes, b: int, files: seq<string>) {
    BatchInv(RowsFor(disk.snapshots, b), EventsFor(disk.ledger, b), b in disk.recon.covered, repo, sizes, b, files)
  }

  ghost predicate Selected(disk: Disk, repo: Repo, b: int, files: seq<string>) {
    && WellFormed(disk.recon) && UniformOids(repo)
    && b in BatchFiles(disk.recon.batches) && BatchFiles(disk.recon.batches)[b] == files
    && b >= 1 && files != [] && Distinct(files)
  }

  lemma SelectedIs(disk: Disk, repo: Repo, b: int)
    requires WellFormed(disk.recon) && UniformOids(repo) && b in BatchFiles(disk.recon.batches)
    ensures Selected(disk, repo, b, BatchFiles(disk.recon.batches)[b])
  {
    var bs := disk.recon.batches;
    AcceptedFilesAreDisjoint(bs);
    BatchFilesKeys(bs);
    assert exists i :: 0 <= i < |bs| && Ids(bs)[i] == b;
    var i :| 0 <= i < |bs| && Ids(bs)[i] == b;
    assert BatchOk(bs[i]);
  }

  /** The evidence an attempt collects. */
  lemma {:induction false} EvidenceSeen(disk: Disk, repo: Repo, sizes: Sizes, b: int, files: seq<string>)
    requires Selected(disk, repo, b, files) && InvAt(disk, repo, sizes, b, files) && RowsInSight(disk, sizes, b)
    ensures var rows := RowsFor(disk.snapshots, b);
            |rows| <= |files|
            && Collect(SeenSnapshots(disk, sizes), b, Elements(files))
               == Some(EvidenceAt(files[..|rows|], HeadOf(rows), repo))
  {
    hide WellFormed, BatchFiles, SnapshotsFit, AllExact, Resolves, UniformOids, EventBatches, SeenSnapshots,
        SeenEvents, RowsFor, EventsFor;
    var rows, h := RowsFor(disk.snapshots, b), HeadOf(RowsFor(disk.snapshots, b));
    CollectOnlyOwn(disk.snapshots, b, Elements(files));
    CollectOnlyOwn(SeenSnapshots(disk, sizes), b, Elements(files));
    if rows == [] {
      assert EvidenceAt(files[..0], h, repo) == map[];
    } else {
      assert |rows| <= |Rows(b, files, h, repo)| == |files|;
      CollectPrefix(b, files, h, repo, |rows|);
      assert rows == Rows(b, files, h, repo)[..|rows|];
    }
  }

  lemma {:induction false} FreshFacts(disk: Disk, repo: Repo, sizes: Sizes, b: int, files: seq<string>)
    requires Selected(disk, repo, b, files) && InvAt(disk, repo, sizes, b, files) && Recoverable(disk, sizes, b)
    requires RowsFor(disk.snapshots, b) == []
    ensures Collect(SeenSnapshots(disk, sizes), b, Elements(files)) == Some(map[])
    ensures EventsFor(disk.ledger, b) == [] && b !in disk.recon.covered && b !in EventBatches(SeenEvents(disk, sizes))
  {
    EvidenceSeen(disk, repo, sizes, b, files);
    EvidenceKeys(files, "", repo, 0);
    assert HeadOf([]) == "";
    hide WellFormed, BatchFiles, SnapshotsFit, EvidenceAt, Collect, EventBatches, Visible, RowsFor, EventsFor;
  }

  lemma NothingRecorded(files: seq<string>)
    ensures Unrecorded(files, map[]) == files
  {
    if files != [] { NothingRecorded(files[..|files| - 1]); }
  }

  lemma PreparedWithoutEvidence(repo: Repo, ws: Workspace, files: seq<string>)
    requires WorkspaceOk(repo, ws)
    ensures Prepared(repo, ws, files, map[])
            == if ws.head.Some? && Resolves(repo, ws.head.value) && (forall f :: f in files ==> f !in ws.dirty)
                  && AllExact(repo, ws.head.value, files)
               then ws.head else None
  {
    hide Resolves, AllExact;
  }

  /** What an attempt decides that sees no trace of an uncovered batch. */
  lemma {:induction false} DecideWithoutEvidence(disk: Disk, repo: Repo, ws: Workspace, sizes: Sizes, b: int,
                                                 files: seq<string>)
    requires Selected(disk, repo, b, files) && WorkspaceOk(repo, ws)
    requires Collect(SeenSnapshots(disk, sizes), b, Elements(files)) == Some(map[])
    requires b !in disk.recon.covered && b !in EventBatches(SeenEvents(disk, sizes))
    ensures Decide(disk, repo, ws, sizes, b)
            == if Ready(repo, ws, sizes, b, files)
               then Some(Todo(Rows(b, files, ws.head.value, repo), [EventOf(b)], true)) else None
  {
    PreparedWithoutEvidence(repo, ws, files);
    NothingRecorded(files);
    hide WellFormed, BatchFiles, SnapshotsFit, Prepared, Collect, EventBatches, Unrecorded, Rows, SeenSnapshots,
      SeenEvents, UniformOids, AllExact, Resolves, WorkspaceOk;
  }

  /** What an attempt on a fresh batch decides. */
  lemma {:induction false} DecideFresh(disk: Disk, repo: Repo, ws: Workspace, sizes: Sizes, b: int, files: seq<string>)
    requires Selected(disk, repo, b, files) && InvAt(disk, repo, sizes, b, files) && Recoverable(disk, sizes, b)
    requires WorkspaceOk(repo, ws) && RowsFor(disk.snapshots, b) == []
    ensures Decide(disk, repo, ws, sizes, b)
            == if Ready(repo, ws, sizes, b, files)
               then Some(Todo(Rows(b, files, ws.head.value, repo), [EventOf(b)], true)) else None
    ensures EventsFor(disk.ledger, b) == [] && b !in disk.recon.covered
  {
    FreshFacts(disk, repo, sizes, b, files);
    hide Selected, Ready, Decide, Collect, EventBatches, InvAt, Recoverable, WorkspaceOk, RowsFor, EventsFor, Rows;
    DecideWithoutEvidence(disk, repo, ws, sizes, b, files);
  }

  /** What an attempt decides that sees all rows of a started batch: exactly the rest, at the head already recorded. */
  lemma {:induction false} DecideInSight(disk: Disk, repo: Repo, ws: Workspace, sizes: Sizes, b: int,
                                         files: seq<string>)
    requires Selected(disk, repo, b, files) && InvAt(disk, repo, sizes, b, files) && RowsInSight(disk, sizes, b)
    requires RowsFor(disk.snapshots, b) != []
    requires b in EventBatches(SeenEvents(disk, sizes)) ==> EventsFor(disk.ledger, b) != []
    ensures var rows, h := RowsFor(disk.snapshots, b), HeadOf(RowsFor(disk.snapshots, b));
            |rows| <= |files|
            && Decide(disk, repo, ws, sizes, b)
               == Some(Todo(Rows(b, files, h, repo)[|rows|..],
                            if b in EventBatches(SeenEvents(disk, sizes)) then [] else [EventOf(b)],
                            b !in disk.recon.covered))
  {
    var rows, h := RowsFor(disk.snapshots, b), HeadOf(RowsFor(disk.snapshots, b));
    var k := |rows|;
    EvidenceSeen(disk, repo, sizes, b, files);
    StartedFacts(disk, repo, ws, sizes, b, files);
    hide WellFormed, BatchFiles, SnapshotsFit, Prepared, EvidenceAt, Collect, EventBatches, Visible, Unrecorded, Rows,
      RowsFor, EventsFor, StartedAt, HeadOf, RowsInSight;
  }

  /** What an attempt on a started batch decides. */
  lemma {:induction false} DecideStarted(disk: Disk, repo: Repo, ws: Workspace, sizes: Sizes, b: int,
                                         files: seq<string>)
    requires Selected(disk, repo, b, files) && InvAt(disk, repo, sizes, b, files) && Recoverable(disk, sizes, b)
    requires RowsFor(disk.snapshots, b) != []
    ensures var rows, h := RowsFor(disk.snapshots, b), HeadOf(RowsFor(disk.snapshots, b));
            |rows| <= |files|
            && Decide(disk, repo, ws, sizes, b)
               == Some(Todo(Rows(b, files, h, repo)[|rows|..],
                            if EventsFor(disk.ledger, b) != [] then [] else [EventOf(b)],
                            b !in disk.recon.covered))
  {
    hide Decide, EventBatches, RowsFor, EventsFor, Rows, HeadOf, InvAt, RowsInSight, Selected;
    DecideInSight(disk, repo, ws, sizes, b, files);
  }

  /** The rows still to be written are the rest of the batch's rows. */
  lemma RestOfRows(b: int, files: seq<string>, h: string, repo: Repo, k: nat)
    requires Distinct(files) && k <= |files|
    ensures Rows(b, Unrecorded(files, EvidenceAt(files[..k], h, repo)), h, repo) == Rows(b, files, h, repo)[k..]
    ensures |Rows(b, files, h, repo)| == |files|
  {
    hide EvidenceAt, Distinct, Unrecorded;
    assert |Rows(b, files, h, repo)| == |files|;
    UnrecordedSuffix(files, h, repo, k);
    RowsSlice(b, files, h, repo, k, |files|);
    assert files[..|files|] == files;
    hide Rows;
    assert Rows(b, files, h, repo)[k..|files|] == Rows(b, files, h, repo)[k..];
    if k == |files| { assert files[k..] == []; }
  }

  lemma {:induction false} StartedFacts(disk: Disk, repo: Repo, ws: Workspace, sizes: Sizes, b: int, files: seq<string>)
    requires Selected(disk, repo, b, files) && InvAt(disk, repo, sizes, b, files)
    requires RowsFor(disk.snapshots, b) != []
    ensures var rows, h := RowsFor(disk.snapshots, b), HeadOf(RowsFor(disk.snapshots, b));
            var k, full := |rows|, Rows(b, files, h, repo);
            k <= |files| && |full| == |files|
            && Prepared(repo, ws, files, EvidenceAt(files[..k], h, repo)) == Some(h)
            && (EvidenceAt(files[..k], h, repo).Keys == Elements(files) <==> k == |files|)
            && Rows(b, Unrecorded(files, EvidenceAt(files[..k], h, repo)), h, repo) == full[k..]
            && SnapshotsFit(full, sizes)
            && (EventsFor(disk.ledger, b) != [] ==> k == |files|)
            && (b in disk.recon.covered ==> EventsFor(disk.ledger, b) != [])
            && (k == |files| ==> full[k..] == [])
  {
    hide WellFormed, BatchFiles, SnapshotsFit, AllExact, Resolves, UniformOids, RowsFor, EventsFor, Rows, EvidenceAt,
      Prepared, Unrecorded;
    var rows, h := RowsFor(disk.snapshots, b), HeadOf(RowsFor(disk.snapshots, b));
    var k := |rows|;
    RestOfRows(b, files, h, repo, if k <= |files| then k else 0);
    PreparedAgain(repo, ws, files, h, k);
    EvidenceKeys(files, h, repo, k);
  }
}
