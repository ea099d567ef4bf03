/**
 What a checkpoint attempt does once records of its own batch have left the windows it reads: it writes rows again
 or refuses, and it leaves each record once exactly when all of them are still in sight.
 */
module OutOfSight {
  import opened Wrappers
  import opened Sequences
  import opened GitObjects
  import opened ReconValidation
  import opened Coverage
  import opened Checkpoint
  import opened CheckpointSteps
  import opened CheckpointRuns
  import JsonlTail

  // ---- What the windows still show ----

  /** How many of the batch's rows have left the window. */
  function Unseen(disk: Disk, sizes: Sizes, b: int): int {
    |RowsFor(disk.snapshots, b)| - |RowsFor(SeenSnapshots(disk, sizes), b)|
  }

  lemma VisibleIsSuffix<R(!new)>(log: seq<R>, size: R -> nat, maxBytes: nat) returns (i: nat)
    requires maxBytes > 0
    ensures i <= |log| && Visible(log, size, maxBytes) == log[i..]
  {
    if Total(log, size) <= maxBytes {
      i := 0;
    } else {
      i := LastWithinIsSuffix(log, size, maxBytes - 1);
    }
  }

  /** The window shows the last rows of the batch, and an event only if there is one. */
  lemma SeenIsLast(disk: Disk, sizes: Sizes, b: int)
    ensures var rows, n := RowsFor(disk.snapshots, b), Unseen(disk, sizes, b);
            0 <= n <= |rows| && RowsFor(SeenSnapshots(disk, sizes), b) == rows[n..]
    ensures b in EventBatches(SeenEvents(disk, sizes)) ==> EventsFor(disk.ledger, b) != []
  {
    var i := VisibleIsSuffix(disk.snapshots, sizes.snapshot, MAX_SNAPSHOT_TAIL_BYTES);
    var j := VisibleIsSuffix(disk.ledger, sizes.event, MAX_LEDGER_TAIL_BYTES);
    hide RowsFor, EventsFor, EventBatches, Visible;
    RowsForAppend(disk.snapshots[..i], disk.snapshots[i..], b);
    assert disk.snapshots[..i] + disk.snapshots[i..] == disk.snapshots;
    EventsForAppend(disk.ledger[..j], disk.ledger[j..], b);
    assert disk.ledger[..j] + disk.ledger[j..] == disk.ledger;
    EventSeen(disk.ledger[j..], b);
  }

  // ---- Evidence for the middle of a batch ----

  lemma SliceIsExact(repo: Repo, h: string, files: seq<string>, m: nat, k: nat)
    requires m <= k <= |files| && AllExact(repo, h, files)
    ensures AllExact(repo, h, files[m..k]) && Elements(files[m..k]) <= Elements(files)
  {
    forall f | f in files[m..k] ensures f in files {
      var i :| 0 <= i < k - m && files[m..k][i] == f;
      assert files[m + i] == f;
    }
  }

  /** Rows of the middle of a batch are read back as evidence for those files. */
  lemma CollectMiddle(b: int, files: seq<string>, h: string, repo: Repo, m: nat, k: nat)
    requires m <= k <= |files| && AllExact(repo, h, files) && Resolves(repo, h) && UniformOids(repo) && b >= 1
    ensures Collect(Rows(b, files, h, repo)[m..k], b, Elements(files)) == Some(EvidenceAt(files[m..k], h, repo))
  {
    var part := files[m..k];
    SliceIsExact(repo, h, files, m, k);
    CollectRows(b, part, Elements(files), h, repo, |part|);
    RowsSlice(b, files, h, repo, m, k);
    RowsSlice(b, part, h, repo, 0, |part|);
    hide AllExact, Resolves, UniformOids, Collect, EvidenceAt, Rows;
    assert part[..|part|] == part && part[0..|part|] == part;
    assert Rows(b, part, h, repo)[..|part|] == Rows(b, part, h, repo)[0..|part|];
  }

  lemma MiddleKeys(files: seq<string>, h: string, repo: Repo, m: nat, k: nat)
    requires Distinct(files) && 0 < m <= k <= |files|
    ensures EvidenceAt(files[m..k], h, repo).Keys != Elements(files)
    ensures EvidenceAt(files[m..k], h, repo) == map[] <==> m == k
  {
    RecordedInMiddle(files, h, repo, m, k, 0);
    assert files[0] in Elements(files);
    if m < k {
      RecordedInMiddle(files, h, repo, m, k, m);
    } else {
      hide OidAt;
      assert files[m..k] == [];
    }
  }

  // ---- What the attempt decides ----

  /** The evidence of a batch whose first `m` rows are out of sight. */
  lemma {:induction false} EvidenceLeft(disk: Disk, repo: Repo, sizes: Sizes, b: int, files: seq<string>)
    requires Selected(disk, repo, b, files) && InvAt(disk, repo, sizes, b, files)
    requires RowsFor(disk.snapshots, b) != []
    ensures var rows, m := RowsFor(disk.snapshots, b), Unseen(disk, sizes, b);
            && 0 <= m <= |rows| <= |files|
            && Collect(SeenSnapshots(disk, sizes), b, Elements(files))
               == Some(EvidenceAt(files[m..|rows|], HeadOf(rows), repo))
  {
    hide WellFormed, BatchFiles, SnapshotsFit, AllExact, Resolves, UniformOids, SeenSnapshots, RowsFor, EventsFor,
      Collect;
    var rows, h := RowsFor(disk.snapshots, b), HeadOf(RowsFor(disk.snapshots, b));
    SeenIsLast(disk, sizes, b);
    CollectOnlyOwn(SeenSnapshots(disk, sizes), b, Elements(files));
    assert |rows| <= |Rows(b, files, h, repo)| == |files|;
    var m := Unseen(disk, sizes, b);
    CollectMiddle(b, files, h, repo, m, |rows|);
    hide Unseen;
    assert rows[m..] == Rows(b, files, h, repo)[m..|rows|];
  }

  /** The files whose rows are written: those before the rows in sight and those behind. */
  function Around(files: seq<string>, m: nat, k: nat): seq<string>
    requires m <= k <= |files|
  {
    files[..m] + files[k..]
  }

  /**
   With some of its rows out of sight, a batch that is covered or whose event is in sight is refused; otherwise the
   rows out of sight are written again, at the recorded head while some row is in sight, and the whole batch at
   today's HEAD, if that can start it, when none is.
   */
  lemma {:induction false} DecideOutOfSight(disk: Disk, repo: Repo, ws: Workspace, sizes: Sizes, b: int,
                                            files: seq<string>)
    requires Selected(disk, repo, b, files) && InvAt(disk, repo, sizes, b, files) && WorkspaceOk(repo, ws)
    requires Unseen(disk, sizes, b) > 0
    ensures var rows, m := RowsFor(disk.snapshots, b), Unseen(disk, sizes, b);
            m <= |rows| <= |files|
            && Decide(disk, repo, ws, sizes, b)
               == if b in disk.recon.covered || b in EventBatches(SeenEvents(disk, sizes)) then None
                  else if m < |rows| then
                    Some(Todo(Rows(b, Around(files, m, |rows|), HeadOf(rows), repo), [EventOf(b)], true))
                  else if Ready(repo, ws, sizes, b, files) then
                    Some(Todo(Rows(b, files, ws.head.value, repo), [EventOf(b)], true))
                  else None
  {
    var rows, h := RowsFor(disk.snapshots, b), HeadOf(RowsFor(disk.snapshots, b));
    var m, k := Unseen(disk, sizes, b), |rows|;
    SeenIsLast(disk, sizes, b);
    EvidenceLeft(disk, repo, sizes, b, files);
    MiddleKeys(files, h, repo, m, k);
    var existing := EvidenceAt(files[m..k], h, repo);
    DecideIncomplete(disk, repo, ws, sizes, b, files, existing);
    if m < k {
      WhatIsLeft(repo, ws, files, h, m, k);
      assert SnapshotsFit(Rows(b, files, h, repo), sizes);
    } else if b !in disk.recon.covered && b !in EventBatches(SeenEvents(disk, sizes)) {
      hide Decide, Selected, Collect, EventBatches, RowsFor, Rows, InvAt, HeadOf, Unseen, Ready, EvidenceAt;
      DecideWithoutEvidence(disk, repo, ws, sizes, b, files);
    }
    hide Decide, Selected, Collect, EventBatches, RowsFor, Rows, HeadOf, Unseen, Ready, EvidenceAt, SnapshotsFit,
      Prepared, Unrecorded, InvAt;
  }

  lemma WhatIsLeft(repo: Repo, ws: Workspace, files: seq<string>, h: string, m: nat, k: nat)
    requires Distinct(files) && m < k <= |files| && AllExact(repo, h, files) && Resolves(repo, h)
    ensures Prepared(repo, ws, files, EvidenceAt(files[m..k], h, repo)) == Some(h)
    ensures Unrecorded(files, EvidenceAt(files[m..k], h, repo)) == Around(files, m, k)
  {
    hide Prepared, EvidenceAt, Unrecorded, AllExact, Resolves, Distinct;
    PreparedFromMiddle(repo, ws, files, h, m, k);
    UnrecordedAround(files, h, repo, m, k, |files|);
    assert files[..|files|] == files && files[k..|files|] == files[k..];
    if k == |files| { assert files[..m] + files[k..] == files[..m]; }
  }

  /** What the checks decide on evidence that is not complete. */
  lemma DecideIncomplete(disk: Disk, repo: Repo, ws: Workspace, sizes: Sizes, b: int, files: seq<string>,
                         existing: Evidence)
    requires Selected(disk, repo, b, files) && existing.Keys != Elements(files)
    requires Collect(SeenSnapshots(disk, sizes), b, Elements(files)) == Some(existing)
    ensures Decide(disk, repo, ws, sizes, b)
            == if b in disk.recon.covered || b in EventBatches(SeenEvents(disk, sizes)) then None
               else
                 match Prepared(repo, ws, files, existing)
                 case None => None
                 case Some(head) =>
                   if SnapshotsFit(Rows(b, files, head, repo), sizes)
                   then Some(Todo(Rows(b, Unrecorded(files, existing), head, repo), [EventOf(b)], true)) else None
  {
    hide WellFormed, BatchFiles, SnapshotsFit, Prepared, Collect, EventBatches, Unrecorded, Rows, SeenSnapshots,
      SeenEvents, UniformOids;
  }

  // ---- Each record once ----

  /** The batch has one row for each of its files and one event. */
  ghost predicate OnceEach(disk: Disk, b: int, files: seq<string>) {
    |RowsFor(disk.snapshots, b)| == |files| && |EventsFor(disk.ledger, b)| == 1
  }

  /** What carrying out a decision in full adds to the batch. */
  lemma {:induction false} FullyCarriedOut(disk: Disk, todo: Todo, b: int, sizes: Sizes, budget: nat)
    requires b >= 1 && AllOf(todo.rows, b) && (todo.events == [] || todo.events == [EventOf(b)])
    requires sizes.event(EventOf(b)) <= JsonlTail.MAX_JSONL_LINE_BYTES && budget >= |todo.rows| + 2
    ensures var (d', outcome) := CarryOut(disk, todo, b, sizes, budget);
            && outcome == Done
            && RowsFor(d'.snapshots, b) == RowsFor(disk.snapshots, b) + todo.rows
            && EventsFor(d'.ledger, b) == EventsFor(disk.ledger, b) + todo.events
            && d'.recon.covered == disk.recon.covered + if todo.markCovered then [b] else []
  {
    hide RowsFor, EventsFor, AllOf, EventOf;
    RowsForAppend(disk.snapshots, todo.rows, b);
    RowsForOneBatch(todo.rows, b, b);
    EventsForAppend(disk.ledger, todo.events, b);
    EventsForOne(b, b);
    assert EventsFor([], b) == [] by { NoEvents(b); }
  }

  lemma NoEvents(b: int)
    ensures EventsFor([], b) == []
  {
  }

  lemma RowsCount(b: int, files: seq<string>, h: string, repo: Repo)
    requires b >= 1
    ensures AllOf(Rows(b, files, h, repo), b) && |Rows(b, files, h, repo)| == |files|
  {
    RowsAllOf(b, files, h, repo);
  }

  /** With rows out of sight, an attempt that succeeds leaves more rows than files. */
  lemma {:induction false} RowsTwice(disk: Disk, repo: Repo, ws: Workspace, sizes: Sizes, b: int, files: seq<string>,
                                     budget: nat)
    requires Selected(disk, repo, b, files) && InvAt(disk, repo, sizes, b, files) && WorkspaceOk(repo, ws)
    requires Unseen(disk, sizes, b) > 0
    requires sizes.event(EventOf(b)) <= JsonlTail.MAX_JSONL_LINE_BYTES && budget >= |files| + 2
    ensures var (d', outcome) := Attempt(disk, repo, ws, sizes, b, budget);
            && (outcome == Done || (outcome == Refused && d' == disk))
            && (outcome == Done ==> b in d'.recon.covered && |RowsFor(d'.snapshots, b)| > |files|)
  {
    var rows, m := RowsFor(disk.snapshots, b), Unseen(disk, sizes, b);
    DecideOutOfSight(disk, repo, ws, sizes, b, files);
    var decision := Decide(disk, repo, ws, sizes, b);
    RowsCount(b, files, if ws.head.Some? then ws.head.value else "", repo);
    RowsCount(b, Around(files, m, |rows|), HeadOf(rows), repo);
    hide Decide, RowsFor, EventsFor, EventOf, AllOf, Rows, HeadOf, EventBatches, Ready, InvAt, Unseen, CarryOut;
    if decision.Some? { FullyCarriedOut(disk, decision.value, b, sizes, budget); }
  }

  /** With only the event out of sight, an attempt adds a second event. */
  lemma {:induction false} EventTwice(disk: Disk, repo: Repo, ws: Workspace, sizes: Sizes, b: int, files: seq<string>,
                                      budget: nat)
    requires Selected(disk, repo, b, files) && InvAt(disk, repo, sizes, b, files)
    requires RowsInSight(disk, sizes, b) && EventsFor(disk.ledger, b) != []
    requires b !in EventBatches(SeenEvents(disk, sizes))
    requires sizes.event(EventOf(b)) <= JsonlTail.MAX_JSONL_LINE_BYTES && budget >= |files| + 2
    ensures var (d', outcome) := Attempt(disk, repo, ws, sizes, b, budget);
            outcome == Done && b in d'.recon.covered && |EventsFor(d'.ledger, b)| == 2
  {
    var rows := RowsFor(disk.snapshots, b);
    assert rows != [] && |EventsFor(disk.ledger, b)| == 1;
    DecideInSight(disk, repo, ws, sizes, b, files);
    RowsCount(b, files, HeadOf(rows), repo);
    assert Rows(b, files, HeadOf(rows), repo)[|rows|..] == [];
    hide Decide, RowsFor, EventsFor, EventOf, Rows, HeadOf, EventBatches, RowsInSight, CarryOut;
    var decision := Decide(disk, repo, ws, sizes, b);
    FullyCarriedOut(disk, decision.value, b, sizes, budget);
  }

  /**
   In every reachable state, an attempt with room for its writes succeeds or refuses without a write, and when it
   succeeds each record of the batch is there once if and only if all the batch's records were in sight.
   */
  lemma {:induction false} OnceIffInSight(disk: Disk, repo: Repo, ws: Workspace, sizes: Sizes, b: int,
                                          files: seq<string>, budget: nat)
    requires Inv(disk, repo, sizes) && WorkspaceOk(repo, ws) && Planned(disk, b, files)
    requires sizes.event(EventOf(b)) <= JsonlTail.MAX_JSONL_LINE_BYTES && budget >= |files| + 2
    ensures var (d', outcome) := Attempt(disk, repo, ws, sizes, b, budget);
            && (outcome == Done || (outcome == Refused && d' == disk))
            && (outcome == Done ==> b in d'.recon.covered && (OnceEach(d', b, files) <==> Recoverable(disk, sizes, b)))
  {
    hide WellFormed, BatchFiles, UniformOids, RowsFor, EventsFor, AllInv, EventOf, EventBatches, Attempt, BatchInv;
    assert InvAt(disk, repo, sizes, b, files) by { AllInvAt(disk, PlanOf(disk), repo, sizes, b); }
    SelectedIs(disk, repo, b);
    SeenIsLast(disk, sizes, b);
    if Recoverable(disk, sizes, b) {
      RetryCompletes(disk, repo, ws, sizes, b, files, budget);
    } else if Unseen(disk, sizes, b) > 0 {
      RowsTwice(disk, repo, ws, sizes, b, files, budget);
    } else {
      assert RowsFor(disk.snapshots, b)[0..] == RowsFor(disk.snapshots, b);
      EventTwice(disk, repo, ws, sizes, b, files, budget);
    }
  }
}
