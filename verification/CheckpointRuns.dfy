/** Checkpoint commands over whole runs: crashing and retrying refines one atomic step per batch. */
module CheckpointRuns {
  import opened Wrappers
  import opened Sequences
  import opened GitObjects
  import opened ReconValidation
  import JsonlTail
  import opened Coverage
  import opened Checkpoint
  import opened CheckpointSteps

  type Plan = map<int, seq<string>>

  function PlanOf(disk: Disk): Plan {
    BatchFiles(disk.recon.batches)
  }

  /** Every planned batch is untouched, part way, or complete; nothing else is possible. */
  ghost predicate Inv(disk: Disk, repo: Repo, sizes: Sizes) {
    WellFormed(disk.recon) && UniformOids(repo) && AllInv(disk, PlanOf(disk), repo, sizes)
  }

  ghost predicate AllInv(disk: Disk, plan: Plan, repo: Repo, sizes: Sizes) {
    forall b :: b in plan ==> InvAt(disk, repo, sizes, b, plan[b])
  }

  ghost predicate Planned(disk: Disk, b: int, files: seq<string>) {
    b in PlanOf(disk) && PlanOf(disk)[b] == files
  }

  // ---- What carrying out a decision leaves behind ----

  function Min(a: nat, b: nat): nat {
    if a < b then a else b
  }

  ghost predicate Elsewhere(d: Disk, d': Disk, b: int) {
    forall c :: c != b ==> RowsFor(d'.snapshots, c) == RowsFor(d.snapshots, c)
                           && EventsFor(d'.ledger, c) == EventsFor(d.ledger, c)
                           && (c in d'.recon.covered <==> c in d.recon.covered)
  }

  /** The decision writes the rest of `full` and whatever of the event and the mark is missing. */
  ghost predicate Finishes(disk: Disk, todo: Todo, b: int, full: seq<SnapshotRow>, k: nat) {
    && b >= 1 && AllOf(full, b) && k <= |full|
    && RowsFor(disk.snapshots, b) == full[..k] && todo.rows == full[k..]
    && todo.events == (if EventsFor(disk.ledger, b) != [] then [] else [EventOf(b)])
    && todo.markCovered == (b !in disk.recon.covered)
    && (b in disk.recon.covered ==> EventsFor(disk.ledger, b) != [])
  }

  lemma SnapshotsAfter(disk: Disk, todo: Todo, b: int, budget: nat, full: seq<SnapshotRow>, k: nat)
    requires Finishes(disk, todo, b, full, k)
    ensures var log := AppendUpTo(disk.snapshots, todo.rows, budget);
            disk.snapshots <= log
            && RowsFor(log, b) == full[..k + Min(budget, |full| - k)]
            && forall c :: c != b ==> RowsFor(log, c) == RowsFor(disk.snapshots, c)
  {
    var m := Min(budget, |full| - k);
    var added := full[k..k + m];
    hide RowsFor, EventsFor;
    assert full[..k + m] == full[..k] + added;
    assert todo.rows[..m] == added;
    assert m == |todo.rows| ==> todo.rows == added;
    forall c ensures RowsFor(disk.snapshots + added, c) == RowsFor(disk.snapshots, c) + if c == b then added else [] {
      RowsForAppend(disk.snapshots, added, c);
      RowsForOneBatch(added, b, c);
    }
  }

  lemma LedgerAfter(ledger: seq<LedgerRow>, events: seq<LedgerRow>, b: int, budget: nat)
    requires b >= 1 && events == if EventsFor(ledger, b) != [] then [] else [EventOf(b)]
    ensures var log := AppendUpTo(ledger, events, budget);
            && ledger <= log
            && EventsFor(log, b)
               == (if EventsFor(ledger, b) == [] && budget > 0 then [EventOf(b)] else EventsFor(ledger, b))
            && forall c :: c != b ==> EventsFor(log, c) == EventsFor(ledger, c)
  {
    hide EventsFor, EventOf;
    assert events[..0] == [] && ledger + [] == ledger;
    forall c ensures EventsFor(ledger + [EventOf(b)], c) == EventsFor(ledger, c) + if c == b then [EventOf(b)] else [] {
      EventsForAppend(ledger, [EventOf(b)], c);
      EventsForOne(b, c);
    }
  }

  predicate EventWritable(disk: Disk, sizes: Sizes, b: int) {
    EventsFor(disk.ledger, b) != [] || sizes.event(EventOf(b)) <= JsonlTail.MAX_JSONL_LINE_BYTES
  }

  /** The batch's rows only grow toward `full`, the event follows the last row, the mark follows the event. */
  ghost predicate Carried(disk: Disk, d': Disk, outcome: Outcome, b: int, sizes: Sizes, budget: nat,
                          full: seq<SnapshotRow>, k: nat)
    requires k <= |full|
  {
    && Elsewhere(disk, d', b)
    && disk.snapshots <= d'.snapshots && disk.ledger <= d'.ledger
    && RowsFor(d'.snapshots, b) == full[..k + Min(budget, |full| - k)]
    && (EventsFor(d'.ledger, b) == EventsFor(disk.ledger, b)
        || (EventsFor(disk.ledger, b) == [] && EventsFor(d'.ledger, b) == [EventOf(b)] && budget > |full| - k))
    && d'.recon == (if outcome == Done && b !in disk.recon.covered
                    then disk.recon.(covered := disk.recon.covered + [b]) else disk.recon)
    && (outcome == Done ==> |full| - k <= budget && EventsFor(d'.ledger, b) != [])
    && (budget >= |full| - k + 2 ==> (outcome == Done <==> EventWritable(disk, sizes, b)))
  }

  lemma {:induction false} CarriedOut(disk: Disk, todo: Todo, b: int, sizes: Sizes, budget: nat,
                                      full: seq<SnapshotRow>, k: nat)
    requires Finishes(disk, todo, b, full, k)
    ensures var (d', outcome) := CarryOut(disk, todo, b, sizes, budget);
            Carried(disk, d', outcome, b, sizes, budget, full, k)
  {
    hide RowsFor, EventsFor, AllOf, EventOf, AppendUpTo;
    SnapshotsAfter(disk, todo, b, budget, full, k);
    if budget >= |todo.rows| {
      LedgerAfter(disk.ledger, todo.events, b, budget - |todo.rows|);
    }
  }

  /** The decision finishes the batch at `h`: the head already recorded, or today's HEAD when nothing is. */
  ghost predicate Finishing(disk: Disk, repo: Repo, ws: Workspace, sizes: Sizes, b: int, files: seq<string>,
                            todo: Todo, h: string) {
    var rows, full := RowsFor(disk.snapshots, b), Rows(b, files, h, repo);
    && Planned(disk, b, files)
    && (if rows != [] then h == HeadOf(rows) else ws.head == Some(h))
    && |full| == |files| && |rows| <= |files|
    && Finishes(disk, todo, b, full, |rows|)
    && StartedAt(full, repo, sizes, b, files, h)
  }

  /** Every attempt finishes the batch at some commit, or refuses and writes nothing. */
  lemma AttemptFinishes(disk: Disk, repo: Repo, ws: Workspace, sizes: Sizes, b: int, files: seq<string>)
      returns (h: string)
    requires Inv(disk, repo, sizes) && Recoverable(disk, sizes, b) && WorkspaceOk(repo, ws) && Planned(disk, b, files)
    ensures var todo := Decide(disk, repo, ws, sizes, b);
            && (todo.None? <==> RowsFor(disk.snapshots, b) == [] && !Ready(repo, ws, sizes, b, files))
            && (todo.Some? ==> Finishing(disk, repo, ws, sizes, b, files, todo.value, h))
  {
    var rows := RowsFor(disk.snapshots, b);
    hide WellFormed, BatchFiles, SnapshotsFit, AllExact, Resolves, UniformOids, RowsFor, EventsFor, Decide,
        Recoverable, BlobAt;
    SelectedIs(disk, repo, b);
    if rows != [] {
      h := HeadOf(rows);
      DecideStarted(disk, repo, ws, sizes, b, files);
      assert rows == Rows(b, files, h, repo)[..|rows|];
    } else {
      DecideFresh(disk, repo, ws, sizes, b, files);
      h := if ws.head.Some? then ws.head.value else "";
      assert rows == Rows(b, files, h, repo)[..0];
      assert Rows(b, files, h, repo)[0..] == Rows(b, files, h, repo);
    }
    RowsAllOf(b, files, h, repo);
  }

  lemma RowsAllOf(b: int, files: seq<string>, h: string, repo: Repo)
    requires b >= 1
    ensures AllOf(Rows(b, files, h, repo), b) && |Rows(b, files, h, repo)| == |files|
    ensures files != [] ==> HeadOf(Rows(b, files, h, repo)) == h
  {
  }

  /** The new state of the selected batch satisfies the invariant at the head it started with. */
  lemma SelectedKeepsInv(d: Disk, d': Disk, outcome: Outcome, repo: Repo, ws: Workspace, sizes: Sizes, b: int,
                         files: seq<string>, h: string, todo: Todo, budget: nat)
    requires Selected(d, repo, b, files) && InvAt(d, repo, sizes, b, files)
    requires Finishing(d, repo, ws, sizes, b, files, todo, h)
    requires Carried(d, d', outcome, b, sizes, budget, Rows(b, files, h, repo), |RowsFor(d.snapshots, b)|)
    ensures InvAt(d', repo, sizes, b, files)
    ensures RowsFor(d'.snapshots, b) != [] ==> HeadOf(RowsFor(d'.snapshots, b)) == h
    ensures RowsFor(d.snapshots, b) <= RowsFor(d'.snapshots, b)
  {
    hide WellFormed, BatchFiles, SnapshotsFit, AllExact, Resolves, UniformOids, RowsFor, EventsFor, Rows, Elsewhere,
        EventWritable;
    var full := Rows(b, files, h, repo);
    RowsAllOf(b, files, h, repo);
    var rows := RowsFor(d'.snapshots, b);
    if rows != [] {
      assert rows[0] == full[0];
      assert HeadOf(rows) == h;
    }
  }

  lemma StillWellFormed(recon: Recon, b: int)
    requires WellFormed(recon) && b in BatchFiles(recon.batches) && b !in recon.covered
    ensures WellFormed(recon.(covered := recon.covered + [b]))
  {
    BatchFilesKeys(recon.batches);
    hide BatchesOk, BatchFiles;
    var more := recon.covered + [b];
    forall i, j | 0 <= i < j < |more| ensures more[i] != more[j] {
      assert more[i] == recon.covered[i];
      assert recon.covered[i] in recon.covered;
    }
  }

  // ---- Runs ----

  /** A checkpoint command at some workspace that stops after `budget` writes, or an unrelated ledger event. */
  datatype Step = Run(batch: int, ws: Workspace, budget: nat) | Emit(row: LedgerRow)

  ghost predicate StepOk(plan: Plan, step: Step, repo: Repo) {
    match step
    case Run(_, ws, _) => WorkspaceOk(repo, ws)
    case Emit(row) => EventBatch(row).None? || EventBatch(row).value !in plan
  }

  ghost function Apply(disk: Disk, step: Step, repo: Repo, sizes: Sizes): Disk {
    match step
    case Run(b, ws, budget) => Attempt(disk, repo, ws, sizes, b, budget).0
    case Emit(row) => disk.(ledger := disk.ledger + [row])
  }

  ghost function Exec(disk: Disk, steps: seq<Step>, repo: Repo, sizes: Sizes): Disk {
    if steps == [] then disk
    else Apply(Exec(disk, steps[..|steps| - 1], repo, sizes), steps[|steps| - 1], repo, sizes)
  }

  ghost predicate Succeeds(disk: Disk, step: Step, repo: Repo, sizes: Sizes) {
    step.Run? && Attempt(disk, repo, step.ws, sizes, step.batch, step.budget).1 == Done
  }

  /** The batches in the order in which some command first succeeded on them. */
  ghost function DoneOrder(disk: Disk, steps: seq<Step>, repo: Repo, sizes: Sizes): seq<int> {
    if steps == [] then []
    else
      var front, last := steps[..|steps| - 1], steps[|steps| - 1];
      var before := DoneOrder(disk, front, repo, sizes);
      if Succeeds(Exec(disk, front, repo, sizes), last, repo, sizes) && last.batch !in before then before + [last.batch]
      else before
  }

  /** HEAD at the step that made the batch's first row durable. */
  ghost function FirstHead(disk: Disk, steps: seq<Step>, repo: Repo, sizes: Sizes, b: int): string {
    if steps == [] then ""
    else
      var front, last := steps[..|steps| - 1], steps[|steps| - 1];
      if RowsFor(Exec(disk, front, repo, sizes).snapshots, b) != [] then FirstHead(disk, front, repo, sizes, b)
      else if last.Run? && last.ws.head.Some? then last.ws.head.value else ""
  }

  /** A command finds what the logs hold of its batch inside the windows. */
  ghost predicate InSight(disk: Disk, step: Step, sizes: Sizes) {
    step.Run? && step.batch in PlanOf(disk) ==> Recoverable(disk, sizes, step.batch)
  }

  ghost predicate SightedAt(d0: Disk, steps: seq<Step>, repo: Repo, sizes: Sizes, i: nat)
    requires i < |steps|
  {
    InSight(Exec(d0, steps[..i], repo, sizes), steps[i], sizes)
  }

  ghost predicate Sighted(d0: Disk, steps: seq<Step>, repo: Repo, sizes: Sizes) {
    forall i :: 0 <= i < |steps| ==> SightedAt(d0, steps, repo, sizes, i)
  }

  /** What one step does to every batch. */
  ghost predicate StepEffect(d: Disk, d': Disk, step: Step, repo: Repo, sizes: Sizes) {
    && d.snapshots <= d'.snapshots && d.ledger <= d'.ledger
    && d'.recon == (if Succeeds(d, step, repo, sizes) && step.batch !in d.recon.covered
                    then d.recon.(covered := d.recon.covered + [step.batch]) else d.recon)
    && Inv(d', repo, sizes)
    && (forall b :: b in PlanOf(d) ==>
          && (RowsFor(d.snapshots, b) != [] ==> RowsFor(d.snapshots, b) <= RowsFor(d'.snapshots, b))
          && (RowsFor(d.snapshots, b) == [] && RowsFor(d'.snapshots, b) != [] ==>
                step.Run? && step.ws.head == Some(HeadOf(RowsFor(d'.snapshots, b))))
          && (b in d'.recon.covered ==> EventsFor(d'.ledger, b) != []))
  }

  lemma OtherEvent(ledger: seq<LedgerRow>, row: LedgerRow, b: int)
    requires EventBatch(row) != Some(b)
    ensures EventsFor(ledger + [row], b) == EventsFor(ledger, b)
  {
    assert (ledger + [row])[..|ledger + [row]| - 1] == ledger;
  }

  lemma EmitEffect(d: Disk, step: Step, repo: Repo, sizes: Sizes)
    requires Inv(d, repo, sizes) && step.Emit? && StepOk(PlanOf(d), step, repo)
    ensures StepEffect(d, Apply(d, step, repo, sizes), step, repo, sizes)
  {
    hide WellFormed, BatchFiles, UniformOids, RowsFor, EventsFor, StartedAt, EventBatch;
    forall b | b in PlanOf(d) ensures EventsFor(d.ledger + [step.row], b) == EventsFor(d.ledger, b) {
      OtherEvent(d.ledger, step.row, b);
    }
  }

  lemma RefusedEffect(d: Disk, step: Step, repo: Repo, sizes: Sizes)
    requires Inv(d, repo, sizes) && step.Run? && Decide(d, repo, step.ws, sizes, step.batch).None?
    ensures StepEffect(d, Apply(d, step, repo, sizes), step, repo, sizes)
  {
    hide WellFormed, BatchFiles, UniformOids, RowsFor, EventsFor, StartedAt, Decide;
  }

  lemma {:induction false} RunEffect(d: Disk, step: Step, repo: Repo, sizes: Sizes)
    requires Inv(d, repo, sizes) && InSight(d, step, sizes) && step.Run? && StepOk(PlanOf(d), step, repo)
    ensures StepEffect(d, Apply(d, step, repo, sizes), step, repo, sizes)
  {
    hide WellFormed, BatchFiles, UniformOids, RowsFor, EventsFor, Recoverable, Ready, Finishing, AllInv, StepEffect,
        CarryOut;
    var Run(b, ws, budget) := step;
    if Decide(d, repo, ws, sizes, b).None? {
      RefusedEffect(d, step, repo, sizes);
    } else {
      var todo := Decide(d, repo, ws, sizes, b).value;
      var files := PlanOf(d)[b];
      hide Decide;
      var h := AttemptFinishes(d, repo, ws, sizes, b, files);
      FinishingEffect(d, step, repo, sizes, files, todo, h);
      assert Apply(d, step, repo, sizes) == CarryOut(d, todo, b, sizes, budget).0;
    }
  }

  lemma {:induction false} FinishingEffect(d: Disk, step: Step, repo: Repo, sizes: Sizes, files: seq<string>,
                                           todo: Todo, h: string)
    requires Inv(d, repo, sizes) && step.Run?
    requires Decide(d, repo, step.ws, sizes, step.batch) == Some(todo)
    requires Finishing(d, repo, step.ws, sizes, step.batch, files, todo, h)
    ensures StepEffect(d, CarryOut(d, todo, step.batch, sizes, step.budget).0, step, repo, sizes)
  {
    hide Decide, WellFormed, BatchFiles, UniformOids, RowsFor, EventsFor, StartedAt, Rows, InvAt, CarryOut, HeadOf,
      EventWritable, Finishes, AllInv;
    var Run(b, ws, budget) := step;
    var (d', outcome) := CarryOut(d, todo, b, sizes, budget);
    CarriedOut(d, todo, b, sizes, budget, Rows(b, files, h, repo), |RowsFor(d.snapshots, b)|);
    InvAfter(d, d', outcome, repo, ws, sizes, b, files, h, todo, budget);
    CoveredHaveEvents(d', PlanOf(d), repo, sizes);
    hide Inv;
  }

  lemma CoveredHaveEvents(d: Disk, plan: Plan, repo: Repo, sizes: Sizes)
    requires AllInv(d, plan, repo, sizes)
    ensures forall c :: c in plan && c in d.recon.covered ==> EventsFor(d.ledger, c) != []
  {
    hide EventsFor, RowsFor, StartedAt;
  }

  lemma {:induction false} InvAfter(d: Disk, d': Disk, outcome: Outcome, repo: Repo, ws: Workspace, sizes: Sizes,
                                    b: int, files: seq<string>,
                 h: string, todo: Todo, budget: nat)
    requires Inv(d, repo, sizes)
    requires Finishing(d, repo, ws, sizes, b, files, todo, h)
    requires Carried(d, d', outcome, b, sizes, budget, Rows(b, files, h, repo), |RowsFor(d.snapshots, b)|)
    ensures Inv(d', repo, sizes) && PlanOf(d') == PlanOf(d)
    ensures RowsFor(d'.snapshots, b) != [] ==> HeadOf(RowsFor(d'.snapshots, b)) == h
    ensures RowsFor(d.snapshots, b) <= RowsFor(d'.snapshots, b)
  {
    hide WellFormed, BatchFiles, UniformOids, RowsFor, EventsFor, StartedAt, Rows, Selected, BatchInv, CarryOut,
      Finishes, HeadOf, EventWritable;
    SelectedIs(d, repo, b);
    assert InvAt(d, repo, sizes, b, files);
    if b !in d.recon.covered { StillWellFormed(d.recon, b); }
    SelectedKeepsInv(d, d', outcome, repo, ws, sizes, b, files, h, todo, budget);
    hide Finishing;
  }

  /** Before any checkpoint: a valid plan, nothing covered, no record of a planned batch. */
  ghost predicate Untouched(disk: Disk) {
    && WellFormed(disk.recon) && disk.recon.covered == []
    && forall b :: b in PlanOf(disk) ==> RowsFor(disk.snapshots, b) == [] && EventsFor(disk.ledger, b) == []
  }

  ghost predicate RunOk(disk: Disk, steps: seq<Step>, repo: Repo) {
    UniformOids(repo) && forall i :: 0 <= i < |steps| ==> StepOk(PlanOf(disk), steps[i], repo)
  }

  lemma PrefixFits(d: Disk, d': Disk, sizes: Sizes)
    requires d.snapshots <= d'.snapshots && d.ledger <= d'.ledger && FitsWindows(d', sizes)
    ensures FitsWindows(d, sizes)
  {
    TotalSplits(d.snapshots, d'.snapshots[|d.snapshots|..], sizes.snapshot);
    TotalSplits(d.ledger, d'.ledger[|d.ledger|..], sizes.event);
    assert d.snapshots + d'.snapshots[|d.snapshots|..] == d'.snapshots;
    assert d.ledger + d'.ledger[|d.ledger|..] == d'.ledger;
  }

  lemma {:induction false} StepGrows(d: Disk, step: Step, repo: Repo, sizes: Sizes)
    ensures var d' := Apply(d, step, repo, sizes); d.snapshots <= d'.snapshots && d.ledger <= d'.ledger
  {
    hide Decide;
  }

  /** The run so far, batch by batch. */
  ghost predicate Reached(d0: Disk, steps: seq<Step>, repo: Repo, sizes: Sizes) {
    var d := Exec(d0, steps, repo, sizes);
    && Inv(d, repo, sizes) && PlanOf(d) == PlanOf(d0)
    && d.recon == d0.recon.(covered := DoneOrder(d0, steps, repo, sizes))
    && (forall b :: b in PlanOf(d0) && RowsFor(d.snapshots, b) != [] ==>
          HeadOf(RowsFor(d.snapshots, b)) == FirstHead(d0, steps, repo, sizes, b))
    && (forall b :: b in PlanOf(d0) && b in d.recon.covered ==> EventsFor(d.ledger, b) != [])
  }

  lemma SightedFront(d0: Disk, steps: seq<Step>, repo: Repo, sizes: Sizes)
    requires steps != [] && Sighted(d0, steps, repo, sizes)
    ensures Sighted(d0, steps[..|steps| - 1], repo, sizes)
    ensures InSight(Exec(d0, steps[..|steps| - 1], repo, sizes), steps[|steps| - 1], sizes)
  {
    hide Exec, InSight;
    var n := |steps| - 1;
    forall i | 0 <= i < n ensures SightedAt(d0, steps[..n], repo, sizes, i) {
      assert SightedAt(d0, steps, repo, sizes, i);
      assert steps[..n][..i] == steps[..i];
    }
    assert SightedAt(d0, steps, repo, sizes, n);
  }

  lemma {:induction false} EveryRun(d0: Disk, steps: seq<Step>, repo: Repo, sizes: Sizes)
    requires Untouched(d0) && RunOk(d0, steps, repo) && Sighted(d0, steps, repo, sizes)
    ensures Reached(d0, steps, repo, sizes)
  {
    hide WellFormed, BatchFiles, UniformOids, RowsFor, EventsFor, Sighted, InSight, Apply, StepOk;
    if steps != [] {
      var n := |steps| - 1;
      SightedFront(d0, steps, repo, sizes);
      EveryRun(d0, steps[..n], repo, sizes);
      OneStep(Exec(d0, steps[..n], repo, sizes), steps[n], repo, sizes);
      Extend(d0, steps, repo, sizes);
    }
  }

  lemma {:induction false} OneStep(d: Disk, step: Step, repo: Repo, sizes: Sizes)
    requires Inv(d, repo, sizes) && InSight(d, step, sizes) && StepOk(PlanOf(d), step, repo)
    ensures StepEffect(d, Apply(d, step, repo, sizes), step, repo, sizes)
  {
    hide *;
    if step.Run? {
      RunEffect(d, step, repo, sizes);
    } else {
      EmitEffect(d, step, repo, sizes);
    }
  }

  lemma Extend(d0: Disk, steps: seq<Step>, repo: Repo, sizes: Sizes)
    requires steps != [] && Reached(d0, steps[..|steps| - 1], repo, sizes)
    requires var d := Exec(d0, steps[..|steps| - 1], repo, sizes);
             StepEffect(d, Apply(d, steps[|steps| - 1], repo, sizes), steps[|steps| - 1], repo, sizes)
    ensures Reached(d0, steps, repo, sizes)
  {
    hide WellFormed, BatchFiles, UniformOids, RowsFor, EventsFor, Apply, Succeeds, Inv;
    var n := |steps| - 1;
    var d, d' := Exec(d0, steps[..n], repo, sizes), Exec(d0, steps, repo, sizes);
    forall b | b in PlanOf(d0) && RowsFor(d'.snapshots, b) != []
      ensures HeadOf(RowsFor(d'.snapshots, b)) == FirstHead(d0, steps, repo, sizes, b)
    {
      if RowsFor(d.snapshots, b) != [] {
        assert RowsFor(d'.snapshots, b)[0] == RowsFor(d.snapshots, b)[0];
      }
    }
  }

  /** Logs that fit their windows at the end fitted them all along. */
  lemma {:induction false} FittingRunIsSighted(d0: Disk, steps: seq<Step>, repo: Repo, sizes: Sizes)
    requires FitsWindows(Exec(d0, steps, repo, sizes), sizes)
    ensures Sighted(d0, steps, repo, sizes)
  {
    hide FitsWindows, Apply, Recoverable;
    if steps != [] {
      var n := |steps| - 1;
      var d := Exec(d0, steps[..n], repo, sizes);
      StepGrows(d, steps[n], repo, sizes);
      PrefixFits(d, Exec(d0, steps, repo, sizes), sizes);
      FittingRunIsSighted(d0, steps[..n], repo, sizes);
      if steps[n].Run? { FittingIsRecoverable(d, sizes, steps[n].batch); }
      SightedSnoc(d0, steps, repo, sizes);
    }
  }

  lemma SightedSnoc(d0: Disk, steps: seq<Step>, repo: Repo, sizes: Sizes)
    requires steps != [] && Sighted(d0, steps[..|steps| - 1], repo, sizes)
    requires InSight(Exec(d0, steps[..|steps| - 1], repo, sizes), steps[|steps| - 1], sizes)
    ensures Sighted(d0, steps, repo, sizes)
  {
    hide Exec, InSight;
    var n := |steps| - 1;
    forall i | 0 <= i < |steps| ensures SightedAt(d0, steps, repo, sizes, i) {
      if i < n {
        assert SightedAt(d0, steps[..n], repo, sizes, i);
        assert steps[..n][..i] == steps[..i];
      }
    }
  }

  /** A command on a batch that is untouched or whose records are the last of their logs. */
  ghost predicate Orderly(disk: Disk, step: Step) {
    step.Run? ==> Resumable(disk, step.batch)
  }

  ghost predicate OrderlyAt(d0: Disk, steps: seq<Step>, repo: Repo, sizes: Sizes, i: nat)
    requires i < |steps|
  {
    Orderly(Exec(d0, steps[..i], repo, sizes), steps[i])
  }

  /**
   A run that finishes what it interrupted before going on never needs the whole logs in the windows: each
   command finds its batch untouched or at the end of the logs, whatever they hold before.
   */
  lemma {:induction false} OrderlyRunIsSighted(d0: Disk, steps: seq<Step>, repo: Repo, sizes: Sizes)
    requires Untouched(d0) && RunOk(d0, steps, repo)
    requires forall i :: 0 <= i < |steps| ==> OrderlyAt(d0, steps, repo, sizes, i)
    requires forall b :: b in PlanOf(d0) ==> sizes.event(EventOf(b)) <= JsonlTail.MAX_JSONL_LINE_BYTES
    ensures Sighted(d0, steps, repo, sizes)
  {
    hide WellFormed, BatchFiles, UniformOids, RowsFor, EventsFor, Recoverable, Resumable, Exec, Inv, StepOk, EventOf;
    if steps != [] {
      var n := |steps| - 1;
      var d, step := Exec(d0, steps[..n], repo, sizes), steps[n];
      forall i | 0 <= i < n ensures OrderlyAt(d0, steps[..n], repo, sizes, i) {
        assert OrderlyAt(d0, steps, repo, sizes, i);
        assert steps[..n][..i] == steps[..i];
      }
      OrderlyRunIsSighted(d0, steps[..n], repo, sizes);
      EveryRun(d0, steps[..n], repo, sizes);
      assert OrderlyAt(d0, steps, repo, sizes, n);
      if step.Run? && step.batch in PlanOf(d) {
        InvGives(d, repo, sizes, step.batch);
        ResumableIsRecoverable(d, repo, sizes, step.batch, PlanOf(d)[step.batch]);
      }
      SightedSnoc(d0, steps, repo, sizes);
    }
  }

  lemma InvGives(d: Disk, repo: Repo, sizes: Sizes, b: int)
    requires Inv(d, repo, sizes) && b in PlanOf(d)
    ensures InvAt(d, repo, sizes, b, PlanOf(d)[b])
  {
    hide InvAt, BatchFiles, WellFormed;
  }

  // ---- The atomic specification ----

  /** A batch with the commit it was audited at. */
  datatype Commit = Commit(batch: int, head: string)

  /** The atomic step: all rows, one event and the mark, at once. */
  function AtomicStep(disk: Disk, c: Commit, repo: Repo): Disk {
    var files := if c.batch in PlanOf(disk) then PlanOf(disk)[c.batch] else [];
    Disk(disk.snapshots + Rows(c.batch, files, c.head, repo), disk.ledger + [EventOf(c.batch)],
         disk.recon.(covered := disk.recon.covered + [c.batch]))
  }

  function AtomicRun(disk: Disk, commits: seq<Commit>, repo: Repo): Disk {
    if commits == [] then disk
    else AtomicStep(AtomicRun(disk, commits[..|commits| - 1], repo), commits[|commits| - 1], repo)
  }

  function Batches(commits: seq<Commit>): seq<int> {
    seq(|commits|, i requires 0 <= i < |commits| => commits[i].batch)
  }

  /** The commits a run made: batches in the order of first success, each at the HEAD of its first durable row. */
  ghost function Commits(disk: Disk, steps: seq<Step>, repo: Repo, sizes: Sizes): seq<Commit> {
    CommitsOf(disk, steps, repo, sizes, DoneOrder(disk, steps, repo, sizes))
  }

  ghost function CommitsOf(disk: Disk, steps: seq<Step>, repo: Repo, sizes: Sizes, order: seq<int>): seq<Commit> {
    seq(|order|, i requires 0 <= i < |order| => Commit(order[i], FirstHead(disk, steps, repo, sizes, order[i])))
  }

  /** What one batch looks like after an atomic run. */
  ghost predicate AtomicView(d: Disk, d0: Disk, commits: seq<Commit>, repo: Repo) {
    && PlanOf(d) == PlanOf(d0) && d.recon == d0.recon.(covered := Batches(commits))
    && (forall b :: b in PlanOf(d0) && b !in Batches(commits) ==>
          RowsFor(d.snapshots, b) == [] && EventsFor(d.ledger, b) == [])
    && (forall i :: 0 <= i < |commits| && commits[i].batch in PlanOf(d0) ==>
          RowsFor(d.snapshots, commits[i].batch)
            == Rows(commits[i].batch, PlanOf(d0)[commits[i].batch], commits[i].head, repo)
          && EventsFor(d.ledger, commits[i].batch) == [EventOf(commits[i].batch)])
  }

  lemma BatchesSnoc(commits: seq<Commit>)
    requires commits != []
    ensures Batches(commits) == Batches(commits[..|commits| - 1]) + [commits[|commits| - 1].batch]
    ensures Distinct(Batches(commits)) ==> Distinct(Batches(commits[..|commits| - 1]))
    ensures forall i :: 0 <= i < |commits| ==> commits[i].batch in Batches(commits)
    ensures Distinct(Batches(commits)) ==> forall i :: 0 <= i < |commits| - 1 ==>
              commits[i].batch != commits[|commits| - 1].batch
    ensures Distinct(Batches(commits)) ==> commits[|commits| - 1].batch !in Batches(commits[..|commits| - 1])
  {
    var bs, front := Batches(commits), Batches(commits[..|commits| - 1]);
    forall i | 0 <= i < |commits| ensures commits[i].batch in bs { assert bs[i] == commits[i].batch; }
    if Distinct(bs) {
      forall i, j | 0 <= i < j < |front| ensures front[i] != front[j] { assert bs[i] == front[i] && bs[j] == front[j]; }
      forall i | 0 <= i < |commits| - 1 ensures commits[i].batch != commits[|commits| - 1].batch {
        assert bs[i] == commits[i].batch && bs[|commits| - 1] == commits[|commits| - 1].batch;
      }
    }
  }

  lemma {:induction false} AtomicRunIs(d0: Disk, commits: seq<Commit>, repo: Repo)
    requires Untouched(d0) && Distinct(Batches(commits))
    requires forall i :: 0 <= i < |commits| ==> commits[i].batch in PlanOf(d0) && commits[i].batch >= 1
    ensures AtomicView(AtomicRun(d0, commits, repo), d0, commits, repo)
  {
    hide WellFormed, BatchFiles, RowsFor, EventsFor;
    if commits != [] {
      var n := |commits| - 1;
      hide Batches;
      BatchesSnoc(commits);
      AtomicRunIs(d0, commits[..n], repo);
      AtomicSnoc(AtomicRun(d0, commits[..n], repo), d0, commits, repo);
    }
  }

  lemma AtomicSnoc(d: Disk, d0: Disk, commits: seq<Commit>, repo: Repo)
    requires commits != [] && Distinct(Batches(commits))
    requires commits[|commits| - 1].batch in PlanOf(d0) && commits[|commits| - 1].batch >= 1
    requires AtomicView(d, d0, commits[..|commits| - 1], repo)
    ensures AtomicView(AtomicStep(d, commits[|commits| - 1], repo), d0, commits, repo)
  {
    hide WellFormed, BatchFiles, RowsFor, EventsFor, Batches, Rows, EventOf;
    var n := |commits| - 1;
    var c, front := commits[n], commits[..n];
    BatchesSnoc(commits);
    var rows := Rows(c.batch, PlanOf(d0)[c.batch], c.head, repo);
    RowsAllOf(c.batch, PlanOf(d0)[c.batch], c.head, repo);
    forall b ensures RowsFor(d.snapshots + rows, b) == RowsFor(d.snapshots, b) + if b == c.batch then rows else []
      ensures EventsFor(d.ledger + [EventOf(c.batch)], b) == EventsFor(d.ledger, b) + if b == c.batch then [EventOf(b)]
                else []
    {
      RowsForAppend(d.snapshots, rows, b);
      RowsForOneBatch(rows, c.batch, b);
      EventsForAppend(d.ledger, [EventOf(c.batch)], b);
      EventsForOne(c.batch, b);
    }
    forall i | 0 <= i < n ensures commits[i] == front[i] {}
  }

  // ---- Main results ----

  /** The disk agrees with the atomic run on every covered batch, and is on its way to it on every other. */
  ghost predicate Refines(d: Disk, spec: Disk, d0: Disk, steps: seq<Step>, repo: Repo, sizes: Sizes) {
    && d.recon == spec.recon
    && (forall b :: b in PlanOf(d0) && b in d.recon.covered ==>
          RowsFor(d.snapshots, b) == RowsFor(spec.snapshots, b) && EventsFor(d.ledger, b) == EventsFor(spec.ledger, b)
          && |RowsFor(d.snapshots, b)| == |PlanOf(d0)[b]| && |EventsFor(d.ledger, b)| == 1)
    && (forall b :: b in PlanOf(d0) && b !in d.recon.covered ==>
          RowsFor(spec.snapshots, b) == [] && EventsFor(spec.ledger, b) == []
          && RowsFor(d.snapshots, b) <= Rows(b, PlanOf(d0)[b], FirstHead(d0, steps, repo, sizes, b), repo)
          && (EventsFor(d.ledger, b) != [] ==> |RowsFor(d.snapshots, b)| == |PlanOf(d0)[b]|))
  }

  /**
   Crash-and-retry refines the atomic checkpoint: after any run of commands, each stopped after any durable
   write, the covered list and the rows and events of every covered batch are those of the atomic run that
   commits the batches in order of first success, each at the HEAD of its first durable row; a batch that has
   not succeeded has a prefix of the rows it would have, and its event only once those rows are all there.
   */
  lemma {:induction false} CrashRetryRefinesAtomic(d0: Disk, steps: seq<Step>, repo: Repo, sizes: Sizes)
    requires Untouched(d0) && RunOk(d0, steps, repo) && Sighted(d0, steps, repo, sizes)
    ensures Refines(Exec(d0, steps, repo, sizes), AtomicRun(d0, Commits(d0, steps, repo, sizes), repo), d0, steps,
                    repo, sizes)
  {
    hide WellFormed, BatchFiles, UniformOids, RowsFor, EventsFor, Sighted, Exec, DoneOrder, FirstHead, StepOk,
      AtomicRun, Rows, Batches, SnapshotsFit, AllExact, Resolves;
    EveryRun(d0, steps, repo, sizes);
    var d, commits := Exec(d0, steps, repo, sizes), Commits(d0, steps, repo, sizes);
    CommitsAreCovered(d0, steps, repo, sizes);
    AtomicRunIs(d0, commits, repo);
    forall b | b in PlanOf(d0)
      ensures RowsFor(d.snapshots, b) <= Rows(b, PlanOf(d0)[b], FirstHead(d0, steps, repo, sizes, b), repo)
      ensures EventsFor(d.ledger, b) != [] ==> |RowsFor(d.snapshots, b)| == |PlanOf(d0)[b]|
      ensures b in d.recon.covered ==>
                EventsFor(d.ledger, b) == [EventOf(b)]
                && RowsFor(d.snapshots, b) == Rows(b, PlanOf(d0)[b], FirstHead(d0, steps, repo, sizes, b), repo)
    {
      BatchSeen(d, repo, sizes, b, PlanOf(d0)[b], FirstHead(d0, steps, repo, sizes, b));
    }
    forall b | b in d.recon.covered
      ensures exists i :: 0 <= i < |commits| && commits[i] == Commit(b, FirstHead(d0, steps, repo, sizes, b))
    {
      var i :| 0 <= i < |d.recon.covered| && d.recon.covered[i] == b;
      assert commits[i] == Commit(b, FirstHead(d0, steps, repo, sizes, b));
    }
  }

  lemma BatchSeen(d: Disk, repo: Repo, sizes: Sizes, b: int, files: seq<string>, h: string)
    requires Inv(d, repo, sizes) && Planned(d, b, files)
    requires RowsFor(d.snapshots, b) != [] ==> HeadOf(RowsFor(d.snapshots, b)) == h
    ensures RowsFor(d.snapshots, b) <= Rows(b, files, h, repo)
    ensures EventsFor(d.ledger, b) != [] ==> |RowsFor(d.snapshots, b)| == |files|
    ensures b in d.recon.covered ==>
              EventsFor(d.ledger, b) == [EventOf(b)] && RowsFor(d.snapshots, b) == Rows(b, files, h, repo)
  {
    hide WellFormed, BatchFiles, UniformOids, RowsFor, EventsFor, SnapshotsFit, AllExact, Resolves;
    assert InvAt(d, repo, sizes, b, files);
    SelectedIs(d, repo, b);
  }

  lemma {:induction false} CommitsAreCovered(d0: Disk, steps: seq<Step>, repo: Repo, sizes: Sizes)
    requires Reached(d0, steps, repo, sizes)
    ensures var commits := Commits(d0, steps, repo, sizes);
            Batches(commits) == Exec(d0, steps, repo, sizes).recon.covered
            && Distinct(Batches(commits))
            && forall i :: 0 <= i < |commits| ==> commits[i].batch in PlanOf(d0) && commits[i].batch >= 1
  {
    hide BatchFiles, UniformOids, RowsFor, EventsFor, Exec, DoneOrder, FirstHead, AllInv, BatchesOk;
    var d, commits := Exec(d0, steps, repo, sizes), Commits(d0, steps, repo, sizes);
    AcceptedRecon(d.recon);
    assert Batches(commits) == d.recon.covered;
    forall i | 0 <= i < |commits| ensures commits[i].batch in PlanOf(d0) && commits[i].batch >= 1 {
      assert d.recon.covered[i] == commits[i].batch;
      SelectedIs(d, repo, commits[i].batch);
    }
  }

  /**
   Progress: in every reachable state an attempt with room for its writes succeeds exactly when a row is
   already durable (whatever HEAD and the work tree are now) or today's HEAD can start the batch.
   */
  lemma {:induction false} RetryCompletes(disk: Disk, repo: Repo, ws: Workspace, sizes: Sizes, b: int,
                                          files: seq<string>, budget: nat)
    requires Inv(disk, repo, sizes) && Recoverable(disk, sizes, b) && WorkspaceOk(repo, ws) && Planned(disk, b, files)
    requires EventWritable(disk, sizes, b) && budget >= |files| + 2
    ensures var (d', outcome) := Attempt(disk, repo, ws, sizes, b, budget);
            && (outcome == Done <==> RowsFor(disk.snapshots, b) != [] || Ready(repo, ws, sizes, b, files))
            && (outcome == Done ==>
                  b in d'.recon.covered && EventsFor(d'.ledger, b) == [EventOf(b)]
                      && |RowsFor(d'.snapshots, b)| == |files|)
            && (outcome != Done ==> outcome == Refused && d' == disk)
  {
    hide WellFormed, BatchFiles, UniformOids, RowsFor, EventsFor, Recoverable, Ready, AllInv, CarryOut, Decide,
      Elsewhere, Rows, StartedAt, EventOf;
    var h := AttemptFinishes(disk, repo, ws, sizes, b, files);
    var decision := Decide(disk, repo, ws, sizes, b);
    if decision.Some? {
      CarriedOut(disk, decision.value, b, sizes, budget, Rows(b, files, h, repo), |RowsFor(disk.snapshots, b)|);
      assert InvAt(disk, repo, sizes, b, files) by { AllInvAt(disk, PlanOf(disk), repo, sizes, b); }
    }
  }

  /** A batch whose records end the logs is finished by the next attempt, whatever precedes them. */
  lemma {:induction false} RetryAtTheEnd(disk: Disk, repo: Repo, ws: Workspace, sizes: Sizes, b: int,
                                         files: seq<string>, budget: nat)
    requires Inv(disk, repo, sizes) && WorkspaceOk(repo, ws) && Planned(disk, b, files)
    requires Resumable(disk, b) && RowsFor(disk.snapshots, b) != []
    requires sizes.event(EventOf(b)) <= JsonlTail.MAX_JSONL_LINE_BYTES && budget >= |files| + 2
    ensures var (d', outcome) := Attempt(disk, repo, ws, sizes, b, budget);
            && outcome == Done && b in d'.recon.covered
            && EventsFor(d'.ledger, b) == [EventOf(b)] && |RowsFor(d'.snapshots, b)| == |files|
  {
    hide Resumable, Recoverable, InvAt, Attempt, EventOf, RowsFor, EventsFor, WellFormed, BatchFiles, UniformOids;
    ResumableIsRecoverable(disk, repo, sizes, b, files);
    RetryCompletes(disk, repo, ws, sizes, b, files, budget);
  }

  lemma AllInvAt(disk: Disk, plan: Plan, repo: Repo, sizes: Sizes, b: int)
    requires AllInv(disk, plan, repo, sizes) && b in plan
    ensures InvAt(disk, repo, sizes, b, plan[b])
  {
    hide InvAt;
  }

  /** An uninterrupted command on an untouched batch is the atomic step. */
  lemma {:induction false} UninterruptedIsAtomic(disk: Disk, repo: Repo, ws: Workspace, sizes: Sizes, b: int,
                                                 files: seq<string>, budget: nat)
    requires Inv(disk, repo, sizes) && Recoverable(disk, sizes, b) && WorkspaceOk(repo, ws) && Planned(disk, b, files)
    requires RowsFor(disk.snapshots, b) == [] && Ready(repo, ws, sizes, b, files)
    requires sizes.event(EventOf(b)) <= JsonlTail.MAX_JSONL_LINE_BYTES && budget >= |files| + 2
    ensures Attempt(disk, repo, ws, sizes, b, budget) == (AtomicStep(disk, Commit(b, ws.head.value), repo), Done)
  {
    hide WellFormed, BatchFiles, UniformOids, RowsFor, EventsFor, Recoverable, Ready, Decide, EventOf, InvAt;
    assert ws.head.Some? by { assert Ready(repo, ws, sizes, b, files); ReadyHasHead(repo, ws, sizes, b, files); }
    SelectedIs(disk, repo, b);
    DecideFresh(disk, repo, ws, sizes, b, files);
    RowsAllOf(b, files, ws.head.value, repo);
  }

  lemma ReadyHasHead(repo: Repo, ws: Workspace, sizes: Sizes, b: int, files: seq<string>)
    requires Ready(repo, ws, sizes, b, files)
    ensures ws.head.Some?
  {
  }

  /** While the windows hold the covered batches, verification accepts and reports exactly those. */
  lemma ReachableStatesVerify(d: Disk, repo: Repo, sizes: Sizes)
    requires Inv(d, repo, sizes) && forall b :: b in d.recon.covered ==> Recoverable(d, sizes, b)
    ensures CoverageHolds(d.recon, SeenEvents(d, sizes), SeenSnapshots(d, sizes), repo)
    ensures Elements(CoveredBatches(d.recon.covered, SeenEvents(d, sizes))) == Elements(d.recon.covered)
  {
    hide WellFormed, BatchFiles, UniformOids, RowsFor, EventsFor, BatchCertified, CoveredBatches, EventBatches,
      BatchInv, DisjointFiles, Recoverable, SeenEvents, SeenSnapshots;
    var covered := d.recon.covered;
    AcceptedRecon(d.recon);
    CoveredMembers(covered, SeenEvents(d, sizes));
    forall b | b in covered
      ensures BatchCertified(SeenSnapshots(d, sizes), PlanOf(d), repo, b) && b in EventBatches(SeenEvents(d, sizes))
    {
      assert InvAt(d, repo, sizes, b, PlanOf(d)[b]);
      CoveredIsCertified(d, repo, sizes, b, PlanOf(d)[b]);
    }
    forall b ensures b in CoveredBatches(covered, SeenEvents(d, sizes)) <==> b in covered {}
  }

  lemma {:induction false} CoveredIsCertified(d: Disk, repo: Repo, sizes: Sizes, b: int, files: seq<string>)
    requires Inv(d, repo, sizes) && Recoverable(d, sizes, b) && Planned(d, b, files) && b in d.recon.covered
    requires InvAt(d, repo, sizes, b, files)
    ensures BatchCertified(SeenSnapshots(d, sizes), PlanOf(d), repo, b) && b in EventBatches(SeenEvents(d, sizes))
  {
    hide WellFormed, BatchFiles, UniformOids, RowsFor, EventsFor, RowsInSight, SnapshotsFit, AllInv, Collect,
      EventBatches, SeenEvents, SeenSnapshots, EventOf;
    var h := HeadOf(RowsFor(d.snapshots, b));
    SelectedIs(d, repo, b);
    EvidenceSeen(d, repo, sizes, b, files);
    BatchSeen(d, repo, sizes, b, files, h);
    assert files[..|files|] == files;
    assert StartedAt(RowsFor(d.snapshots, b), repo, sizes, b, files, h);
  }
}
