/**
 The durable closeout state machine (scripts/_terminal_lifecycle.py): a marker, a receipt and an absence
 record, each replaced atomically. A command may stop after any of its durable writes.
 */
module Lifecycle {
  import opened Wrappers

  /** The eight stages; the last two are terminal outcomes. */
  datatype Stage =
    | PendingFinalization | PendingCloseout | ReadyForCleanup | WorktreeRemoved | BranchRemoved | ReceiptPending
    | CompletedLanded | CompletedRecorded

  function Index(s: Stage): nat {
    match s
    case PendingFinalization => 0
    case PendingCloseout => 1
    case ReadyForCleanup => 2
    case WorktreeRemoved => 3
    case BranchRemoved => 4
    case ReceiptPending => 5
    case CompletedLanded => 6
    case CompletedRecorded => 7
  }

  predicate Terminal(s: Stage) {
    s.CompletedLanded? || s.CompletedRecorded?
  }

  /** The stage a nonterminal marker may advance to; only the receipt leads out of `ReceiptPending`. */
  function Next(s: Stage): Option<Stage> {
    match s
    case PendingFinalization => Some(PendingCloseout)
    case PendingCloseout => Some(ReadyForCleanup)
    case ReadyForCleanup => Some(WorktreeRemoved)
    case WorktreeRemoved => Some(BranchRemoved)
    case BranchRemoved => Some(ReceiptPending)
    case _ => None
  }

  /** The identity of a run: its directory, its worktree path, if any, and the other identity values. */
  datatype Identity = Identity(runDir: string, worktree: string, rest: seq<string>)

  datatype Marker = Marker(stage: Stage, identity: Identity)
  datatype Receipt = Receipt(outcome: Stage, identity: Identity)

  /** The three files; an absence record always says that branch and worktree are gone. */
  datatype Files = Files(marker: Option<Marker>, receipt: Option<Receipt>, absence: Option<Identity>)

  /** The run directory the commands work in and how recorded paths resolve. */
  datatype Place = Place(dir: string, resolve: string -> Option<string>)

  /** `_state_for_run`. */
  predicate Owns(place: Place, id: Identity) {
    place.resolve(id.runDir) == Some(place.dir)
  }

  datatype Outcome = Done | Refused | Crashed

  /** `present` says whether the worktree path exists when the command runs. */
  datatype Command =
    | Initialize(stage: Stage)
    | Advance(stage: Stage)
    | WriteReceipt(outcome: Stage)
    | RecordAbsence(present: bool)
    | Recover(worktreeAbsent: bool, branchAbsent: bool)

  // ---- The commands on values ----

  /** `_marker`: the marker, if it exists and is this run's own. */
  predicate OwnMarker(f: Files, id: Identity) {
    f.marker.Some? && f.marker.value.identity == id
  }

  function InitializeOn(f: Files, place: Place, id: Identity, stage: Stage, budget: nat): (Files, Outcome) {
    if !Owns(place, id) || Terminal(stage) then (f, Refused)
    else if f.marker.Some? then
      (f, if OwnMarker(f, id) && Index(stage) <= Index(f.marker.value.stage) then Done else Refused)
    else if budget == 0 then (f, Crashed)
    else (f.(marker := Some(Marker(stage, id))), Done)
  }

  function AdvanceOn(f: Files, place: Place, id: Identity, stage: Stage, budget: nat): (Files, Outcome) {
    if !Owns(place, id) || !OwnMarker(f, id) then (f, Refused)
    else if f.marker.value.stage == stage then (f, Done)
    else if Terminal(f.marker.value.stage) || Terminal(stage) || Next(f.marker.value.stage) != Some(stage)
        then (f, Refused)
    else if budget == 0 then (f, Crashed)
    else (f.(marker := Some(Marker(stage, id))), Done)
  }

  function WriteReceiptOn(f: Files, place: Place, id: Identity, outcome: Stage, budget: nat): (Files, Outcome) {
    if !Owns(place, id) || !OwnMarker(f, id) || f.marker.value.stage != ReceiptPending || !Terminal(outcome)
        then (f, Refused)
    else if f.receipt.Some? then
      if f.receipt.value != Receipt(outcome, id) then (f, Refused)
      else if budget == 0 then (f, Crashed)
      else (f.(marker := Some(Marker(outcome, id))), Done)
    else if budget == 0 then (f, Crashed)
    else if budget == 1 then (f.(receipt := Some(Receipt(outcome, id))), Crashed)
    else (Files(Some(Marker(outcome, id)), Some(Receipt(outcome, id)), f.absence), Done)
  }

  function RecordAbsenceOn(f: Files, place: Place, id: Identity, present: bool, budget: nat): (Files, Outcome) {
    if !Owns(place, id) || (id.worktree != "" && present) then (f, Refused)
    else if f.absence.Some? then (f, if f.absence.value == id then Done else Refused)
    else if budget == 0 then (f, Crashed)
    else (f.(absence := Some(id)), Done)
  }

  predicate Recoverable(s: Stage) {
    Index(s) <= 3
  }

  function RecoverLoop(f: Files, place: Place, id: Identity, budget: nat): (Files, Outcome)
    requires OwnMarker(f, id) && Owns(place, id)
    decreases 8 - Index(f.marker.value.stage)
  {
    if !Recoverable(f.marker.value.stage) then (f, Done)
    else
      var next := Next(f.marker.value.stage).value;
      var (f', outcome) := AdvanceOn(f, place, id, next, budget);
      if outcome != Done || budget == 0 then (f', outcome) else RecoverLoop(f', place, id, budget - 1)
  }

  function RecoverOn(f: Files, place: Place, id: Identity, worktreeAbsent: bool, branchAbsent: bool,
                     budget: nat): (Files, Outcome) {
    if !worktreeAbsent || !branchAbsent || !Owns(place, id) || !OwnMarker(f, id) then (f, Refused)
    else if Terminal(f.marker.value.stage) then (f, Done)
    else RecoverLoop(f, place, id, budget)
  }

  function Do(f: Files, place: Place, id: Identity, c: Command, budget: nat): (Files, Outcome) {
    match c
    case Initialize(stage) => InitializeOn(f, place, id, stage, budget)
    case Advance(stage) => AdvanceOn(f, place, id, stage, budget)
    case WriteReceipt(outcome) => WriteReceiptOn(f, place, id, outcome, budget)
    case RecordAbsence(present) => RecordAbsenceOn(f, place, id, present, budget)
    case Recover(worktreeAbsent, branchAbsent) => RecoverOn(f, place, id, worktreeAbsent, branchAbsent, budget)
  }

  /** `reconcile_closeout`. */
  predicate Reconciles(f: Files, place: Place, id: Identity, present: bool) {
    && Owns(place, id) && OwnMarker(f, id)
    && if Terminal(f.marker.value.stage)
       then f.receipt == Some(Receipt(f.marker.value.stage, id)) && f.absence == Some(id)
           && !(id.worktree != "" && present)
       else f.receipt.None?
  }

  datatype Status = Invalid | Pending(stage: Stage) | VerifiedCompleted(outcome: Stage)

  /** `read_run_status`; `blocked` says whether the coordinator left a closeout-blocked note. */
  function StatusOf(f: Files, place: Place, id: Identity, present: bool, blocked: bool): Status {
    if !Reconciles(f, place, id, present) then Invalid
    else if !Terminal(f.marker.value.stage) then Pending(f.marker.value.stage)
    else if blocked then Pending(ReceiptPending)
    else VerifiedCompleted(f.marker.value.stage)
  }

  // ---- The run directory ----

  class RunFiles {
    const place: Place
    var marker: Option<Marker>
    var receipt: Option<Receipt>
    var absence: Option<Identity>

    function Contents(): Files
      reads this
    {
      Files(marker, receipt, absence)
    }

    constructor (place: Place)
      ensures this.place == place && Contents() == Files(None, None, None)
    {
      this.place := place;
      marker, receipt, absence := None, None, None;
    }

    method InitializeCloseout(id: Identity, stage: Stage, budget: nat) returns (outcome: Outcome)
      modifies this`marker
      ensures (Contents(), outcome) == InitializeOn(old(Contents()), place, id, stage, budget)
    {
      if !Owns(place, id) || Terminal(stage) {
        return Refused;
      }
      if marker.Some? {
        if marker.value.identity != id || Index(marker.value.stage) < Index(stage) {
          return Refused;
        }
        return Done;
      }
      if budget == 0 {
        return Crashed;
      }
      marker := Some(Marker(stage, id));
      outcome := Done;
    }

    method AdvanceCloseout(id: Identity, stage: Stage, budget: nat) returns (outcome: Outcome)
      modifies this`marker
      ensures (Contents(), outcome) == AdvanceOn(old(Contents()), place, id, stage, budget)
    {
      if !Owns(place, id) || marker.None? || marker.value.identity != id {
        return Refused;
      }
      var current := marker.value.stage;
      if current == stage {
        return Done;
      }
      if Terminal(current) || Terminal(stage) || Next(current) != Some(stage) {
        return Refused;
      }
      if budget == 0 {
        return Crashed;
      }
      marker := Some(Marker(stage, id));
      outcome := Done;
    }

    method WriteTerminalReceipt(id: Identity, terminal: Stage, budget: nat) returns (outcome: Outcome)
      modifies this`marker, this`receipt
      ensures (Contents(), outcome) == WriteReceiptOn(old(Contents()), place, id, terminal, budget)
    {
      if !Owns(place, id) || marker.None? || marker.value.identity != id {
        return Refused;
      }
      if marker.value.stage != ReceiptPending || !Terminal(terminal) {
        return Refused;
      }
      var left := budget;
      if receipt.Some? {
        if receipt.value != Receipt(terminal, id) {
          return Refused;
        }
      } else {
        if left == 0 {
          return Crashed;
        }
        receipt := Some(Receipt(terminal, id));
        left := left - 1;
      }
      if left == 0 {
        return Crashed;
      }
      marker := Some(Marker(terminal, id));
      outcome := Done;
    }

    method RecordAbsenceObservation(id: Identity, present: bool, budget: nat) returns (outcome: Outcome)
      modifies this`absence
      ensures (Contents(), outcome) == RecordAbsenceOn(old(Contents()), place, id, present, budget)
    {
      if !Owns(place, id) || (id.worktree != "" && present) {
        return Refused;
      }
      if absence.Some? {
        if absence.value != id {
          return Refused;
        }
        return Done;
      }
      if budget == 0 {
        return Crashed;
      }
      absence := Some(id);
      outcome := Done;
    }

    method RecoverAbsentResources(id: Identity, worktreeAbsent: bool, branchAbsent: bool, budget: nat)
        returns (outcome: Outcome)
      modifies this`marker
      ensures (Contents(), outcome) == RecoverOn(old(Contents()), place, id, worktreeAbsent, branchAbsent, budget)
    {
      if !worktreeAbsent || !branchAbsent || !Owns(place, id) || marker.None? || marker.value.identity != id {
        return Refused;
      }
      if Terminal(marker.value.stage) {
        return Done;
      }
      var left := budget;
      while Recoverable(marker.value.stage)
        invariant OwnMarker(Contents(), id) && receipt == old(receipt) && absence == old(absence)
        invariant RecoverLoop(Contents(), place, id, left) == RecoverLoop(old(Contents()), place, id, budget)
        decreases 8 - Index(marker.value.stage)
      {
        var step := AdvanceCloseout(id, Next(marker.value.stage).value, left);
        if step != Done {
          return step;
        }
        left := left - 1;
      }
      outcome := Done;
    }

    method ReadRunStatus(id: Identity, present: bool, blocked: bool) returns (status: Status)
      ensures status == StatusOf(Contents(), place, id, present, blocked)
    {
      if !Owns(place, id) || marker.None? || marker.value.identity != id {
        return Invalid;
      }
      var stage := marker.value.stage;
      if Terminal(stage) {
        if receipt.None? || absence.None? {
          return Invalid;
        }
        if (id.worktree != "" && present) || receipt.value.outcome != stage || receipt.value.identity != id
            || absence.value != id {
          return Invalid;
        }
        if blocked {
          return Pending(ReceiptPending);
        }
        return VerifiedCompleted(stage);
      }
      if receipt.Some? {
        return Invalid;
      }
      status := Pending(stage);
    }
  }

  // ---- One durable write at a time ----

  /** What a single durable write may change. */
  ghost predicate LegalWrite(f: Files, f': Files, place: Place) {
    || (exists stage, id :: Created(f, f', place, stage, id))
    || Stepped(f, f')
    || (exists outcome :: Receipted(f, f', outcome))
    || Finished(f, f')
    || (exists id :: Observed(f, f', place, id))
  }

  predicate Created(f: Files, f': Files, place: Place, stage: Stage, id: Identity) {
    f.marker.None? && !Terminal(stage) && Owns(place, id) && f' == f.(marker := Some(Marker(stage, id)))
  }

  /** A marker that moves one nonterminal stage on and keeps its identity. */
  predicate Stepped(f: Files, f': Files) {
    && f.marker.Some? && Next(f.marker.value.stage).Some?
    && f' == f.(marker := Some(Marker(Next(f.marker.value.stage).value, f.marker.value.identity)))
  }

  predicate Receipted(f: Files, f': Files, outcome: Stage) {
    && f.marker.Some? && f.marker.value.stage == ReceiptPending && f.receipt.None? && Terminal(outcome)
    && f' == f.(receipt := Some(Receipt(outcome, f.marker.value.identity)))
  }

  /** A marker that takes the outcome of the receipt already written for it. */
  predicate Finished(f: Files, f': Files) {
    && f.marker.Some? && f.marker.value.stage == ReceiptPending
    && f.receipt.Some? && f.receipt.value.identity == f.marker.value.identity && Terminal(f.receipt.value.outcome)
    && f' == f.(marker := Some(Marker(f.receipt.value.outcome, f.marker.value.identity)))
  }

  predicate Observed(f: Files, f': Files, place: Place, id: Identity) {
    f.absence.None? && Owns(place, id) && f' == f.(absence := Some(id))
  }

  ghost predicate Writes(chain: seq<Files>, f: Files, f': Files, place: Place) {
    && chain != [] && chain[0] == f && chain[|chain| - 1] == f'
    && forall i :: 0 <= i < |chain| - 1 ==> LegalWrite(chain[i], chain[i + 1], place)
  }

  lemma {:induction false} RecoverWrites(f: Files, place: Place, id: Identity, budget: nat) returns (chain: seq<Files>)
    requires OwnMarker(f, id) && Owns(place, id)
    ensures Writes(chain, f, RecoverLoop(f, place, id, budget).0, place) && |chain| <= budget + 1
    decreases 8 - Index(f.marker.value.stage)
  {
    if !Recoverable(f.marker.value.stage) || budget == 0 {
      chain := [f];
    } else {
      var f' := AdvanceOn(f, place, id, Next(f.marker.value.stage).value, budget).0;
      assert Stepped(f, f');
      var rest := RecoverWrites(f', place, id, budget - 1);
      hide RecoverLoop, AdvanceOn, LegalWrite;
      assert LegalWrite(f, f', place);
      chain := [f] + rest;
    }
  }

  /** Every command, wherever it stops, is a sequence of legal writes, no more than its budget. */
  lemma CommandsWriteLegally(f: Files, place: Place, id: Identity, c: Command, budget: nat) returns (chain: seq<Files>)
    ensures Writes(chain, f, Do(f, place, id, c, budget).0, place) && |chain| <= budget + 1
  {
    var f' := Do(f, place, id, c, budget).0;
    hide RecoverLoop;
    if f' == f {
      chain := [f];
    } else if c.Recover? {
      chain := RecoverWrites(f, place, id, budget);
    } else if c.WriteReceipt? && f.receipt.None? && budget >= 2 {
      var mid := f.(receipt := Some(Receipt(c.outcome, id)));
      assert Receipted(f, mid, c.outcome);
      assert Finished(mid, f');
      chain := [f, mid, f'];
    } else {
      SingleWrite(f, place, id, c, budget);
      hide LegalWrite;
      chain := [f, f'];
    }
  }

  lemma SingleWrite(f: Files, place: Place, id: Identity, c: Command, budget: nat)
    requires !c.Recover? && !(c.WriteReceipt? && f.receipt.None? && budget >= 2) && Do(f, place, id, c, budget).0 != f
    ensures LegalWrite(f, Do(f, place, id, c, budget).0, place)
  {
    var f' := Do(f, place, id, c, budget).0;
    match c
    case Initialize(stage) => assert Created(f, f', place, stage, id);
    case Advance(stage) => assert Stepped(f, f');
    case WriteReceipt(outcome) => assert Receipted(f, f', outcome) || Finished(f, f');
    case RecordAbsence(_) => assert Observed(f, f', place, id);
  }

  // ---- Safety ----

  /** The receipt agrees with the marker, and only runs of this directory left records. */
  ghost predicate Inv(f: Files, place: Place) {
    && (f.marker.Some? ==> Owns(place, f.marker.value.identity))
    && (f.absence.Some? ==> Owns(place, f.absence.value))
    && (f.receipt.Some? ==>
          && Terminal(f.receipt.value.outcome)
          && f.marker.Some? && f.marker.value.identity == f.receipt.value.identity
          && (f.marker.value.stage == ReceiptPending || f.marker.value.stage == f.receipt.value.outcome))
    && (f.marker.Some? && Terminal(f.marker.value.stage) ==>
          f.receipt == Some(Receipt(f.marker.value.stage, f.marker.value.identity)))
  }

  /** `f'` keeps everything `f` recorded, and its stage is no earlier; a terminal stage stays as it is. */
  ghost predicate Extends(f: Files, f': Files) {
    && (f.marker.Some? ==> f'.marker.Some? && f'.marker.value.identity == f.marker.value.identity
                           && Index(f.marker.value.stage) <= Index(f'.marker.value.stage)
                           && (Terminal(f.marker.value.stage) ==> f'.marker == f.marker))
    && (f.receipt.Some? ==> f'.receipt == f.receipt)
    && (f.absence.Some? ==> f'.absence == f.absence)
  }

  lemma WriteIsSafe(f: Files, f': Files, place: Place)
    requires Inv(f, place) && LegalWrite(f, f', place)
    ensures Inv(f', place) && Extends(f, f')
    ensures f.marker.Some? && f'.marker != f.marker ==>
              Index(f'.marker.value.stage) == Index(f.marker.value.stage) + 1
              || (f.marker.value.stage == ReceiptPending && Terminal(f'.marker.value.stage))
  {
  }

  lemma {:induction false} ChainIsSafe(chain: seq<Files>, f: Files, f': Files, place: Place)
    requires Inv(f, place) && Writes(chain, f, f', place)
    ensures Inv(f', place) && Extends(f, f')
    decreases |chain|
  {
    hide LegalWrite, Inv;
    if |chain| > 1 {
      WriteIsSafe(chain[0], chain[1], place);
      ChainIsSafe(chain[1..], chain[1], f', place);
    }
  }

  /** A command issued under some identity, stopping after `budget` writes. */
  datatype Issued = Issued(id: Identity, command: Command, budget: nat)

  function Exec(f: Files, place: Place, issued: seq<Issued>): Files
    decreases |issued|
  {
    if issued == [] then f
    else Exec(Do(f, place, issued[0].id, issued[0].command, issued[0].budget).0, place, issued[1..])
  }

  /**
   Safety over every run, crashes and foreign identities included: nothing recorded changes, the stage never
   goes back, and the receipt always agrees with the marker.
   */
  lemma {:induction false} EveryRunIsSafe(f: Files, place: Place, issued: seq<Issued>)
    requires Inv(f, place)
    ensures Inv(Exec(f, place, issued), place) && Extends(f, Exec(f, place, issued))
    decreases |issued|
  {
    hide Inv, Do;
    if issued != [] {
      var next := Do(f, place, issued[0].id, issued[0].command, issued[0].budget).0;
      var chain := CommandsWriteLegally(f, place, issued[0].id, issued[0].command, issued[0].budget);
      ChainIsSafe(chain, f, next, place);
      EveryRunIsSafe(next, place, issued[1..]);
    }
  }

  /** An outcome is recorded when the receipt names it or the marker carries it. */
  predicate Records(f: Files, outcome: Stage) {
    Terminal(outcome)
    && ((f.receipt.Some? && f.receipt.value.outcome == outcome) || (f.marker.Some? && f.marker.value.stage == outcome))
  }

  /** Outcome agreement: once one outcome is recorded, no later state of any run records the other. */
  lemma OutcomesNeverDisagree(place: Place, before: seq<Issued>, after: seq<Issued>, o: Stage, other: Stage)
    ensures var f := Exec(Files(None, None, None), place, before);
            Records(f, o) && Records(Exec(f, place, after), other) ==> o == other
  {
    var f := Exec(Files(None, None, None), place, before);
    hide Exec;
    EveryRunIsSafe(Files(None, None, None), place, before);
    EveryRunIsSafe(f, place, after);
  }

  /**
   Verified completion is reported exactly when marker, receipt, absence record and identity all agree and the
   worktree is gone.
   */
  lemma VerifiedMeansEverythingAgrees(f: Files, place: Place, id: Identity, present: bool, blocked: bool, o: Stage)
    requires Inv(f, place)
    ensures StatusOf(f, place, id, present, blocked) == VerifiedCompleted(o) <==>
              && Terminal(o) && f.marker == Some(Marker(o, id)) && f.receipt == Some(Receipt(o, id))
              && f.absence == Some(id) && !blocked && (id.worktree == "" || !present)
  {
  }

  /** Before completion the status is the marker's stage; a blocked completion shows as its last pending stage. */
  lemma PendingExactlyWhen(f: Files, place: Place, id: Identity, present: bool, blocked: bool, s: Stage)
    requires Inv(f, place)
    ensures StatusOf(f, place, id, present, blocked) == Pending(s) <==>
              || (!Terminal(s) && f.marker == Some(Marker(s, id)) && f.receipt.None?)
              || (s == ReceiptPending && blocked
                  && exists o :: StatusOf(f, place, id, present, false) == VerifiedCompleted(o))
  {
    var t := StatusOf(f, place, id, present, false);
    if t.VerifiedCompleted? { assert StatusOf(f, place, id, present, false) == VerifiedCompleted(t.outcome); }
  }

  // ---- What a command needs ----

  /** A state that names another directory is refused by every command and reported as invalid. */
  lemma ForeignDirectoryIsRefused(f: Files, place: Place, id: Identity, c: Command, budget: nat, present: bool,
                                  blocked: bool)
    requires place.resolve(id.runDir) != Some(place.dir)
    ensures Do(f, place, id, c, budget) == (f, Refused)
    ensures StatusOf(f, place, id, present, blocked) == Invalid
  {
  }

  /** What each command demands of the files and of what it was told. */
  predicate Admissible(f: Files, place: Place, id: Identity, c: Command) {
    && place.resolve(id.runDir) == Some(place.dir)
    && match c
       case Initialize(stage) =>
         Index(stage) < 6 && (f.marker.Some? ==> f.marker.value.identity == id
                                                 && Index(stage) <= Index(f.marker.value.stage))
       case Advance(stage) =>
         && f.marker.Some? && f.marker.value.identity == id
         && (f.marker.value.stage == stage || (Index(stage) < 6 && Index(stage) == Index(f.marker.value.stage) + 1))
       case WriteReceipt(outcome) =>
         && f.marker == Some(Marker(ReceiptPending, id)) && Index(outcome) >= 6
         && (f.receipt.Some? ==> f.receipt.value == Receipt(outcome, id))
       case RecordAbsence(present) =>
         (id.worktree == "" || !present) && (f.absence.Some? ==> f.absence.value == id)
       case Recover(worktreeAbsent, branchAbsent) =>
         worktreeAbsent && branchAbsent && f.marker.Some? && f.marker.value.identity == id
  }

  /** What a command that is done has recorded. */
  predicate Recorded(f: Files, id: Identity, c: Command) {
    match c
    case Initialize(stage) => OwnMarker(f, id) && Index(f.marker.value.stage) >= Index(stage)
    case Advance(stage) => f.marker == Some(Marker(stage, id))
    case WriteReceipt(outcome) => f.marker == Some(Marker(outcome, id)) && f.receipt == Some(Receipt(outcome, id))
    case RecordAbsence(_) => f.absence == Some(id)
    case Recover(_, _) => OwnMarker(f, id) && Index(f.marker.value.stage) >= 4
  }

  /** How many durable writes an admissible command makes. */
  function Needs(f: Files, c: Command): nat {
    match c
    case Initialize(_) => if f.marker.Some? then 0 else 1
    case Advance(stage) => if f.marker.Some? && f.marker.value.stage == stage then 0 else 1
    case WriteReceipt(_) => if f.receipt.Some? then 1 else 2
    case RecordAbsence(_) => if f.absence.Some? then 0 else 1
    case Recover(_, _) =>
      if f.marker.Some? && Index(f.marker.value.stage) < 4 then 4 - Index(f.marker.value.stage) else 0
  }

  /**
   A command refuses, and writes nothing, exactly when it is not admissible; one that is admissible is done, with its
   record made, exactly when it is not stopped before its last write.
   */
  lemma CommandsSucceedExactly(f: Files, place: Place, id: Identity, c: Command, budget: nat)
    ensures var (f', outcome) := Do(f, place, id, c, budget);
            && (outcome == Refused <==> !Admissible(f, place, id, c))
            && (outcome == Done <==> Admissible(f, place, id, c) && budget >= Needs(f, c))
            && (outcome == Done ==> Recorded(f', id, c))
            && (outcome == Refused ==> f' == f)
  {
    if c.Recover? && Owns(place, id) && OwnMarker(f, id) { RecoverGoes(f, place, id, budget); }
    hide RecoverLoop;
  }

  /** The replay makes one advance for each write it is given, until the branch is recorded as removed. */
  lemma {:induction false} RecoverGoes(f: Files, place: Place, id: Identity, budget: nat)
    requires OwnMarker(f, id) && Owns(place, id)
    ensures var (f', outcome) := RecoverLoop(f, place, id, budget);
            var at := Index(f.marker.value.stage);
            && f' == f.(marker := f'.marker) && OwnMarker(f', id)
            && Index(f'.marker.value.stage) == (if at >= 4 then at else if at + budget <= 4 then at + budget else 4)
            && outcome == if at >= 4 || at + budget >= 4 then Done else Crashed
    decreases 8 - Index(f.marker.value.stage)
  {
    if Recoverable(f.marker.value.stage) && budget > 0 {
      var f' := AdvanceOn(f, place, id, Next(f.marker.value.stage).value, budget).0;
      RecoverGoes(f', place, id, budget - 1);
    }
  }

  /** However early it stops, a command that is not admissible changes nothing. */
  lemma {:induction false} OnlyAdmissibleCommandsWrite(f: Files, place: Place, id: Identity, c: Command, budget: nat)
    ensures Do(f, place, id, c, budget).0 != f ==> Admissible(f, place, id, c)
    ensures Do(f, place, id, c, budget).0.absence != f.absence ==>
              c.RecordAbsence? && Do(f, place, id, c, budget).0.absence == Some(id)
    ensures Do(f, place, id, c, budget).0.marker != f.marker ==> !c.RecordAbsence?
    ensures Do(f, place, id, c, budget).0.receipt != f.receipt ==> c.WriteReceipt?
  {
    if c.Recover? && Owns(place, id) && OwnMarker(f, id) { RecoverGoes(f, place, id, budget); }
    hide RecoverLoop;
  }

  /** The command was told that the worktree is gone, or there is none, under this identity. */
  predicate ReadBack(e: Issued, id: Identity) {
    e.command.RecordAbsence? && e.id == id && (id.worktree == "" || !e.command.present)
  }

  /** The command moves a marker: one of the coordinator's own, or a replay told of both absences. */
  predicate MovesMarker(e: Issued) {
    !e.command.RecordAbsence? && (e.command.Recover? ==> e.command.worktreeAbsent && e.command.branchAbsent)
  }

  lemma LaterStep(f: Files, place: Place, issued: seq<Issued>)
    requires issued != []
    ensures Exec(f, place, issued)
            == Exec(Do(f, place, issued[0].id, issued[0].command, issued[0].budget).0, place, issued[1..])
  {
  }

  /**
   Over every run: an absence record that the start did not have was made by some command of its identity that was
   told the worktree is gone, and a marker moved by a replay only when some replay was told of both absences.
   */
  lemma {:induction false} RecordsWereReadBack(f: Files, place: Place, issued: seq<Issued>)
    requires Inv(f, place)
    ensures var f' := Exec(f, place, issued);
            && (f'.absence != f.absence ==>
                  f'.absence.Some? && exists k :: 0 <= k < |issued| && ReadBack(issued[k], f'.absence.value))
            && (f'.marker != f.marker ==> exists k :: 0 <= k < |issued| && MovesMarker(issued[k]))
    decreases |issued|
  {
    if issued != [] {
      var e := issued[0];
      var next := Do(f, place, e.id, e.command, e.budget).0;
      LaterStep(f, place, issued);
      OnlyAdmissibleCommandsWrite(f, place, e.id, e.command, e.budget);
      EveryRunIsSafe(f, place, [e]);
      assert [e][1..] == [];
      assert Exec(f, place, [e]) == next by { LaterStep(f, place, [e]); }
      RecordsWereReadBack(next, place, issued[1..]);
      EveryRunIsSafe(next, place, issued[1..]);
      var f' := Exec(f, place, issued);
      hide Inv, Do, Exec, Extends;
      if f'.absence != f.absence {
        if next.absence != f.absence {
          assert ReadBack(issued[0], e.id);
          assert f'.absence == next.absence by { AbsenceStays(next, f'); }
        } else {
          var k :| 0 <= k < |issued[1..]| && ReadBack(issued[1..][k], f'.absence.value);
          assert ReadBack(issued[k + 1], f'.absence.value);
        }
      }
      if f'.marker != f.marker {
        if next.marker != f.marker {
          assert MovesMarker(issued[0]);
        } else {
          var k :| 0 <= k < |issued[1..]| && MovesMarker(issued[1..][k]);
          assert MovesMarker(issued[k + 1]);
        }
      }
    }
  }

  lemma AbsenceStays(f: Files, f': Files)
    requires Extends(f, f') && f.absence.Some?
    ensures f'.absence == f.absence
  {
  }

  /** Told of a remaining worktree, or of a missing absence on replay, a command refuses and writes nothing. */
  lemma PresentWorktreeIsRefused(f: Files, place: Place, id: Identity, worktreeAbsent: bool, branchAbsent: bool,
                                 budget: nat)
    ensures id.worktree != "" ==> Do(f, place, id, RecordAbsence(true), budget) == (f, Refused)
    ensures !worktreeAbsent || !branchAbsent ==>
              Do(f, place, id, Recover(worktreeAbsent, branchAbsent), budget) == (f, Refused)
  {
  }

  // ---- Completion ----

  /** The commands that finish a run whose branch and worktree are gone. */
  function Finish(id: Identity, o: Stage): seq<Issued> {
    [Issued(id, Initialize(PendingFinalization), 1), Issued(id, Recover(true, true), 4),
     Issued(id, Advance(ReceiptPending), 1), Issued(id, RecordAbsence(false), 1), Issued(id, WriteReceipt(o), 2)]
  }

  ghost predicate Completable(f: Files, place: Place) {
    exists id, issued, o :: Completes(f, place, id, issued, o)
  }

  /** The run reports verified completion once the worktree is gone and nothing blocks it. */
  ghost predicate Completes(f: Files, place: Place, id: Identity, issued: seq<Issued>, o: Stage) {
    StatusOf(Exec(f, place, issued), place, id, false, false) == VerifiedCompleted(o)
  }

  /** The owner of the run: the marker's identity, or the absence record's when there is no marker yet. */
  ghost predicate Owner(f: Files, place: Place, id: Identity) {
    && Owns(place, id)
    && (f.marker.Some? ==> f.marker.value.identity == id)
    && (f.absence.Some? ==> f.absence.value == id)
  }

  lemma RecoverReaches(f: Files, place: Place, id: Identity, budget: nat)
    requires OwnMarker(f, id) && Owns(place, id) && budget + Index(f.marker.value.stage) >= 4
    ensures RecoverLoop(f, place, id, budget)
            == (if Recoverable(f.marker.value.stage) then f.(marker := Some(Marker(BranchRemoved, id))) else f, Done)
  {
    RecoverGoes(f, place, id, budget);
  }

  lemma FinishCompletes(f: Files, place: Place, id: Identity, o: Stage)
    requires Inv(f, place) && Owner(f, place, id) && Terminal(o)
    requires f.receipt.Some? ==> f.receipt.value.outcome == o
    ensures Completes(f, place, id, Finish(id, o), o)
  {
    hide RecoverLoop;
    var f1 := Do(f, place, id, Initialize(PendingFinalization), 1).0;
    assert OwnMarker(f1, id);
    RecoverReaches(f1, place, id, 4);
    var f2 := Do(f1, place, id, Recover(true, true), 4).0;
    var f3 := Do(f2, place, id, Advance(ReceiptPending), 1).0;
    assert OwnMarker(f3, id) && (f3.marker.value.stage == ReceiptPending || Terminal(f3.marker.value.stage));
    var f4 := Do(f3, place, id, RecordAbsence(false), 1).0;
    var f5 := Do(f4, place, id, WriteReceipt(o), 2).0;
    FiveSteps(f, place, Finish(id, o));
    hide Exec;
  }

  lemma FiveSteps(f: Files, place: Place, issued: seq<Issued>)
    requires |issued| == 5
    ensures var f1 := Do(f, place, issued[0].id, issued[0].command, issued[0].budget).0;
            var f2 := Do(f1, place, issued[1].id, issued[1].command, issued[1].budget).0;
            var f3 := Do(f2, place, issued[2].id, issued[2].command, issued[2].budget).0;
            var f4 := Do(f3, place, issued[3].id, issued[3].command, issued[3].budget).0;
            Exec(f, place, issued) == Do(f4, place, issued[4].id, issued[4].command, issued[4].budget).0
  {
    hide Do;
    assert issued[1..][1..] == issued[2..] && issued[2..][1..] == issued[3..] && issued[3..][1..] == issued[4..]
           && issued[4..][1..] == [];
    var f1 := Do(f, place, issued[0].id, issued[0].command, issued[0].budget).0;
    var f2 := Do(f1, place, issued[1].id, issued[1].command, issued[1].budget).0;
    var f3 := Do(f2, place, issued[2].id, issued[2].command, issued[2].budget).0;
    var f4 := Do(f3, place, issued[3].id, issued[3].command, issued[3].budget).0;
    assert Exec(f, place, issued) == Exec(f1, place, issued[1..]);
    assert Exec(f1, place, issued[1..]) == Exec(f2, place, issued[2..]);
    assert Exec(f2, place, issued[2..]) == Exec(f3, place, issued[3..]);
    assert Exec(f3, place, issued[3..]) == Exec(f4, place, issued[4..]);
    var f5 := Do(f4, place, issued[4].id, issued[4].command, issued[4].budget).0;
    assert Exec(f4, place, issued[4..]) == Exec(f5, place, issued[4..][1..]);
  }

  /**
   No crash state is stuck, with one exception: a reachable state can be completed exactly when no absence
   record of another identity was written for it (`record_absence_observation` never consults the marker).
   */
  lemma CompletableUnlessForeignAbsence(place: Place, before: seq<Issued>, own: Identity)
    requires Owns(place, own)
    ensures var f := Exec(Files(None, None, None), place, before);
            Completable(f, place) <==> f.marker.None? || f.absence.None? || f.absence.value == f.marker.value.identity
  {
    var f := Exec(Files(None, None, None), place, before);
    hide Exec;
    EveryRunIsSafe(Files(None, None, None), place, before);
    if f.marker.None? || f.absence.None? || f.absence.value == f.marker.value.identity {
      var id := if f.marker.Some? then f.marker.value.identity else if f.absence.Some? then f.absence.value else own;
      var o := if f.receipt.Some? then f.receipt.value.outcome else CompletedLanded;
      FinishCompletes(f, place, id, o);
    }
    if Completable(f, place) {
      var id, issued, o :| Completes(f, place, id, issued, o);
      EveryRunIsSafe(f, place, issued);
    }
  }

  /** A concrete stuck run: an absence record written under an edited state of the same directory. */
  lemma ForeignAbsenceIsStuck(place: Place, id: Identity, edited: Identity)
    requires Owns(place, id) && Owns(place, edited) && id != edited
    ensures var issued := [Issued(id, Initialize(PendingCloseout), 1), Issued(edited, RecordAbsence(false), 1)];
            !Completable(Exec(Files(None, None, None), place, issued), place)
  {
    var issued := [Issued(id, Initialize(PendingCloseout), 1), Issued(edited, RecordAbsence(false), 1)];
    assert issued[1..] == [Issued(edited, RecordAbsence(false), 1)] && issued[1..][1..] == [];
    var mid := Files(Some(Marker(PendingCloseout, id)), None, None);
    assert Exec(Files(None, None, None), place, issued) == Exec(mid, place, issued[1..]);
    assert Exec(mid, place, issued[1..]) == Exec(mid.(absence := Some(edited)), place, []);
    CompletableUnlessForeignAbsence(place, issued, id);
  }
}
