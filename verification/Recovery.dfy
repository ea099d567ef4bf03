/**
 Recovery of an interrupted install (scripts/installer_helper.py, `recover_transaction`). Each path holds
 one content or nothing; recovery may stop before any of its renames and be run again.
 */
module Recovery {
  import opened Wrappers

  /** The paths the journal names, and the one recovery derives from the instructions backup. */
  datatype Place = Destination | Stage | Backup | Instructions | TextBackup | Interrupted

  type Paths = map<Place, string>

  /** The journal: `instructionsExisted` is `None` when the install has no instructions file. */
  datatype Journal = Journal(originalExists: bool, instructionsExisted: Option<bool>, completed: bool)

  datatype Outcome = Recovered | Committed | Refused | Crashed

  datatype State = State(paths: Paths, left: nat, outcome: Option<Outcome>)

  // ---- One rename or removal ----

  /** `_move`: refuses an existing target; the rename itself fails without a source. */
  function Move(s: State, source: Place, target: Place): State {
    if s.outcome.Some? then s
    else if target in s.paths || source !in s.paths then s.(outcome := Some(Refused))
    else if s.left == 0 then s.(outcome := Some(Crashed))
    else State((s.paths - {source})[target := s.paths[source]], s.left - 1, None)
  }

  function Unlink(s: State, place: Place): State {
    if s.outcome.Some? then s
    else if s.left == 0 then s.(outcome := Some(Crashed))
    else State(s.paths - {place}, s.left - 1, None)
  }

  function Refuse(s: State): State {
    if s.outcome.Some? then s else s.(outcome := Some(Refused))
  }

  // ---- The recovery ----

  function RestoreTree(s: State, j: Journal): State {
    var dest, backup, stage := Destination in s.paths, Backup in s.paths, Stage in s.paths;
    if j.originalExists then
      if !dest && backup then Move(s, Backup, Destination)
      else if dest && backup && !stage then Move(Move(s, Destination, Stage), Backup, Destination)
      else if !dest || backup then Refuse(s)
      else s
    else if dest && !stage then Move(s, Destination, Stage)
    else if dest && stage then Refuse(s)
    else s
  }

  function RestoreText(s: State, j: Journal, owned: string): State {
    if s.outcome.Some? || j.instructionsExisted.None? then s
    else if j.instructionsExisted.value && TextBackup in s.paths then
      Move(if Instructions in s.paths then Move(s, Instructions, Interrupted) else s, TextBackup, Instructions)
    else if !j.instructionsExisted.value && Instructions in s.paths then
      if s.paths[Instructions] != owned then Refuse(s) else Unlink(s, Instructions)
    else s
  }

  function Conclude(s: State, j: Journal): State {
    if s.outcome.Some? then s
    else if (Destination in s.paths) != j.originalExists || Stage !in s.paths then Refuse(s)
    else s.(outcome := Some(Recovered))
  }

  /**
   `recover_transaction`; `owned` is the text a new instructions file gets, `marked` whether a tree has the metadata of
   an install.
   */
  function Recover(paths: Paths, j: Journal, owned: string, marked: string -> bool, budget: nat): (Paths, Outcome) {
    if j.completed then (paths, if ReadsBack(paths, marked) then Committed else Refused)
    else
      var s := Conclude(RestoreText(RestoreTree(State(paths, budget, None), j), j, owned), j);
      (s.paths, s.outcome.value)
  }

  predicate ReadsBack(paths: Paths, marked: string -> bool) {
    Destination in paths && marked(paths[Destination])
  }

  // ---- The filesystem ----

  class Filesystem {
    var paths: Paths

    constructor (paths: Paths)
      ensures this.paths == paths
    {
      this.paths := paths;
    }

    /** A rename, if its budget is not used up. */
    method Rename(source: Place, target: Place, left: nat) returns (outcome: Option<Outcome>, rest: nat)
      modifies this
      ensures State(paths, rest, outcome) == Move(State(old(paths), left, None), source, target)
    {
      outcome, rest := None, left;
      if target in paths || source !in paths {
        outcome := Some(Refused);
      } else if left == 0 {
        outcome := Some(Crashed);
      } else {
        var content := paths[source];
        paths := paths - {source};
        paths := paths[target := content];
        rest := left - 1;
      }
    }

    method RecoverTree(j: Journal, budget: nat) returns (outcome: Option<Outcome>, left: nat)
      modifies this
      ensures State(paths, left, outcome) == RestoreTree(State(old(paths), budget, None), j)
    {
      hide Move;
      outcome, left := None, budget;
      var dest, backup, stage := Destination in paths, Backup in paths, Stage in paths;
      if j.originalExists {
        if !dest && backup {
          outcome, left := Rename(Backup, Destination, left);
        } else if dest && backup && !stage {
          outcome, left := Rename(Destination, Stage, left);
          if outcome.None? {
            outcome, left := Rename(Backup, Destination, left);
          } else {
            StoppedStays(State(paths, left, outcome), Backup, Destination);
          }
        } else if !dest || backup {
          outcome := Some(Refused);
        }
      } else if dest && !stage {
        outcome, left := Rename(Destination, Stage, left);
      } else if dest && stage {
        outcome := Some(Refused);
      }
    }

    method RecoverText(j: Journal, owned: string, budget: nat) returns (outcome: Option<Outcome>, left: nat)
      modifies this
      ensures State(paths, left, outcome) == RestoreText(State(old(paths), budget, None), j, owned)
    {
      hide Move;
      outcome, left := None, budget;
      if j.instructionsExisted.None? {
        return;
      }
      if j.instructionsExisted.value && TextBackup in paths {
        if Instructions in paths {
          outcome, left := Rename(Instructions, Interrupted, left);
        }
        if outcome.None? {
          outcome, left := Rename(TextBackup, Instructions, left);
        } else {
          StoppedStays(State(paths, left, outcome), TextBackup, Instructions);
        }
      } else if !j.instructionsExisted.value && Instructions in paths {
        if paths[Instructions] != owned {
          outcome := Some(Refused);
        } else if left == 0 {
          outcome := Some(Crashed);
        } else {
          paths := paths - {Instructions};
          left := left - 1;
        }
      }
    }

    method RecoverTransaction(j: Journal, owned: string, marked: string -> bool, budget: nat) returns (outcome: Outcome)
      modifies this
      ensures (paths, outcome) == Recover(old(paths), j, owned, marked, budget)
    {
      hide RestoreTree, RestoreText;
      if j.completed {
        return if ReadsBack(paths, marked) then Committed else Refused;
      }
      var stopped, left := RecoverTree(j, budget);
      if stopped.Some? {
        StoppedText(State(paths, left, stopped), j, owned);
        return stopped.value;
      }
      stopped, left := RecoverText(j, owned, left);
      if stopped.Some? {
        return stopped.value;
      }
      outcome := if (Destination in paths) != j.originalExists || Stage !in paths then Refused else Recovered;
    }
  }

  lemma StoppedStays(s: State, source: Place, target: Place)
    requires s.outcome.Some?
    ensures Move(s, source, target) == s
  {
  }

  lemma StoppedText(s: State, j: Journal, owned: string)
    requires s.outcome.Some?
    ensures RestoreText(s, j, owned) == s
  {
  }

  // ---- Nothing is lost ----

  function Has(paths: Paths, p: Place, c: string): nat {
    if p in paths && paths[p] == c then 1 else 0
  }

  /** How many of the paths hold the content `c`. */
  function Copies(paths: Paths, c: string): nat {
    Has(paths, Destination, c) + Has(paths, Stage, c) + Has(paths, Backup, c)
    + Has(paths, Instructions, c) + Has(paths, TextBackup, c) + Has(paths, Interrupted, c)
  }

  lemma MoveHas(s: State, source: Place, target: Place, c: string)
    requires source != target
    ensures var after := Move(s, source, target).paths;
            && (forall p :: p != source && p != target ==> Has(after, p, c) == Has(s.paths, p, c))
            && Has(after, source, c) + Has(after, target, c) == Has(s.paths, source, c) + Has(s.paths, target, c)
  {
  }

  lemma {:induction false} MoveKeeps(s: State, source: Place, target: Place, c: string)
    requires source != target
    ensures Copies(Move(s, source, target).paths, c) == Copies(s.paths, c)
  {
    MoveHas(s, source, target, c);
    hide Copies, Move, Has;
  }

  lemma {:induction false} TreeKeeps(s: State, j: Journal, c: string)
    ensures Copies(RestoreTree(s, j).paths, c) == Copies(s.paths, c)
  {
    MoveKeeps(s, Backup, Destination, c);
    MoveKeeps(s, Destination, Stage, c);
    MoveKeeps(Move(s, Destination, Stage), Backup, Destination, c);
    hide Copies, Move;
  }

  lemma TreeLeavesText(s: State, j: Journal)
    ensures Instructions in RestoreTree(s, j).paths <==> Instructions in s.paths
    ensures Instructions in s.paths ==> RestoreTree(s, j).paths[Instructions] == s.paths[Instructions]
  {
  }

  /** Recovery removes a new instructions file that is still exactly the owned text. */
  predicate OwnedNewText(paths: Paths, j: Journal, owned: string) {
    j.instructionsExisted == Some(false) && Instructions in paths && paths[Instructions] == owned
  }

  lemma UnlinkDrops(s: State, c: string)
    requires Instructions in s.paths
    ensures Copies(Unlink(s, Instructions).paths, c) == Copies(s.paths, c)
            || (c == s.paths[Instructions] && Copies(Unlink(s, Instructions).paths, c) + 1 == Copies(s.paths, c))
  {
    var after := Unlink(s, Instructions).paths;
    forall p | p != Instructions ensures Has(after, p, c) == Has(s.paths, p, c) {}
    assert Has(after, Instructions, c) == Has(s.paths, Instructions, c) || Has(after, Instructions, c) == 0;
    assert Has(s.paths, Instructions, c) == if c == s.paths[Instructions] then 1 else 0;
    hide Has, Unlink;
  }

  lemma {:induction false} TextKeeps(s: State, j: Journal, owned: string, c: string)
    ensures var after := RestoreText(s, j, owned).paths;
            Copies(after, c) == Copies(s.paths, c)
            || (OwnedNewText(s.paths, j, owned) && c == owned && Copies(after, c) + 1 == Copies(s.paths, c))
  {
    var mid := if Instructions in s.paths then Move(s, Instructions, Interrupted) else s;
    MoveKeeps(s, Instructions, Interrupted, c);
    MoveKeeps(mid, TextBackup, Instructions, c);
    if Instructions in s.paths { UnlinkDrops(s, c); }
    hide Copies, Move, Unlink;
  }

  /**
   From any state of the paths, wherever it stops, recovery loses no content: each content stays at as many
   paths as before, but for one copy of the owned text when that is all a new instructions file holds.
   */
  lemma {:induction false} NothingIsLost(paths: Paths, j: Journal, owned: string, marked: string -> bool,
                                         budget: nat, c: string)
    ensures var after := Recover(paths, j, owned, marked, budget).0;
            Copies(after, c) == Copies(paths, c)
            || (OwnedNewText(paths, j, owned) && c == owned && Copies(after, c) + 1 == Copies(paths, c))
  {
    var s := State(paths, budget, None);
    TreeKeeps(s, j, c);
    TreeLeavesText(s, j);
    TextKeeps(RestoreTree(s, j), j, owned, c);
    hide RestoreTree, RestoreText, Copies;
  }

  // ---- When recovery succeeds ----

  /** The old tree can be put back and the new one kept aside. */
  predicate TreeRecoverable(paths: Paths, j: Journal) {
    if j.originalExists then
      if Backup in paths then (Destination in paths) != (Stage in paths) else Destination in paths && Stage in paths
    else (Destination in paths) != (Stage in paths)
  }

  predicate TextRecoverable(paths: Paths, j: Journal, owned: string) {
    match j.instructionsExisted
    case None => true
    case Some(true) => TextBackup in paths && Instructions in paths ==> Interrupted !in paths
    case Some(false) => Instructions in paths ==> paths[Instructions] == owned
  }

  /** From any state of the paths, an uninterrupted recovery succeeds exactly when both parts can be told apart. */
  lemma {:induction false} RecoversExactlyWhen(paths: Paths, j: Journal, owned: string, marked: string -> bool,
                                               budget: nat)
    requires !j.completed && budget >= 4
    ensures Recover(paths, j, owned, marked, budget).1 == Recovered
            <==> TreeRecoverable(paths, j) && TextRecoverable(paths, j, owned)
  {
    var s := State(paths, budget, None);
    var t := RestoreTree(s, j);
    if t.outcome.Some? { StoppedText(t, j, owned); }
    assert TextRecoverable(t.paths, j, owned) == TextRecoverable(paths, j, owned);
    hide RestoreTree, RestoreText, TreeRecoverable, TextRecoverable;
  }

  // ---- Convergence ----

  /** What was installed before, the new tree, and the instructions text before, if any. */
  datatype Install = Install(original: Option<string>, staged: string, text: Option<string>, hasText: bool)

  function JournalOf(i: Install): Journal {
    Journal(i.original.Some?, if i.hasText then Some(i.text.Some?) else None, false)
  }

  /**
   How far the installer got once the journal is written: the old tree moved aside, the new one in its place, the
   instructions copied, the instructions rewritten, the metadata added to the new tree. Neither the copy nor the
   metadata is atomic: what a cut-short step leaves is a parameter.
   */
  datatype Point =
    | JournalWritten
    | MovedAside
    | Activated
    | Copied(backup: string)
    | Registered
    | Described(tree: string)

  /** The new tree with what the installer has added to it. */
  function NewTree(i: Install, point: Point): Install {
    if point.Described? then i.(staged := point.tree) else i
  }

  /** The paths at that point. */
  function AfterSteps(i: Install, rewritten: string, point: Point): Paths {
    var before :=
      if i.original.None? then map[]
      else map[if point.JournalWritten? then Destination else Backup := i.original.value];
    var tree :=
      before
      + map[if point.JournalWritten? || point.MovedAside? then Stage else Destination := NewTree(i, point).staged];
    var text := if i.text.Some? then map[Instructions := i.text.value] else map[];
    if !i.hasText then tree
    else
      match point
      case Copied(backup) => tree + text + if i.text.Some? then map[TextBackup := backup] else map[]
      case JournalWritten => tree + text
      case MovedAside => tree + text
      case Activated => tree + text
      case _ =>
        tree + map[Instructions := rewritten] + if i.text.Some? then map[TextBackup := i.text.value] else map[]
  }

  /** There is no backup of the instructions, or it holds them in full. */
  predicate BackupWhole(paths: Paths, i: Install) {
    i.hasText && i.text.Some? && TextBackup in paths ==> paths[TextBackup] == i.text.value
  }

  /** The install with the instructions that recovery puts back from these paths: the backup's, if there is one. */
  function PutBack(paths: Paths, i: Install): Install {
    if i.hasText && i.text.Some? && TextBackup in paths then i.(text := Some(paths[TextBackup])) else i
  }

  /** The states recovery moves through: each content is at a place from which it finds its way back. */
  ghost predicate OnTheWay(paths: Paths, i: Install, owned: string) {
    && TreeRecoverable(paths, JournalOf(i)) && TextRecoverable(paths, JournalOf(i), owned)
    && (if Stage in paths then paths[Stage] == i.staged else Destination in paths && paths[Destination] == i.staged)
    && (i.original.Some? ==>
          if Backup in paths then paths[Backup] == i.original.value
          else Destination in paths && paths[Destination] == i.original.value)
    && (i.original.None? ==> Backup !in paths)
    && (i.hasText && i.text.Some? ==>
          if TextBackup in paths then paths[TextBackup] == i.text.value
          else Instructions in paths && paths[Instructions] == i.text.value)
    && (i.hasText && i.text.None? ==> TextBackup !in paths)
  }

  /** The tree of before the install, if any, with the new tree at the stage. */
  ghost predicate TreesRestored(paths: Paths, i: Install) {
    && (if i.original.Some? then Destination in paths && paths[Destination] == i.original.value
        else Destination !in paths)
    && Stage in paths && paths[Stage] == i.staged && Backup !in paths
  }

  /** The state before the install, plus the new tree at the stage. */
  ghost predicate Restored(paths: Paths, i: Install) {
    && TreesRestored(paths, i)
    && (i.hasText ==>
          TextBackup !in paths
          && if i.text.Some? then Instructions in paths && paths[Instructions] == i.text.value
               else Instructions !in paths)
  }

  lemma EveryLayoutIsOnTheWay(i: Install, rewritten: string, owned: string, point: Point)
    requires i.text.None? ==> rewritten == owned
    ensures var layout := AfterSteps(i, rewritten, point);
            OnTheWay(layout, PutBack(layout, NewTree(i, point)), owned)
  {
  }

  lemma {:induction false} TextStaysOnTheWay(s: State, i: Install, owned: string)
    requires s.outcome.None? && OnTheWay(s.paths, i, owned)
    ensures OnTheWay(RestoreText(s, JournalOf(i), owned).paths, i, owned)
    ensures var s' := RestoreText(s, JournalOf(i), owned);
            && (s'.outcome == None || s'.outcome == Some(Crashed))
            && (s.left >= 2 ==> s'.outcome == None)
            && (forall p :: p in {Destination, Stage, Backup} ==>
                  (p in s'.paths <==> p in s.paths) && (p in s.paths ==> s'.paths[p] == s.paths[p]))
    ensures var s' := RestoreText(s, JournalOf(i), owned);
            s'.outcome == None && i.hasText ==>
              TextBackup !in s'.paths
              && if i.text.Some? then Instructions in s'.paths && s'.paths[Instructions] == i.text.value
                 else Instructions !in s'.paths
  {
  }

  /** One attempt, wherever it stops, stays on the way; with room for four moves it arrives. */
  lemma AttemptConverges(paths: Paths, i: Install, owned: string, marked: string -> bool, budget: nat)
    requires OnTheWay(paths, i, owned)
    ensures var (after, outcome) := Recover(paths, JournalOf(i), owned, marked, budget);
            && OnTheWay(after, i, owned)
            && (outcome == Recovered || outcome == Crashed)
            && (budget >= 4 ==> outcome == Recovered)
            && (outcome == Recovered ==> Restored(after, i))
  {
    var s := State(paths, budget, None);
    var s1 := RestoreTree(s, JournalOf(i));
    if s1.outcome.None? {
      TextStaysOnTheWay(s1, i, owned);
    } else {
      StoppedText(s1, JournalOf(i), owned);
    }
    hide RestoreTree, RestoreText, OnTheWay;
  }

  /** Interrupted attempts, one after the other. */
  function Attempts(paths: Paths, j: Journal, owned: string, marked: string -> bool, budgets: seq<nat>): Paths
    decreases |budgets|
  {
    if budgets == [] then paths
    else Attempts(Recover(paths, j, owned, marked, budgets[0]).0, j, owned, marked, budgets[1..])
  }

  lemma {:induction false} AttemptsStay(paths: Paths, i: Install, owned: string, marked: string -> bool,
                                        budgets: seq<nat>)
    requires OnTheWay(paths, i, owned)
    ensures OnTheWay(Attempts(paths, JournalOf(i), owned, marked, budgets), i, owned)
    decreases |budgets|
  {
    hide OnTheWay, Recover;
    if budgets != [] {
      AttemptConverges(paths, i, owned, marked, budgets[0]);
      AttemptsStay(Recover(paths, JournalOf(i), owned, marked, budgets[0]).0, i, owned, marked, budgets[1..]);
    }
  }

  /** The text of before the install stays at as many paths as it was. */
  lemma {:induction false} TextIsKept(paths: Paths, j: Journal, owned: string, marked: string -> bool,
                                      budgets: seq<nat>,
                                      c: string)
    requires j.instructionsExisted == Some(true)
    ensures Copies(Attempts(paths, j, owned, marked, budgets), c) == Copies(paths, c)
    decreases |budgets|
  {
    hide Recover, Copies;
    if budgets != [] {
      NothingIsLost(paths, j, owned, marked, budgets[0], c);
      TextIsKept(Recover(paths, j, owned, marked, budgets[0]).0, j, owned, marked, budgets[1..], c);
    }
  }

  lemma TextIsThere(i: Install, rewritten: string, point: Point)
    requires i.hasText && i.text.Some?
    ensures Copies(AfterSteps(i, rewritten, point), i.text.value) >= 1
  {
  }

  /**
   Recovery converges: from every point of the install, after any number of recoveries each stopped between any two
   of its moves, one that is not stopped restores the original tree (or its absence), leaves the new tree at the
   stage, with what the installer added to it, and puts back the instructions of the backup, if there is one. So
   everything is as before if and only if the backup of the instructions is absent or whole, and their text is never
   lost.
   */
  lemma {:induction false} RecoveryConverges(i: Install, rewritten: string, owned: string, point: Point,
                                             marked: string -> bool, budgets: seq<nat>, budget: nat)
    requires (i.text.None? ==> rewritten == owned) && budget >= 4
    ensures var layout := AfterSteps(i, rewritten, point);
            var before := Attempts(layout, JournalOf(i), owned, marked, budgets);
            var (after, outcome) := Recover(before, JournalOf(i), owned, marked, budget);
            && outcome == Recovered && Restored(after, PutBack(layout, NewTree(i, point)))
            && TreesRestored(after, NewTree(i, point))
            && (Restored(after, NewTree(i, point)) <==> BackupWhole(layout, i))
            && (i.hasText && i.text.Some? ==> Copies(after, i.text.value) >= 1)
  {
    var layout := AfterSteps(i, rewritten, point);
    var i' := PutBack(layout, NewTree(i, point));
    assert JournalOf(i') == JournalOf(i);
    EveryLayoutIsOnTheWay(i, rewritten, owned, point);
    hide OnTheWay, Recover, AfterSteps, Attempts, Copies;
    AttemptsStay(layout, i', owned, marked, budgets);
    var before := Attempts(layout, JournalOf(i), owned, marked, budgets);
    AttemptConverges(before, i', owned, marked, budget);
    if i.hasText && i.text.Some? {
      TextIsThere(i, rewritten, point);
      TextIsKept(layout, JournalOf(i), owned, marked, budgets, i.text.value);
      NothingIsLost(before, JournalOf(i), owned, marked, budget, i.text.value);
    }
  }

  /** Trees that cannot be told apart are left alone, and so are the instructions, whatever the budget. */
  lemma AmbiguousIsLeftAlone(paths: Paths, j: Journal, owned: string, marked: string -> bool, budget: nat)
    requires !j.completed
    requires var dest, backup, stage := Destination in paths, Backup in paths, Stage in paths;
             if j.originalExists then (dest && backup && stage) || (!dest && !backup) else dest && stage
    ensures Recover(paths, j, owned, marked, budget) == (paths, Refused)
  {
    StoppedText(RestoreTree(State(paths, budget, None), j), j, owned);
    hide RestoreText;
  }

  // ---- After the commit ----

  /**
   The paths once the journal says completed: the new tree in place, the rewritten instructions, and what is left of
   the two backups, whose removal is not atomic.
   */
  function AfterCommit(i: Install, tree: string, rewritten: string, oldTree: Option<string>,
                       oldText: Option<string>): Paths {
    map[Destination := tree] + (if oldTree.Some? then map[Backup := oldTree.value] else map[])
    + (if i.hasText then map[Instructions := rewritten] else map[])
    + (if i.hasText && oldText.Some? then map[TextBackup := oldText.value] else map[])
  }

  /**
   A committed install is never undone: from every state of the paths, any number of recoveries, wherever they stop,
   leave each path as it was, and the next one reports the commit exactly when the tree in place marked back.
   */
  lemma {:induction false} CommittedIsLeftAlone(paths: Paths, j: Journal, owned: string, marked: string -> bool,
                                                budgets: seq<nat>, budget: nat)
    requires j.completed
    ensures Attempts(paths, j, owned, marked, budgets) == paths
    ensures var (after, outcome) := Recover(Attempts(paths, j, owned, marked, budgets), j, owned, marked, budget);
            && after == paths
            && (outcome == Committed <==> Destination in paths && marked(paths[Destination]))
            && (outcome == Committed || outcome == Refused)
    decreases |budgets|
  {
    if budgets != [] { CommittedIsLeftAlone(paths, j, owned, marked, budgets[1..], budget); }
  }

  /** So at every point of the installer behind its commit. */
  lemma CommittedInstallStays(i: Install, tree: string, rewritten: string, oldTree: Option<string>,
                              oldText: Option<string>, owned: string, marked: string -> bool, budgets: seq<nat>,
                              budget: nat)
    ensures var layout := AfterCommit(i, tree, rewritten, oldTree, oldText);
            var journal := JournalOf(i).(completed := true);
            var before := Attempts(layout, journal, owned, marked, budgets);
            var (after, outcome) := Recover(before, journal, owned, marked, budget);
            after == layout && outcome == if marked(tree) then Committed else Refused
  {
    CommittedIsLeftAlone(AfterCommit(i, tree, rewritten, oldTree, oldText), JournalOf(i).(completed := true), owned,
                         marked, budgets, budget);
    hide Recover, Attempts;
  }

  /**
   At an input: the copy of the instructions was cut short before its first byte. Recovery reports success, and the
   instructions are then empty; their text is kept aside.
   */
  lemma CutShortBackupIsPutBack(owned: string, rewritten: string, marked: string -> bool)
    ensures var i := Install(Some("old"), "new", Some("text"), true);
            var (after, outcome) := Recover(AfterSteps(i, rewritten, Copied("")), JournalOf(i), owned, marked, 4);
            && outcome == Recovered && !Restored(after, i)
            && after == map[Destination := "old", Stage := "new", Instructions := "", Interrupted := "text"]
  {
    var i := Install(Some("old"), "new", Some("text"), true);
    var layout := map[Backup := "old", Destination := "new", Instructions := "text", TextBackup := ""];
    assert AfterSteps(i, rewritten, Copied("")) == layout;
    CutShortTree(layout, JournalOf(i));
    CutShortText(RestoreTree(State(layout, 4, None), JournalOf(i)), JournalOf(i), owned);
    hide RestoreTree, RestoreText, AfterSteps;
  }

  lemma CutShortTree(layout: Paths, j: Journal)
    requires layout == map[Backup := "old", Destination := "new", Instructions := "text", TextBackup := ""]
    requires j.originalExists
    ensures RestoreTree(State(layout, 4, None), j)
            == State(map[Destination := "old", Stage := "new", Instructions := "text", TextBackup := ""], 2, None)
  {
    hide Refuse;
  }

  lemma CutShortText(s: State, j: Journal, owned: string)
    requires s == State(map[Destination := "old", Stage := "new", Instructions := "text", TextBackup := ""], 2, None)
    requires j.instructionsExisted == Some(true)
    ensures RestoreText(s, j, owned)
            == State(map[Destination := "old", Stage := "new", Instructions := "", Interrupted := "text"], 0, None)
  {
    hide Refuse, Unlink;
  }
}
