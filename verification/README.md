# Bugsweep bookkeeping, modelled and verified in Dafny

Bugsweep is mostly fail-closed bookkeeping: durable records that a crash must not corrupt, planners and
validators that must agree, ledgers that must not overspend, and small arithmetic that reports must be able to
rely on. This project models that bookkeeping and proves what it is for. `dafny verify dfyconfig.toml` checks
everything.

| Part | Modules |
|---|---|
| Coverage checkpoint | `Checkpoint`, `CheckpointSteps`, `CheckpointRuns`, `CheckpointBytes`, `TornRetry`, `OutOfSight`, `Coverage`, `GitObjects`, `JsonlTail`, `ReconValidation` |
| Batch planner | `ReconPlan`, `Packing`, `Paths` |
| Terminal lifecycle | `Lifecycle` |
| Proxy budget | `Budget` |
| Calibration arithmetic | `Allocation`, `Sampling`, `Rates`, `Bootstrap`, `Wilson`, `Labels` |
| Benchmark schedule, pipeline, managed loop | `Schedule`, `Pipeline`, `ManagedLoop` |
| Installer | `Registration`, `Recovery` |
| Shared | `Sequences`, `Sorting`, `Wrappers` |

How the model reads the system:

- A durable log is a list of whole lines, or, for the bounded tail reader, a byte sequence. A command has a
  write budget: it stops after that many durable writes. Any budget stands for a crash at that point.
- Git is a map from commits to trees of entries. HEAD and the work tree are inputs of each command and may
  change between commands. The object store itself never changes.
- A record is assumed to be written as a single line that parses back to it, for the records of the log at hand
  and where a property needs it (`CheckpointBytes.Faithful`, `JsonlTail.Writes`). Digests are uninterpreted
  functions and no property needs them to be injective.
- Randomness is a parameter: any permutation for the shuffle, any subset of the right size for a sample, any
  member of the universe for a bootstrap draw. Floating-point numbers are exact reals.
- Threads are interleavings of whole calls, because `Budget` holds one lock for the length of each.

Places where the code does not do what one might expect, each stated as an exact condition:

- A retry that writes rows behind a torn last line of the snapshot log loses the first of them, because it merges
  with what the stopped append left. The retry does its work if and only if the log ends in a newline when it starts
  (`JsonlTail.RetryAfterTornAppend`, at an input `JsonlTail.RecordLostBehindATornLine`). Otherwise it still reports
  success: the batch is marked covered, verification of the whole run fails and no later command repairs it
  (`TornRetry.TornRetryIsFatal`, `TornRetry.StuckForever`). Behind a torn last line of the ledger it is the event that
  is lost: verification ignores the batch, and one further command repairs it (`TornRetry.TornLedgerIsRepaired`). The
  assumption is that nothing parses behind such a fragment; a JSON object behind a cut-off one never does. Soundness
  of the verifier holds for every byte content.
- An attempt on a batch some of whose records have left the tail windows refuses or writes them again. When it
  succeeds, each record is there once exactly when all were in sight (`OutOfSight.OnceIffInSight`).
- The managed loop accounts for every slot exactly when nothing escapes its handlers. An interruption of the stop, or
  of any other step of a slot's finally block, loses the slot's receipt and record, although its proxy may be
  running, and neither document is written (`ManagedLoop.EveryRunIsAccountable`, `ManagedLoop.WhereTheLoopIsLeft`, at
  an input `ManagedLoop.InterruptedStopLosesTheSlot`); bench/README.md:105-107 says that interrupted slots are
  preserved.
- Recovery puts back whatever the backup of the instructions holds. A copy that was cut short is put back as it is,
  and recovery reports success; the instructions return exactly when the backup is absent or whole, and their text is
  kept aside otherwise (`Recovery.RecoveryConverges`, at an input `Recovery.CutShortBackupIsPutBack`).
- The proxy handler settles a ticket twice when writing to the client fails after the first settlement. The
  counters match the waiting requests exactly when no such write fails (`Budget.CountersMatchUnlessAWriteFails`),
  and one failure lets two requests through an inflight cap of one (`Budget.FailedClientWriteBreaksTheCap`).
- The execution-order checker alone accepts an order that runs a slot once which is scheduled twice
  (`Schedule.DuplicateSlotRunsOnce`). What it accepts is a bijection exactly when the schedule's keys are distinct
  (`Schedule.AcceptedOrderIsABijection`), which `reduce_evaluation` checks on its own (`Schedule.NoDuplicateSlot`).
- `record_absence_observation` never consults the marker, so an edited state of the same directory can record a
  foreign absence that nothing can repair (`Lifecycle.CompletableUnlessForeignAbsence`, at an input
  `Lifecycle.ForeignAbsenceIsStuck`).
- The registration rewrite is idempotent exactly when the skill root contains neither marker
  (`Registration.RewriteIsIdempotent`, at an input `Registration.MarkerInRootIsRefused`).
- `wilson_interval` accepts a negative `z`, which swaps its ends (`Wilson.IntervalContainsTheRate`, at an input
  `Wilson.NegativeZSwapsTheEnds`).

## Model

| member | source | states |
|---|---|---|
| CheckpointRuns.CrashRetryRefinesAtomic | scripts/_mark_batch_covered.py:666-736 | After any run of checkpoint commands, each stopped after any durable write and each finding its batch's records inside the windows, `covered` and the rows and events of every covered batch are those of an atomic run that commits each batch once, in order of first success, at the HEAD in force when its first row became durable; every other batch holds a prefix of its rows and an event only once they are complete |
| CheckpointRuns.EveryRun | scripts/_mark_batch_covered.py:666-736 | Every reachable disk satisfies the per-batch invariant, and `covered` is the list of batches in the order of their first successful command |
| CheckpointRuns.OrderlyRunIsSighted | scripts/_mark_batch_covered.py:709-736 | In a run that finishes what it interrupted before going on, every command finds its batch's records inside the windows, however long the logs are before them |
| CheckpointRuns.FittingRunIsSighted | scripts/_mark_batch_covered.py:666-736 | If both logs fit their windows at the end of a run, every command of the run found its batch's records inside them |
| CheckpointRuns.RetryCompletes | scripts/_mark_batch_covered.py:674-736 | In every reachable state an attempt with room for its writes and its batch's records inside the windows succeeds exactly when a row of the batch is already durable, whatever HEAD and the work tree are now, or today's HEAD can start the batch; a failing attempt writes nothing |
| CheckpointRuns.RetryAtTheEnd | scripts/_mark_batch_covered.py:709-736 | A batch whose durable rows end the log is completed by the next attempt, whatever the logs hold before them |
| CheckpointRuns.UninterruptedIsAtomic | scripts/_mark_batch_covered.py:666-736 | One uninterrupted command on an untouched batch is the atomic step of the specification |
| CheckpointRuns.ReachableStatesVerify | scripts/_mark_batch_covered.py:577-663 | In every reachable state whose covered batches are inside the windows, `verify_run_coverage` accepts and reports exactly the covered batches |
| CheckpointRuns.CarriedOut | scripts/_mark_batch_covered.py:727-736 | Wherever a command stops, the selected batch's rows only grow toward the full set, the event follows the last row, the mark follows the event, and no other batch changes |
| CheckpointRuns.AtomicRunIs | scripts/_mark_batch_covered.py:727-734 | What an atomic run leaves for each batch: its rows at the committed head and one event, or nothing |
| CheckpointRuns.AttemptFinishes | scripts/_mark_batch_covered.py:691-736 | A command either refuses before any write or sets out to write exactly what is missing, at the head already recorded or, for an untouched batch, at today's HEAD |
| CheckpointSteps.DecideStarted | scripts/_mark_batch_covered.py:674-708 | A retry on a partly recorded batch writes exactly the missing rows at the recorded head, the event if it is missing, and the mark if it is missing |
| CheckpointSteps.DecideFresh | scripts/_mark_batch_covered.py:691-727 | A first attempt writes the whole batch at HEAD exactly when HEAD resolves, the files are clean and tracked, and the rows fit the recovery window |
| CheckpointSteps.ResumableIsRecoverable | scripts/_mark_batch_covered.py:709-727 | Because a whole batch must fit the recovery margin before its first row is written, a batch whose records end the logs is read back in full whatever precedes it |
| CheckpointSteps.CollectPrefix | scripts/_mark_batch_covered.py:512-543 | Any prefix of a batch's own rows is read back as evidence for exactly those files |
| CheckpointSteps.CollectOnlyOwn | scripts/_mark_batch_covered.py:512-543 | The evidence for a batch depends on that batch's rows only |
| Checkpoint.RunDirectory.Checkpoint | scripts/_mark_batch_covered.py:666-736 | The command over the mutable run directory, stopped after any durable write, ends in the state and outcome of the value-level attempt the run theorems are about |
| Checkpoint.RunDirectory.Check | scripts/_mark_batch_covered.py:669-726 | The read-only checks decide what is to be written or refuse, without writing |
| Checkpoint.RunDirectory.AppendSnapshots | scripts/_mark_batch_covered.py:437-459 | Line appends that may stop part way leave a prefix of the new lines behind the old log |
| Checkpoint.RunDirectory.AppendEvents | scripts/_mark_batch_covered.py:437-459 | The same for the event ledger |
| Checkpoint.VerifyOrPrepare | scripts/_mark_batch_covered.py:553-574 | Returns a head exactly when one is admissible: the single recorded head, resolving to itself, or a clean HEAD, with every file an exact object there and every recorded blob matching |
| Checkpoint.PreparedExactlyWhen | scripts/_mark_batch_covered.py:553-574 | The head that is admissible: every file is an exact object there, every recorded row names that head and the blob it holds, and it is today's HEAD with unchanged files when nothing is recorded and a head that still resolves to itself otherwise |
| Checkpoint.RequireHeadClean | scripts/_mark_batch_covered.py:407-416 | The chunked status calls together accept exactly when no file of the batch is locally changed |
| Checkpoint.EventExists | scripts/_mark_batch_covered.py:499-509 | Finds an event exactly when some ledger record is a well-formed coverage event of the batch |
| Checkpoint.TotalSize | scripts/_mark_batch_covered.py:709-726 | Accepts exactly when every line and the whole batch fit the recovery window |
| CheckpointBytes.VisibleIsTheByteWindow | scripts/_mark_batch_covered.py:109-155 | On a cleanly appended log the byte-level tail reader returns exactly the records of the window the checkpoint model uses |
| CheckpointBytes.FittingRowsAreReadBack | scripts/_mark_batch_covered.py:709-727 | Rows that pass the size check before the first write are read back in full by the byte-level reader, whatever bytes precede them and behind the torn tail of a next append |
| CheckpointBytes.EveryRunVerifies | scripts/_mark_batch_covered.py:577-663 | For the ledger and snapshot bytes of every reachable state, torn tails included, the condition of the byte-level verification holds, and what it returns is exactly the covered batches' files, in order of batch, each at the HEAD of the batch's first durable row with the blob that commit holds |
| CheckpointBytes.VerifyRunDirectory | scripts/_mark_batch_covered.py:577-663 | `verify_run_coverage` on the bytes a run of checkpoint commands left succeeds and returns exactly those records |
| TornRetry.TornRetryIsFatal | scripts/_mark_batch_covered.py:674-736 | A retry that writes rows behind whatever a stopped append left always marks the batch covered, and verification of the run then succeeds if and only if the snapshot log ended in a newline when the retry started; if it did, the retry is the attempt proved correct, and if not, its first row is lost and the batch is stuck |
| TornRetry.StuckRefuses | scripts/_mark_batch_covered.py:677-685 | Every attempt on a covered batch that lost a file's row refuses and writes nothing, whatever HEAD, the work tree and the windows are |
| TornRetry.StuckForever | scripts/_mark_batch_covered.py:666-736 | No run of commands repairs such a batch, whatever suffix of the logs the windows of each command show |
| TornRetry.StuckFailsVerification | scripts/_mark_batch_covered.py:615-630 | Such a batch fails the verification of the whole run while the ledger window shows its event |
| TornRetry.TornLedgerIsRepaired | scripts/_mark_batch_covered.py:604-615 | A retry that writes its event behind a torn line of the ledger marks the batch covered, verification then ignores the batch and accepts the others, and one further command on it, at any HEAD and work tree, brings the directory to where the retry would have brought it |
| OutOfSight.DecideOutOfSight | scripts/_mark_batch_covered.py:674-736 | With rows of a batch out of its window, a command refuses if the batch is covered or its event in sight; otherwise it writes the rows out of sight again at the recorded head while a row is in sight, and the whole batch at today's HEAD, if that can start it, when none is |
| OutOfSight.OnceIffInSight | scripts/_mark_batch_covered.py:674-736 | In every reachable state an attempt with room for its writes succeeds or refuses without a write, and when it succeeds the batch has one row for each file and one event if and only if all its records were in sight |
| Coverage.VerifyRunCoverage | scripts/_mark_batch_covered.py:577-663 | On arbitrary ledger and snapshot bytes the grouped verification succeeds exactly when recon.json is well formed and every batch on both surfaces is individually certified, and then returns their rows |
| Coverage.CoverageIsSound | scripts/_mark_batch_covered.py:577-663 | In every disk state the returned records are exactly the files of the batches on both surfaces, once each, every one with the blob its recorded commit holds and a log row that recorded it |
| Coverage.VerifiedRowsNameObjects | scripts/_mark_batch_covered.py:646-663 | Every returned record names a commit that resolves to itself and a blob or gitlink of its tree, with that entry's object ID |
| Coverage.SnapshotRecords | scripts/_mark_batch_covered.py:512-543 | The dictionary loop collects the evidence of one batch or fails |
| Coverage.CollectMeaning | scripts/_mark_batch_covered.py:512-543 | Evidence exists exactly when all rows of the batch are usable and no two of one file disagree, and then holds what they say for allowed files only |
| Coverage.UsableIsWritten | scripts/_mark_batch_covered.py:523-537 | A row is usable exactly when it has schema 1, an allowed file and two object IDs of one hash size |
| Coverage.LedgerCovered | scripts/_mark_batch_covered.py:604-613 | The planned batches that some well-formed ledger event covers |
| Coverage.EventNames | scripts/_mark_batch_covered.py:499-509 | An event covers a batch exactly when it names it by a positive integer under `batch` or, without that field, under `id` |
| Coverage.GatherSnapshots | scripts/_mark_batch_covered.py:619-637 | Succeeds exactly when every covered batch has a complete snapshot set at one head, and groups the files by that head |
| Coverage.LookUpHeads | scripts/_mark_batch_covered.py:639-644 | Succeeds exactly when every recorded head resolves to itself and holds all its files as exact objects |
| Coverage.EmitVerified | scripts/_mark_batch_covered.py:646-663 | Emits every batch's rows exactly when each recorded blob is the one looked up at its head |
| Coverage.MatchesMeansCertified | scripts/_mark_batch_covered.py:639-653 | After the lookup grouped by head, a batch matches the shared blob table exactly when its own certificate holds |
| Coverage.UnservedMeansUncertified | scripts/_mark_batch_covered.py:639-644 | A head that cannot be served means some batch at that head is not certified, so grouping rejects no run that one lookup per batch would accept |
| GitObjects.PathChunks | scripts/_mark_batch_covered.py:360-374 | The chunks are the greedy packing under the path-count and byte limits, concatenate to the files and are never empty |
| GitObjects.ChunksAreSmall | scripts/_mark_batch_covered.py:360-374 | A chunk holds at most 200 paths, and more than one only if they take at most 32000 bytes |
| GitObjects.BlobOids | scripts/_mark_batch_covered.py:377-404 | The chunked lookup succeeds exactly when every file is a tracked blob or gitlink with a valid object ID, and returns the commit's objects |
| GitObjects.TakeRecords | scripts/_mark_batch_covered.py:382-401 | Records of one chunk extend the table exactly when each is a blob or gitlink with a valid object ID |
| GitObjects.ValidOidPrintsAHash | scripts/_mark_batch_covered.py:41 | An object ID is accepted exactly when it is the lower-case hexadecimal form of a hash of 20 or 32 bytes |
| GitObjects.GroupedLookupAgrees | scripts/_mark_batch_covered.py:377-404 | One lookup for the concatenation of several batches succeeds exactly when each batch's own lookup does, with the same blobs |
| JsonlTail.ReadJsonlTail | scripts/_mark_batch_covered.py:109-155 | The reader over bytes returns the parsable committed lines of its window |
| JsonlTail.TailIsCommittedSuffix | scripts/_mark_batch_covered.py:109-155 | Whatever the file holds, the records are the parse of a line-aligned stretch that reaches the last newline and is no longer than the window |
| JsonlTail.BreaksAreAlike | scripts/_mark_batch_covered.py:138-155 | A carriage return, with or without a newline behind it, ends a line of the reader as a newline does |
| JsonlTail.SkippedLines | scripts/_mark_batch_covered.py:138-155 | A line that is empty or over the line limit is skipped, whatever it would parse to |
| JsonlTail.FinalBlockRecovered | scripts/_mark_batch_covered.py:709-727 | Any final block of writer lines within the recovery margin is recovered whole, behind any earlier content and even behind a torn tail shorter than one line limit |
| JsonlTail.WholeLogReadBack | scripts/_mark_batch_covered.py:419-459 | A log that fits the window, with or without a torn tail, reads back as exactly the records written |
| JsonlTail.RetryAfterTornAppend | scripts/_mark_batch_covered.py:109-155 | When no record parses behind a stopped append's fragment, all records of a retry are read back if and only if the log ended in a newline when it started; otherwise exactly the first one is lost |
| JsonlTail.RecordLostBehindATornLine | scripts/_mark_batch_covered.py:138-155 | At an input: an object appended behind a lone brace is lost, and appended to an empty log is read back |
| JsonlTail.WindowOfWholeLines | scripts/_mark_batch_covered.py:109-155 | On whole lines the byte window is a suffix of lines; a cut window gives up one byte to the line it starts in |
| ReconValidation.ValidateReconPlan | scripts/_mark_batch_covered.py:288-349 | The batch-by-batch checks accept exactly the documents that are well formed as a whole: distinct ids, globally distinct files, optional fields of the right kind, totals and limits, covered ids known and distinct |
| ReconValidation.CheckBatch | scripts/_mark_batch_covered.py:301-334 | One round with its running totals accepts exactly when the longer prefix is valid |
| ReconValidation.OptionalFieldsAre | scripts/_mark_batch_covered.py:322-327 | In an accepted document `dir`, `tier` and `deferred` of a batch may be replaced exactly by nothing or by a text, one of the three tiers and a boolean |
| ReconValidation.CountsAre | scripts/_mark_batch_covered.py:330-341 | In an accepted document the two counts may be replaced exactly by nothing or by the number of batches and of files |
| Paths.ValidPathLeadsToItself | scripts/_mark_batch_covered.py:269-285 | A file path is accepted exactly when, walked from the root of the repository, it leads to itself below that root, and is printable and at most 4096 bytes long |
| Paths.Utf8IsShortest | scripts/_mark_batch_covered.py:279-284 | The length limited is that of UTF-8: a character takes the fewest bytes whose payload holds its code point, and lengths add up |
| ReconValidation.AcceptedFilesAreDisjoint | scripts/_mark_batch_covered.py:288-349 | In an accepted plan every batch has a nonempty duplicate-free file list and no file is in two batches |
| ReconValidation.PlanPassesValidation | scripts/_mark_batch_covered.py:288-349 | A plan built by the planner passes the checkpoint's validator exactly when its paths are valid and the hard limits hold |
| ReconPlan.BuildPlan | bench/scorer/recon_plan.py:235-366 | The mutating packer over the directory groups builds the plan the lemmas below describe, whatever the input order |
| ReconPlan.Packer.PackDirectory | bench/scorer/recon_plan.py:337-352 | Packing one directory appends its greedy partition as numbered batches and records its unknown and oversized files |
| ReconPlan.Packer.Place | bench/scorer/recon_plan.py:337-351 | Placing one path keeps the closed batches and the open group on course to the greedy partition |
| ReconPlan.Packer.Flush | bench/scorer/recon_plan.py:303-331 | Closing the open group appends one numbered, tiered record and empties the group |
| ReconPlan.PackDirectories | bench/scorer/recon_plan.py:294-352 | The loop over the ordered directories appends every directory's partition, in order, with consecutive ids |
| ReconPlan.GroupByDirectory | bench/scorer/recon_plan.py:283-286 | The dictionary holds, for each top-level directory and no other, its paths in order |
| ReconPlan.NormalizedFileSizes | bench/scorer/recon_plan.py:186-204 | Every file gets a size or an explicit unknown |
| ReconPlan.PlanIsOrderedPartition | bench/scorer/recon_plan.py:275-366 | The batches concatenate to the in-scope files sorted by tier, directory and path, each exactly once |
| ReconPlan.TiersComeInOrder | bench/scorer/recon_plan.py:143-166 | In the plan each batch holds files of one first-level directory; every file under a sink hint comes before all others, every file under a low hint alone after them, whatever the case of their names, and within a tier the directories are in dictionary order |
| ReconPlan.TierIs | bench/scorer/recon_plan.py:143-166 | A path is critical exactly when its first segment is a sink hint in any case, low exactly when it is a low hint instead, and normal otherwise, files in the root included |
| ReconPlan.LimitsAre | bench/scorer/recon_plan.py:176-204 | A size counts exactly when it is a number from 0 up, a cap when it is a positive integer, with 25 files and 128 KiB otherwise, and large mode starts behind the threshold |
| Sorting.LexIsDictionaryOrder | bench/scorer/recon_plan.py:275-281 | The order of paths is the dictionary order by code point |
| ReconPlan.PlanIgnoresInputOrder | bench/scorer/recon_plan.py:275-281 | The in-scope set, and with it the plan, does not depend on the order or repetition of the input |
| ReconPlan.BatchesAreNumberedAndBounded | bench/scorer/recon_plan.py:303-331 | Ids are consecutive from 1, each batch is within both caps or a flagged singleton, and exactly the ids past the first-pass cap are deferred in large mode |
| ReconPlan.PlanIsOptimalPerDirectory | bench/scorer/recon_plan.py:303-352 | No order-preserving partition of a directory that respects the caps and the isolation of unknown and oversized files has fewer batches than the plan |
| Packing.GreedyIsOptimal | bench/scorer/recon_plan.py:333-352 | The greedy partition has the fewest parts among all legal order-preserving partitions |
| Packing.GreedyIsLegal | bench/scorer/recon_plan.py:333-352 | The greedy partition is legal: within the caps, with unknown and oversized items alone |
| Lifecycle.RunFiles.InitializeCloseout | scripts/_terminal_lifecycle.py:181-194 | Creates the marker once, for its own directory, and otherwise only confirms an equal or later stage |
| Lifecycle.RunFiles.AdvanceCloseout | scripts/_terminal_lifecycle.py:197-213 | Moves an own nonterminal marker to the next stage only |
| Lifecycle.RunFiles.WriteTerminalReceipt | scripts/_terminal_lifecycle.py:216-232 | Writes the receipt, then the marker, and may stop in between; a repeated call must name the same outcome |
| Lifecycle.RunFiles.RecordAbsenceObservation | scripts/_terminal_lifecycle.py:235-250 | Records an absence once, of a worktree that is gone or was never named, and only confirms an equal one |
| Lifecycle.RunFiles.RecoverAbsentResources | scripts/_terminal_lifecycle.py:253-265 | The replay loop terminates by its stage and performs the remaining single advances, stopping after any of them |
| Lifecycle.RunFiles.ReadRunStatus | scripts/_terminal_lifecycle.py:268-299 | Reports the reconciled status of the three files |
| Lifecycle.CommandsSucceedExactly | scripts/_terminal_lifecycle.py:181-265 | Each command refuses, and writes nothing, exactly when its own demand on the files and on what it was told is not met; otherwise it is done, with its record made, exactly when it is not stopped before its last write |
| Lifecycle.OnlyAdmissibleCommandsWrite | scripts/_terminal_lifecycle.py:181-265 | However early it stops, a command changes something only if it is admissible, and then only its own record: the absence record, the receipt or the marker |
| Lifecycle.RecordsWereReadBack | scripts/_terminal_lifecycle.py:235-265 | Over every run, an absence record that the start did not have was made by a command of its identity that was told the worktree is gone or names none, and only commands that are not themselves refused for missing absences move the marker |
| Lifecycle.PresentWorktreeIsRefused | scripts/_terminal_lifecycle.py:239-241 | A command told that its worktree is still there, or a replay told of one absence only, refuses and writes nothing |
| Lifecycle.ForeignDirectoryIsRefused | scripts/_terminal_lifecycle.py:127-135 | A state that names another directory is refused by every command and reported as invalid |
| Lifecycle.PendingExactlyWhen | scripts/_terminal_lifecycle.py:268-299 | A pending stage is reported exactly for an own marker at that stage without a receipt, or as RECEIPT_PENDING for a completion that something blocks |
| Lifecycle.CommandsWriteLegally | scripts/_terminal_lifecycle.py:181-265 | Every command, wherever it stops, is a sequence of single legal writes: creation, one nonterminal step, a receipt at RECEIPT_PENDING, the marker taking the receipt's outcome, or an absence record |
| Lifecycle.WriteIsSafe | scripts/_terminal_lifecycle.py:197-232 | Each legal write keeps the invariant, changes nothing already recorded, and moves the stage by one or from RECEIPT_PENDING to an outcome |
| Lifecycle.EveryRunIsSafe | scripts/_terminal_lifecycle.py:181-265 | Over every run, with crashes and foreign identities, the stage never goes back, identity, receipt and absence never change, and the receipt agrees with the marker |
| Lifecycle.OutcomesNeverDisagree | scripts/_terminal_lifecycle.py:216-232 | Two different outcomes can never both be recorded in the states of one run |
| Lifecycle.VerifiedMeansEverythingAgrees | scripts/_terminal_lifecycle.py:268-299 | Verified completion is reported exactly when marker, receipt, absence record and identity agree, the worktree is gone and nothing blocks it |
| Lifecycle.CompletableUnlessForeignAbsence | scripts/_terminal_lifecycle.py:235-265 | A reachable crash state can be driven to verified completion if and only if its absence record is missing or carries the marker's identity |
| Lifecycle.FinishCompletes | scripts/_terminal_lifecycle.py:253-299 | One fixed command sequence completes every such state with the outcome already recorded, or the chosen one |
| Lifecycle.ForeignAbsenceIsStuck | scripts/_terminal_lifecycle.py:235-250 | A two-command run that no later command can complete |
| Budget.CheckCaps | bench/provider_proxy.py:114-141 | Accepts exactly the consistent caps and listen port |
| Budget.PolicyBounds | bench/provider_proxy.py:114-141 | What an accepted policy bounds: request and response sizes, requests at once and the port; the reservation is within the spend cap and nothing without one, and no cost or charge is negative |
| Budget.BudgetLedger.Admit | bench/provider_proxy.py:189-207 | Admits and reserves exactly when every cap allows it, and changes nothing otherwise |
| Budget.AdmitsExactlyWithinCaps | bench/provider_proxy.py:189-207 | A request is admitted exactly when the ledger with its reservations added is within every cap, and that is the ledger it leaves |
| Budget.FirstRequestIsAdmitted | bench/provider_proxy.py:114-254 | Under an accepted policy the first request that can be normalized is admitted, unless the policy allows no turns |
| Budget.BudgetLedger.Settle | bench/provider_proxy.py:209-228 | Releases the reservation of an outstanding ticket and charges at least as much, keeping the ledger's invariant, and reports usage, estimate, charge and overshoot |
| Budget.CostIsByTheMillion | bench/provider_proxy.py:209-213 | A million input tokens cost the input rate and a million output tokens the output rate |
| Budget.CostsAdd | bench/provider_proxy.py:209-213 | Costs add up over tokens of either kind |
| Budget.ChargedIs | bench/provider_proxy.py:209-213 | The estimate is charged exactly when usage is certain, both counts and rates are known and it exceeds the reservation; otherwise the reservation is |
| Budget.OvershootIs | bench/provider_proxy.py:222 | The reported overshoot is the least amount the spend cap would have to grow by to hold what is settled and reserved, and 0 without a cap |
| Budget.CountersMatchTickets | bench/provider_proxy.py:181-228 | Over every interleaving of calls, counters and reservations are those of the outstanding tickets exactly when no ticket was settled twice, turns stay within the cap, and each repeated settlement lets one more request past the inflight cap |
| Budget.ServeIsPlay | bench/provider_proxy.py:284-336 | What concurrent handlers do to the ledger is the interleaving of their calls, each admission reserves what normalization fixed, and a ticket is settled a second time exactly once for each failed write to a client |
| Budget.CountersMatchUnlessAWriteFails | bench/provider_proxy.py:284-336 | Over every interleaving of requests, the counters match the waiting requests if and only if no write to a client failed after its settlement, and each such failure lets one more request past the inflight cap |
| Budget.FailedClientWriteBreaksTheCap | bench/provider_proxy.py:324-334 | At an input: under an inflight cap of one, any request that fits the body limit is sent twice at once after an earlier answer could not be written |
| Budget.SpendCapHolds | bench/provider_proxy.py:189-228 | Settled plus reserved money, and so the reported overshoot, exceeds the spend cap by at most the excess charges of settlements since the last admission, of tickets among the at most `max_inflight_requests` open right after it |
| Budget.MoneyIsConserved | bench/provider_proxy.py:189-228 | Settled plus reserved money is one reservation per admitted turn plus every excess charge, in all traces |
| Budget.TokenCapsHold | bench/provider_proxy.py:198-222 | Token totals stay within their caps while no usage exceeds its reservation |
| Budget.NormalizeRequest | bench/provider_proxy.py:231-254 | Accepts exactly the normalizable requests; what is sent is within the byte and input caps and, under an output cap, asks for and reserves exactly that cap |
| Budget.OutputCapSerializes | bench/provider_proxy.py:189-254 | Under a nonzero output cap one request runs at a time, and a next one is admitted exactly when none is open, no output was ever charged and the other caps allow it |
| Allocation.Allocate | bench/scorer/calibration.py:48-61 | The round robin terminates with total min(target, population), each stratum filled to a common water level |
| Allocation.Round | bench/scorer/calibration.py:51-59 | One pass raises every unsaturated stratum by one until the target is reached |
| Allocation.FilledIsBalanced | bench/scorer/calibration.py:47-61 | Each stratum gets between one and its population, and an unsaturated one is at most one below any other |
| Allocation.FilledIsUnique | bench/scorer/calibration.py:47-61 | The total determines the allocation |
| Allocation.LargerStrataGetNoLess | bench/scorer/calibration.py:50-59 | In rank order a larger stratum never gets less than a smaller one |
| Sampling.FreezeSample | bench/scorer/calibration.py:41-81 | Succeeds exactly for unique nonempty ids, and the sample has the target size (`SampleSizeIs` says what that is), covers every stratum fairly, draws without repetition and records each stratum's sampled share as its inclusion probability |
| Sampling.AllocationIsDetermined | bench/scorer/calibration.py:47-61 | Two samples of one frame differ in what was drawn alone: each stratum contributes equally many, ties by size going to the earlier key |
| Sampling.SampleSizeIs | bench/scorer/calibration.py:47-50 | A frame of at most the minimum is sampled whole; from a larger one at least the minimum is sampled, and more than it only when every stratum contributes exactly one |
| Sampling.GroupByStratum | bench/scorer/calibration.py:44-46 | The dictionary partitions the frame by stratum |
| Sampling.AllocateStrata | bench/scorer/calibration.py:47-61 | The allocation over the ranked strata sums to the target, which `SampleSizeIs` describes, and is fair |
| Sampling.SizesTotal | bench/scorer/calibration.py:44-46 | The stratum sizes add up to the frame |
| Sampling.InverseProbabilitiesRestoreThePopulation | bench/scorer/calibration.py:62-76 | The sampled inverse inclusion probabilities add up to the population, per stratum and overall |
| Rates.WeightedRate | bench/scorer/calibration.py:162-170 | Defined exactly for nonempty rows with positive probabilities, with 0 <= lower <= upper <= 1 and an estimate exactly when the bounds meet |
| Rates.WeightIsInverse | bench/scorer/calibration.py:162-170 | A row with a positive probability weighs its inverse, and any other row nothing |
| Rates.RowStandsForMany | bench/scorer/calibration.py:162-170 | A row drawn with probability 1/k weighs as much as k rows that were certain to be drawn |
| Rates.BoundsCoverCompletions | bench/scorer/calibration.py:162-170 | Every completion of the unresolved labels has a single rate between the bounds, and each bound is the rate of some completion |
| Rates.SortDominates | bench/scorer/calibration.py:223-224 | Sorting two lists separately keeps one below the other at every rank |
| Rates.EndpointsAreOrdered | bench/scorer/calibration.py:225-230 | The four endpoints are ordered both ways and within the range of the replicates |
| Rates.IndicesAreTheTails | bench/scorer/calibration.py:225-230 | The endpoints are the replicates at rank 2.5% and 97.5% of n - 1, rounded down |
| Bootstrap.ClusterBootstrapInterval | bench/scorer/calibration.py:186-230 | Gives an interval exactly for at least one repetition and two clusters, computed from every replicate, ordered and within [0, 1] |
| Bootstrap.DrawReplicate | bench/scorer/calibration.py:205-217 | The cached draws give the same replicate as drawing anew for each stratum |
| Bootstrap.DrawingEachOnceGivesTheSample | bench/scorer/calibration.py:195-217 | Strata and clusters partition the rows: a replicate that draws each cluster of each stratum once holds exactly the rows of the sample |
| Bootstrap.PairedClusterBootstrapDifference | bench/scorer/calibration.py:233-285 | Gives an interval exactly for a shared census of at least two clusters, ordered and within [-1, 1], and always the number of shared clusters, which is 0 when a stratum shares none |
| Bootstrap.DrawPaired | bench/scorer/calibration.py:261-268 | Both arms of a paired replicate use the same draws |
| Bootstrap.PairedClustersAre | bench/scorer/calibration.py:235-248 | The clusters counted are exactly those of which both arms have a row with a positive probability in a common stratum |
| Bootstrap.SensitivityCoversCompletions | bench/scorer/calibration.py:186-230 | Whatever the unresolved labels turn out to be, the interval of the resolved rows has its low end between `low` and `sensitivity_low` and its high end between `high` and `sensitivity_high` |
| Bootstrap.SensitivityCoversDifferences | bench/scorer/calibration.py:233-285 | The same for the difference of two arms: whatever the unresolved labels of a shared census turn out to be, the interval of the resolved rows has its low end between `low` and `sensitivity_low` and its high end between `high` and `sensitivity_high` |
| Wilson.IntervalContainsTheRate | bench/scorer/score.py:136-146 | For 0 <= hits <= n and n > 0, 0 <= low <= hits/n <= high <= 1 holds if and only if z >= 0 |
| Wilson.NegativeZSwapsTheEnds | bench/scorer/score.py:136-146 | At an input: no hit in one trial at z = -1 gives the interval from 1/2 down to 0 |
| Wilson.IntervalIsTheScoreTest | bench/scorer/score.py:136-146 | For z >= 0 the interval is exactly the set of rates x with (p - x)^2 <= z^2 x (1 - x) / n |
| Labels.ResolveLabels | bench/scorer/calibration.py:125-159 | Accepts exactly valid labels and adjudications, and gives every packet its status, the number of its primary reviewers, their time and whether they disagreed |
| Labels.AcceptedExactly | bench/scorer/calibration.py:125-144 | What is accepted, in terms of the rows alone: complete primary rows of known packets, at most two for each and never two by one reviewer, and complete adjudications, at most one for each packet, by a reviewer who did not vote on it, of two votes that share no verdict or are `unverifiable` |
| Labels.TimeIsKept | bench/scorer/calibration.py:145-158 | For different packets the seconds reported add up to the seconds of all rows: no reviewer's time is lost or counted twice |
| Labels.StatusMeans | bench/scorer/calibration.py:145-158 | A packet is adjudicated with a verdict exactly when an adjudication gives it that verdict, and agreed on one exactly when, without adjudication, it has two votes, both for that verdict, which is not `unverifiable` |
| Labels.GroupLabels | bench/scorer/calibration.py:127-134 | Accepts exactly valid primary labels, at most two for each packet and by different reviewers |
| Labels.GroupAdjudications | bench/scorer/calibration.py:135-144 | Accepts exactly one adjudication at most for each genuine disagreement, by a third reviewer |
| Labels.ValidPayloadLabels | bench/scorer/evaluation.py:212-233 | Accepts exactly the payloads whose every candidate has two independent votes and an outside decision if and only if they disagree |
| Labels.PayloadAcceptedExactly | bench/scorer/evaluation.py:212-233 | What is accepted, in terms of the rows alone: each candidate has exactly two votes, by two reviewers, and no decision if they settle it, exactly one by a third reviewer if they do not |
| Labels.CheckersAgree | bench/scorer/evaluation.py:212-233 | For what `resolve_labels` accepts, in any interleaving, the payload rules hold exactly when every packet resolves as agreed or adjudicated |
| Schedule.BuildSchedule | bench/harness.py:206-239 | The schedule is the sorted product of hosts, cases, repetitions and context cells |
| Schedule.ScheduleGoesInOrder | bench/harness.py:239 | The schedule goes host by host, case by case and repetition by repetition |
| Schedule.ExecutionOrder | bench/harness.py:242-254 | The order numbers a shuffle of every slot, arm and block from 1 |
| Schedule.ValidateExecutionOrder | bench/scorer/evaluation.py:82-107 | Accepts exactly the orders that bind each key of the schedule once, with ordinals 1..n |
| Schedule.FrozenOrderIsAccepted | bench/harness.py:206-273 | For distinct hosts, cases, arms, blocks and cells, and any shuffle, the frozen order passes the reducer's checker |
| Schedule.AcceptedOrderIsABijection | bench/scorer/evaluation.py:82-107 | An accepted order has ordinals exactly 1..n, and it runs exactly the scheduled slots, arms and blocks, each as often as scheduled, if and only if no two of them share a key |
| Schedule.AcceptedSlotsAreSealed | bench/scorer/evaluation.py:88-107 | Every slot of an accepted order is, its digests included, what `execution_order` writes for its entry at its ordinal, of 1..n |
| Schedule.NoDuplicateSlot | bench/scorer/evaluation.py:305-320 | The reducer's own pass over the schedule accepts exactly distinct keys |
| Schedule.BuiltScheduleRunsExactly | bench/harness.py:206-254 | For a schedule built from distinct hosts, cases, arms, blocks and cells, every order the checker accepts is a bijection onto slot x arm x block with ordinals 1..n |
| Schedule.DuplicateSlotRunsOnce | bench/scorer/evaluation.py:88-107 | At an input: a slot scheduled twice passes the checker with an order that runs it once |
| Pipeline.NormalizeStageBlocks | bench/_stages.py:13-41 | Accepts exactly lists of blocks with distinct ids and lineages in stage order that include the full control and end in synthesis unless they are Hunter alone |
| Pipeline.NormalExactlyWhen | bench/_stages.py:13-41 | A list is normal exactly when its blocks have different ids and different chains of the five legal ones, the full control among them |
| Pipeline.ParseCandidates | bench/_stages.py:102-126 | Accepts exactly at most 1000 valid items with distinct ids, and keeps them all in order |
| Pipeline.RunPipelineStages | bench/harness.py:664-738 | The stage loop records the chain the results below are about |
| Pipeline.CompletedThenErrors | bench/harness.py:714-738 | For every sequence of native messages the lifecycles are a run of completed followed only by errors |
| Pipeline.CompletedChainIsFaithful | bench/harness.py:664-738 | A fully completed chain has pairwise different sessions, the context session included, answers the Hunter's claims at every stage (`EveryClaimIsAnswered` says how), and passes the importer with the same assessments |
| Pipeline.EveryClaimIsAnswered | bench/_stages.py:90-99 | In every chain that completes or is imported, each stage has, for each of the Hunter's claims, one candidate with the same id, file, location and line, and no other candidate |
| Pipeline.AnswersExactlyWhenPlacesMatch | bench/_stages.py:90-99 | For lists with unique ids, the check of the id-to-location maps accepts exactly the responses that answer each of the Hunter's claims at its place and nothing else |
| Pipeline.InputShowsExactly | bench/_stages.py:44-58 | A stage is shown the Hunter's claims with their grounds and without their verdicts, and only Synthesis the Skeptic's and the Referee's assessments |
| Pipeline.StageCompletesExactly | bench/harness.py:678-738 | A stage of the runner completes exactly when its response holds at most 1000 valid candidates with unique ids that answer the Hunter's claims, in a session not seen before, from valid sources and prompt, and every stage before it completed |
| Pipeline.ReadStageChain | bench/scorer/harness_results.py:56-122 | The importer returns the assessments exactly when every record binds in the replay |
| Pipeline.StageBindsExactly | bench/scorer/harness_results.py:70-122 | A recorded stage binds exactly when it says that it completed without a reason, for this stage, session and input, and its raw message is admissible in its turn by the rules of the runner |
| Pipeline.ReplayIsFaithful | bench/scorer/harness_results.py:70-122 | Whatever is recorded, an accepted chain has different sessions and answers the Hunter's claims at every stage (`EveryClaimIsAnswered`) |
| Pipeline.ReplayAgrees | bench/scorer/harness_results.py:70-122 | The importer accepts the runner's records exactly when every stage completed, and rebuilds the same assessments |
| ManagedLoop.InvokeAllManaged | bench/harness.py:1149-1222 | The loop over the frozen order and the two documents behind it: both are written, with the receipts and records of the value-level run, exactly when nothing escapes the loop and their writing succeeds; otherwise, or after a kept interruption, it raises |
| ManagedLoop.TrySlot | bench/harness.py:1161-1191 | The try block of a slot: how far it gets, how it ends and with which receipt |
| ManagedLoop.RunSlot | bench/harness.py:1149-1212 | One slot with what precedes its try block and the try, except and finally parts, any step of which may fail, be interrupted or fail in a way no handler names |
| ManagedLoop.EveryRunIsAccountable | bench/harness.py:1149-1212 | Every slot gets one receipt and one record, in order, if and only if nothing escapes the loop; in every run the recorded slots have each attempted proxy recorded as stopped or cleanup-pending, invoked proxies differ, a proxy is started only when all earlier ones are recorded as stopped, and nothing starts after a pending cleanup or an interruption |
| ManagedLoop.RecordsAreTrue | bench/harness.py:1159-1212 | In every run each recorded slot's record says what its script did: started exactly when the start command was reached and succeeded, stopped exactly when it was reached and the stop of an existing proxy receipt succeeded, cleanup-pending exactly when it was reached and the stop did not succeed or a started proxy left no evidence, and a receipt of an invocation exactly when every step to its end succeeded on a proxy not seen before |
| ManagedLoop.SlotEndsExactly | bench/harness.py:1149-1212 | A slot is lost without records exactly when its preparation, the stop of a reached proxy with its receipt there, the evidence of a started one or the writing of the receipt ends in something no handler names; otherwise it keeps its records, and the loop is left behind them exactly when it invoked nothing and its except clause did not finish |
| ManagedLoop.RunsOnExactlyWhen | bench/harness.py:1149-1212 | A run is left for good exactly when some slot ends in one of these ways |
| ManagedLoop.HaltedExactlyWhen | bench/harness.py:1182-1212 | In every run the loop is halted exactly when some recorded slot left its proxy uncertain or was interrupted with its except clause finished |
| ManagedLoop.StartsOnlyAfterGoodStops | bench/harness.py:1162-1212 | A slot reaches its start command only if in every earlier one that did the proxy's receipt existed, the stop succeeded and a started proxy left its evidence |
| ManagedLoop.WhereTheLoopIsLeft | bench/harness.py:1149-1212 | When something escapes, the slots before that one keep their receipts and records, that one has both only if it was the except clause that did not finish, and no later slot has either |
| ManagedLoop.InterruptedStopLosesTheSlot | bench/harness.py:1192-1212 | At an input: one slot whose every step is fine but for an interruption of the stop has started its proxy and has neither receipt nor record |
| ManagedLoop.HaltedStartsNothing | bench/harness.py:1162-1163 | Once halted, every later slot gets an error receipt and starts nothing, as does a slot that is lost |
| Registration.RewriteIsIdempotent | scripts/installer_helper.py:34-53 | A successful rewrite is a fixed point if and only if the skill root contains neither marker; otherwise the next rewrite refuses |
| Registration.MarkerInRootIsRefused | scripts/installer_helper.py:34-53 | At an input: a skill root below a directory named like the opening marker is registered once and then refused |
| Registration.OutsideIsPreserved | scripts/installer_helper.py:34-53 | Every byte outside the owned block is preserved, for every root and file |
| Registration.RewriteSucceedsExactly | scripts/installer_helper.py:34-53 | For a clean root the rewrite succeeds on exactly three forms: no block, one current block, one legacy block |
| Registration.AppendedOnItsOwnLine | scripts/installer_helper.py:37-38 | A new block starts on a line of its own behind the whole file, and a newline is added only where one is missing |
| Registration.CurrentIsUnchanged | scripts/installer_helper.py:43-49 | A file with the current block is returned unchanged |
| Registration.LegacyIsUpgraded | scripts/installer_helper.py:50-53 | A legacy block is replaced by the current one |
| Registration.LegacyIs | scripts/installer_helper.py:30-31 | For a clean root the legacy form is the block without its closing marker line |
| Recovery.Filesystem.RecoverTransaction | scripts/installer_helper.py:119-188 | Recovery over the mutable paths, stopped before any of its moves, ends in the state and outcome of the value-level recovery that the results below are about |
| Recovery.Filesystem.Rename | scripts/installer_helper.py:113-116 | A rename happens only onto a free path |
| Recovery.RecoveryConverges | scripts/installer_helper.py:119-188 | From every point of the install, a cut-short copy of the instructions or metadata step included, after any number of interrupted recoveries, an uninterrupted one restores the original tree or its absence and leaves the new tree at the stage; the instructions are as before if and only if their backup is absent or whole, and their text is never lost |
| Recovery.CutShortBackupIsPutBack | scripts/installer_helper.py:157-176 | At an input: recovery from an empty copy of the instructions reports success and leaves them empty, with their text aside |
| Recovery.NothingIsLost | scripts/installer_helper.py:113-188 | From any state of the paths, wherever it stops, every content stays at as many paths as before, but for an exactly owned new instructions file |
| Recovery.RecoversExactlyWhen | scripts/installer_helper.py:138-188 | An uninterrupted recovery succeeds from any state if and only if the paths present tell the two trees apart and the instructions can be put back |
| Recovery.AmbiguousIsLeftAlone | scripts/installer_helper.py:142-156 | When the paths present do not tell which tree is which, recovery refuses and moves nothing, the instructions included |
| Recovery.CommittedIsLeftAlone | scripts/installer_helper.py:137-140 | Once the journal says completed, no number of recoveries, wherever they stop, moves anything, and the next one reports the commit exactly when the tree in place carries its metadata, and refuses otherwise |
| Recovery.CommittedInstallStays | scripts/installer_helper.py:137-140 | So at every point of the installer behind its commit: with each backup still there, partly or wholly removed, the new tree and the rewritten instructions stay |

## Left out

- Checkpoint: the lock-free command is modelled as sequential runs; two commands at the same time are not modelled.
- Checkpoint: the size limit of recon.json, short reads and writes, file modes, symbolic links and fsync order inside one append are replaced by whole-line durability.
- CrashRetryRefinesAtomic: stated while each command finds its batch's records inside the tail windows; `OnceIffInSight` says what an attempt does otherwise, and `OrderlyRunIsSighted` gives the runs where that cannot happen.
- CrashRetryRefinesAtomic: the object store is fixed and complete, so a commit that resolved once still resolves; garbage collection is not modelled.
- BlobOids: the record order and quoting of `git ls-tree`, subprocess limits and `MAX_GIT_OUTPUT_BYTES` are not modelled.
- ReadJsonlTail: JSON parsing is a function of the line; surrogates and duplicate keys are not modelled.
- ValidateReconPlan: ids, files and counts are of their JSON types.
- BuildPlan: `fnmatch` exclusion is a predicate of the path, and lower-casing is ASCII only; `reprioritize_recon` is not modelled.
- Lifecycle: JSON schema errors, unknown stage names, `load_state` and the digest inside the identity, which is a function of the other fields.
- Settle: the four counters of the usage report that are read after the lock is released, and floating-point rounding of money.
- CheckCaps: the host, endpoint, model and secret checks of the policy file.
- Budget: rejections before a request is normalized, credentials, and the extraction of usage from an answer; an answer over the response limit is a provider failure.
- FreezeSample: the frame digest, the echoed seed and minimum, the seed string and the first sort by id, which the later sorts make irrelevant.
- ClusterBootstrapInterval: `int(.025 * (n - 1))` is taken on exact numbers.
- WeightedRate: `_weighted_median` and `summarize_calibration` would only add easy members.
- ResolveLabels: white space outside ASCII.
- BuildSchedule: scope selection, description size and protocol validation; the selected hosts, arms, blocks and cells are inputs.
- ValidateExecutionOrder: the document digest and malformed slots; receipts are not modelled.
- ReadStageChain: the lineage, prompt, execution and raw-output digests of a record, and the context and proxy receipts.
- RunPipelineStages: the context build, prompts and files; the reason of a failed stage is one text, since only its presence matters.
- ParseCandidates: the JSON envelope and the field contract of one item, which is a parameter.
- InvokeAllManaged: a slot's own receipt file that an escaping write may have left behind, and an interruption between the two list appends, which no document shows.
- RecoverTransaction: the journal's schema and path checks and broken symbolic links.
- AfterSteps: the installer's steps are taken from install.sh:136-145, which is otherwise not part of this model.
- Registration: file encoding and the shell's temporary files.
- Docker policy, process control, mount inventories, LLM judges, report rendering, GitHub capture and the TypeScript fetchers: input and output with no relations to prove.
