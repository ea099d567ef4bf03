/**
 `invoke_all_managed` (bench/harness.py): one proxy start/invoke/stop lifecycle for every slot of the frozen
 order. Any step may fail or be interrupted; the loop accounts for every slot unless something escapes it.
 */
module ManagedLoop {
  import opened Wrappers

  /**
   How a step ends. An error that no handler around the step names, such as one of an unforeseen type, escapes
   like an interruption.
   */
  datatype Ending = Fine | Raises | Interrupts

  /**
   What the outside does for one slot, step by step: `prepare` is what precedes the try block; `check` to `invoke`
   are the try block, `check` being everything before the start, `identity` the reading of the proxy receipt and
   `profile` the materialized profile; `report` is the except clause of a slot that did not finish; `stop`,
   `evidence` and `write` are the finally block, up to both records of the slot. `sealed` says whether the proxy
   receipt exists when the finally block looks.
   */
  datatype Script = Script(prepare: Ending, check: Ending, start: Ending, identity: Ending, proxy: Option<string>,
                           profile: Ending, invoke: Ending, report: Ending, sealed: bool, stop: Ending,
                           evidence: Ending, write: Ending)

  datatype Receipt = Invoked(ordinal: nat, proxy: string) | ErrorReceipt(ordinal: nat, reason: string)

  datatype Record = Record(ordinal: nat, started: bool, stopped: bool, cleanupPending: bool)

  /**
   The coordinator's variables after some recorded slots; each receipt is also in a file of its own slot.
   `attempts` tells which of these slots reached the start command.
   */
  datatype State = State(halt: Option<string>, interrupted: bool, seen: set<string>,
                         receipts: seq<Receipt>, lifecycle: seq<Record>, attempts: seq<bool>)

  /**
   The loop after some slots. Once something has escaped it is left for good; `lost` says of a slot that was left
   before its records were made whether it had reached the start command.
   */
  datatype Loop = Running(state: State) | Left(state: State, lost: Option<bool>)

  function Initial(): State {
    State(None, false, {}, [], [], [])
  }

  /** Where the try block of a slot ends, and how. */
  datatype Attempt = Attempt(attempted: bool, started: bool, seen: set<string>, receipt: Receipt, ending: Ending)

  /** The receipt made before the try block. */
  function FirstReceipt(ordinal: nat): Receipt {
    ErrorReceipt(ordinal, "invocation_interrupted")
  }

  /** The receipt of a slot whose try block did not finish. */
  function Unfinished(ordinal: nat, ending: Ending, reason: string): Receipt {
    if ending.Interrupts? then FirstReceipt(ordinal) else ErrorReceipt(ordinal, reason)
  }

  /** An interruption may come at any step, also while a halted slot is turned away. */
  function Try(s: State, ordinal: nat, c: Script): Attempt {
    if s.halt.Some? then
      var ending := if c.check.Interrupts? then Interrupts else Raises;
      Attempt(false, false, s.seen, Unfinished(ordinal, ending, s.halt.value), ending)
    else if c.check != Fine then
      Attempt(false, false, s.seen, Unfinished(ordinal, c.check, "check"), c.check)
    else if c.start != Fine then
      Attempt(true, false, s.seen, Unfinished(ordinal, c.start, "start"), c.start)
    else if c.identity != Fine then
      Attempt(true, true, s.seen, Unfinished(ordinal, c.identity, "identity"), c.identity)
    else if c.proxy.None? || c.proxy.value in s.seen then
      Attempt(true, true, s.seen, ErrorReceipt(ordinal, "reused"), Raises)
    else
      var seen := s.seen + {c.proxy.value};
      if c.profile != Fine then
        Attempt(true, true, seen, Unfinished(ordinal, c.profile, "profile"), c.profile)
      else if c.invoke != Fine then
        Attempt(true, true, seen, Unfinished(ordinal, c.invoke, "invoke"), c.invoke)
      else Attempt(true, true, seen, Invoked(ordinal, c.proxy.value), Fine)
  }

  /** The except clause was entered and did not finish: the first receipt stands and the exception goes on. */
  predicate ReportEscapes(t: Attempt, c: Script) {
    t.ending != Fine && c.report != Fine
  }

  /** Something no handler names ends the finally block before the slot's records. */
  predicate FinallyEscapes(t: Attempt, c: Script) {
    || (t.attempted && c.sealed && c.stop.Interrupts?)
    || (t.started && c.sealed && c.evidence.Interrupts?)
    || c.write != Fine
  }

  /** The state with the slot's receipt and record. */
  function Recorded(s: State, ordinal: nat, c: Script, t: Attempt): State {
    var stopped := t.attempted && c.sealed && c.stop.Fine?;
    var pending := (t.attempted && !(c.sealed && c.stop.Fine?)) || (t.started && c.sealed && !c.evidence.Fine?);
    var interrupted := t.ending.Interrupts? && c.report.Fine?;
    var halt := if interrupted then Some("coordinator_interrupted") else s.halt;
    State(if pending then Some("prior_proxy_cleanup_pending") else halt, s.interrupted || interrupted, t.seen,
          s.receipts + [if ReportEscapes(t, c) then FirstReceipt(ordinal) else t.receipt],
          s.lifecycle + [Record(ordinal, t.started, stopped, pending)], s.attempts + [t.attempted])
  }

  /** One slot of the loop. */
  function SlotStep(s: State, ordinal: nat, c: Script): Loop {
    var t := Try(s, ordinal, c);
    if c.prepare != Fine then Left(s, Some(false))
    else if FinallyEscapes(t, c) then Left(s, Some(t.attempted))
    else if ReportEscapes(t, c) then Left(Recorded(s, ordinal, c, t), None)
    else Running(Recorded(s, ordinal, c, t))
  }

  function Run(scripts: seq<Script>): Loop {
    if scripts == [] then Running(Initial())
    else
      match Run(scripts[..|scripts| - 1])
      case Left(s, lost) => Left(s, lost)
      case Running(s) => SlotStep(s, |scripts|, scripts[|scripts| - 1])
  }

  // ---- The loop as it runs ----

  /** The try block with its except clauses. */
  method TrySlot(s: State, ordinal: nat, c: Script) returns (t: Attempt)
    ensures t == Try(s, ordinal, c)
  {
    var started, startAttempted := false, false;
    var seen := s.seen;
    var receipt := FirstReceipt(ordinal);
    var ending, reason := Fine, "";
    if s.halt.Some? {
      ending, reason := if c.check.Interrupts? then Interrupts else Raises, s.halt.value;
    }
    if ending.Fine? {
      ending, reason := c.check, "check";
    }
    if ending.Fine? {
      startAttempted := true;
      ending, reason := c.start, "start";
    }
    if ending.Fine? {
      started := true;
      ending, reason := c.identity, "identity";
    }
    if ending.Fine? {
      if c.proxy.None? || c.proxy.value in seen {
        ending, reason := Raises, "reused";
      } else {
        seen := seen + {c.proxy.value};
        ending, reason := c.profile, "profile";
      }
    }
    if ending.Fine? {
      ending, reason := c.invoke, "invoke";
    }
    match ending {
      case Fine => receipt := Invoked(ordinal, c.proxy.value);
      case Raises => receipt := ErrorReceipt(ordinal, reason);
      case Interrupts =>
    }
    t := Attempt(startAttempted, started, seen, receipt, ending);
  }

  method RunSlot(s: State, ordinal: nat, c: Script) returns (after: Loop)
    ensures after == SlotStep(s, ordinal, c)
  {
    if c.prepare != Fine {
      return Left(s, Some(false));
    }
    var t := TrySlot(s, ordinal, c);
    hide Try;
    var halt, interrupted, receipt := s.halt, s.interrupted, t.receipt;
    var escaping := t.ending != Fine && c.report != Fine;
    if escaping {
      receipt := FirstReceipt(ordinal);
    } else if t.ending.Interrupts? {
      interrupted, halt := true, Some("coordinator_interrupted");
    }
    var stopped, cleanupPending := false, false;
    if t.attempted && c.sealed {
      match c.stop {
        case Fine => stopped := true;
        case Raises => cleanupPending := true;
        case Interrupts => return Left(s, Some(true));
      }
    } else if t.attempted {
      cleanupPending := true;
    }
    if t.started && c.sealed {
      match c.evidence {
        case Fine =>
        case Raises => cleanupPending := true;
        case Interrupts => return Left(s, Some(t.attempted));
      }
    }
    if c.write != Fine {
      return Left(s, Some(t.attempted));
    }
    if cleanupPending {
      halt := Some("prior_proxy_cleanup_pending");
    }
    var s' := State(halt, interrupted, t.seen, s.receipts + [receipt],
                    s.lifecycle + [Record(ordinal, t.started, stopped, cleanupPending)], s.attempts + [t.attempted]);
    after := if escaping then Left(s', None) else Running(s');
  }

  /**
   The loop and the two documents written behind it; `first` and `second` say how their writing ends. An
   interruption kept by the loop is raised again after both are written.
   */
  method InvokeAllManaged(scripts: seq<Script>, first: Ending, second: Ending)
      returns (receipts: Option<seq<Receipt>>, lifecycle: Option<seq<Record>>, pendingOrdinals: seq<nat>, raised: bool)
    ensures var end := Run(scripts);
            && receipts == (if end.Running? && first.Fine? then Some(end.state.receipts) else None)
            && lifecycle == (if end.Running? && first.Fine? && second.Fine? then Some(end.state.lifecycle) else None)
            && (raised <==> lifecycle.None? || end.state.interrupted)
    ensures lifecycle.Some? ==>
              forall n: nat :: n in pendingOrdinals <==>
                exists i :: 0 <= i < |lifecycle.value|
                            && lifecycle.value[i].ordinal == n && lifecycle.value[i].cleanupPending
  {
    hide SlotStep;
    receipts, lifecycle, pendingOrdinals, raised := None, None, [], true;
    var s := Initial();
    for i := 0 to |scripts|
      invariant Run(scripts[..i]) == Running(s)
    {
      assert scripts[..i + 1][..i] == scripts[..i] && scripts[..i + 1][i] == scripts[i];
      var after := RunSlot(s, i + 1, scripts[i]);
      if after.Left? {
        LeftStays(scripts, i + 1);
        return;
      }
      s := after.state;
    }
    assert scripts[..|scripts|] == scripts;
    if first != Fine {
      return;
    }
    receipts := Some(s.receipts);
    if second != Fine {
      return;
    }
    for i := 0 to |s.lifecycle|
      invariant forall n: nat :: n in pendingOrdinals <==>
                  exists k :: 0 <= k < i && s.lifecycle[k].ordinal == n && s.lifecycle[k].cleanupPending
    {
      if s.lifecycle[i].cleanupPending {
        pendingOrdinals := pendingOrdinals + [s.lifecycle[i].ordinal];
      }
    }
    lifecycle, raised := Some(s.lifecycle), s.interrupted;
  }

  /** Nothing happens once the loop is left. */
  lemma {:induction false} LeftStays(scripts: seq<Script>, k: nat)
    requires k <= |scripts| && Run(scripts[..k]).Left?
    ensures Run(scripts) == Run(scripts[..k])
    decreases |scripts|
  {
    hide SlotStep;
    if k == |scripts| {
      assert scripts[..k] == scripts;
    } else {
      assert scripts[..|scripts| - 1][..k] == scripts[..k];
      LeftStays(scripts[..|scripts| - 1], k);
    }
  }

  // ---- Accountability ----

  /** Slot `i` has its receipt and its record, and its proxy is accounted for. */
  ghost predicate SlotAccounted(s: State, i: nat)
    requires i < |s.receipts| == |s.lifecycle| == |s.attempts|
  {
    && s.receipts[i].ordinal == s.lifecycle[i].ordinal == i + 1
    && (s.attempts[i] ==> s.lifecycle[i].stopped || s.lifecycle[i].cleanupPending)
    && (s.lifecycle[i].started || s.lifecycle[i].stopped || s.lifecycle[i].cleanupPending ==> s.attempts[i])
    && (s.receipts[i].Invoked? ==> s.lifecycle[i].started && s.receipts[i].proxy in s.seen)
  }

  ghost predicate InvokedDiffer(receipts: seq<Receipt>) {
    forall i, j :: 0 <= i < j < |receipts| && receipts[i].Invoked? && receipts[j].Invoked? ==>
      receipts[i].proxy != receipts[j].proxy
  }

  /** What holds after every slot, whatever the scripts do. */
  ghost predicate Accountable(s: State, n: nat) {
    && |s.receipts| == |s.lifecycle| == |s.attempts| == n
    && (forall i :: 0 <= i < n ==> SlotAccounted(s, i))
    && InvokedDiffer(s.receipts)
    && (forall i, j :: 0 <= i < j < n && s.attempts[j] ==> !s.lifecycle[i].cleanupPending)
    && ((exists i :: 0 <= i < n && s.lifecycle[i].cleanupPending) || s.interrupted ==> s.halt.Some?)
  }

  lemma TryFacts(s: State, ordinal: nat, c: Script)
    ensures var t := Try(s, ordinal, c);
            && s.seen <= t.seen && t.receipt.ordinal == ordinal
            && (t.started ==> t.attempted) && (t.attempted ==> s.halt.None?)
            && (t.receipt.Invoked? <==> t.ending.Fine?)
            && (t.receipt.Invoked? ==> t.started && t.receipt.proxy in t.seen && t.receipt.proxy !in s.seen)
  {
  }

  lemma StepAccounts(s: State, n: nat, c: Script)
    requires Accountable(s, n)
    ensures var s' := Recorded(s, n + 1, c, Try(s, n + 1, c));
            && |s'.receipts| == |s'.lifecycle| == |s'.attempts| == n + 1
            && (forall i :: 0 <= i <= n ==> SlotAccounted(s', i))
            && InvokedDiffer(s'.receipts)
  {
    TryFacts(s, n + 1, c);
    hide Try;
    var s' := Recorded(s, n + 1, c, Try(s, n + 1, c));
    forall i | 0 <= i < n
      ensures SlotAccounted(s', i) && (s.receipts[i].Invoked? ==> s.receipts[i].proxy in s.seen)
    {
      assert SlotAccounted(s, i);
    }
  }

  lemma StepIsAccountable(s: State, n: nat, c: Script)
    requires Accountable(s, n)
    ensures Accountable(Recorded(s, n + 1, c, Try(s, n + 1, c)), n + 1)
  {
    StepAccounts(s, n, c);
    TryFacts(s, n + 1, c);
    hide Try, SlotAccounted, InvokedDiffer;
  }

  /** Something escapes the loop in this slot: before the try block, in the except clause or in the finally block. */
  predicate Escapes(s: State, ordinal: nat, c: Script) {
    var t := Try(s, ordinal, c);
    c.prepare != Fine || FinallyEscapes(t, c) || ReportEscapes(t, c)
  }

  ghost predicate NothingEscapes(scripts: seq<Script>) {
    forall i :: 0 <= i < |scripts| ==> !Escapes(Run(scripts[..i]).state, i + 1, scripts[i])
  }

  lemma NothingEscapesSnoc(scripts: seq<Script>)
    requires scripts != []
    ensures var n := |scripts| - 1;
            NothingEscapes(scripts)
            <==> NothingEscapes(scripts[..n]) && !Escapes(Run(scripts[..n]).state, n + 1, scripts[n])
  {
    hide Escapes, Run;
    var n := |scripts| - 1;
    forall i | 0 <= i < n ensures scripts[..n][..i] == scripts[..i] && scripts[..n][i] == scripts[i] {}
  }

  lemma {:induction false} RunIsAccountable(scripts: seq<Script>)
    ensures Accountable(Run(scripts).state, |Run(scripts).state.receipts|)
    ensures Run(scripts).Running? <==> NothingEscapes(scripts)
    ensures Run(scripts).Running? ==> |Run(scripts).state.receipts| == |scripts|
  {
    if scripts == [] {
      NothingRun();
    } else {
      var n := |scripts| - 1;
      RunIsAccountable(scripts[..n]);
      NothingEscapesSnoc(scripts);
      if Run(scripts[..n]).Running? {
        StepIsAccountable(Run(scripts[..n]).state, n, scripts[n]);
        RecordedSize(Run(scripts[..n]).state, n + 1, scripts[n]);
      }
      hide Accountable, Recorded, Try, NothingEscapes, FinallyEscapes, ReportEscapes;
    }
  }

  lemma RecordedSize(s: State, ordinal: nat, c: Script)
    ensures |Recorded(s, ordinal, c, Try(s, ordinal, c)).receipts| == |s.receipts| + 1
  {
  }

  lemma NothingRun()
    ensures Accountable(Initial(), 0)
  {
  }

  /** The slots from `k` on started nothing. */
  ghost predicate NothingFrom(s: State, k: nat) {
    && s.halt.Some? && |s.receipts| == |s.lifecycle| == |s.attempts| >= k
    && forall j :: k <= j < |s.receipts| ==>
         !s.attempts[j] && !s.lifecycle[j].started && s.receipts[j].ErrorReceipt?
  }

  lemma HaltedStep(s: State, k: nat, ordinal: nat, c: Script)
    requires NothingFrom(s, k)
    ensures NothingFrom(SlotStep(s, ordinal, c).state, k)
    ensures var after := SlotStep(s, ordinal, c); after.Left? ==> after.lost != Some(true)
  {
  }

  lemma HaltedSoFar(s: State)
    requires Accountable(s, |s.receipts|) && s.halt.Some?
    ensures NothingFrom(s, |s.receipts|)
  {
  }

  /** Once halted, every later slot gets an error receipt and starts nothing, as does a slot that is lost. */
  lemma {:induction false} HaltedStartsNothing(scripts: seq<Script>, k: nat)
    requires k <= |scripts| && Run(scripts[..k]).Running? && Run(scripts[..k]).state.halt.Some?
    ensures NothingFrom(Run(scripts).state, k)
    ensures Run(scripts).Left? ==> Run(scripts).lost != Some(true)
    decreases |scripts|
  {
    hide Accountable, SlotStep, NothingFrom;
    if k == |scripts| {
      assert scripts[..k] == scripts;
      RunIsAccountable(scripts);
      HaltedSoFar(Run(scripts).state);
    } else {
      var n := |scripts| - 1;
      assert scripts[..n][..k] == scripts[..k];
      HaltedStartsNothing(scripts[..n], k);
      HaltedStep(Run(scripts[..n]).state, k, n + 1, scripts[n]);
    }
  }

  /**
   Accountability: every slot gets one receipt and one lifecycle record, in order, if and only if nothing escapes
   the loop. In every run, the recorded slots have their proxies stopped or marked cleanup-pending, invoked proxies
   are pairwise different, a proxy is started (also in a slot that is lost) only when all earlier ones are stopped,
   and nothing starts after a pending cleanup or an interruption.
   */
  lemma {:induction false} EveryRunIsAccountable(scripts: seq<Script>, k: nat)
    requires k <= |scripts|
    ensures var end := Run(scripts);
            && (end.Running? <==> NothingEscapes(scripts))
            && (end.Running? ==> |end.state.receipts| == |scripts|)
            && Accountable(end.state, |end.state.receipts|)
    ensures var s := Run(scripts).state;
            forall i, j :: 0 <= i < j < |s.receipts| && s.attempts[i] && s.attempts[j] ==>
              s.lifecycle[i].stopped && !s.lifecycle[i].cleanupPending
    ensures var end := Run(scripts);
            end.Left? && end.lost == Some(true) ==>
              forall i :: 0 <= i < |end.state.receipts| && end.state.attempts[i] ==>
                end.state.lifecycle[i].stopped && !end.state.lifecycle[i].cleanupPending
    ensures Run(scripts[..k]).Running? && Run(scripts[..k]).state.interrupted ==>
              Run(scripts).state.interrupted && NothingFrom(Run(scripts).state, k)
  {
    RunIsAccountable(scripts);
    RunIsAccountable(scripts[..k]);
    var s := Run(scripts).state;
    forall i | 0 <= i < |s.receipts| && s.attempts[i] && !s.lifecycle[i].cleanupPending
      ensures s.lifecycle[i].stopped
    {
      assert SlotAccounted(s, i);
    }
    if Run(scripts).Left? { var left := WhereTheLoopIsLeft(scripts); }
    if Run(scripts[..k]).Running? && Run(scripts[..k]).state.interrupted {
      HaltedStartsNothing(scripts, k);
      InterruptionStays(scripts, k);
    }
    hide Run, NothingFrom;
  }

  lemma {:induction false} InterruptionStays(scripts: seq<Script>, k: nat)
    requires k <= |scripts| && Run(scripts[..k]).state.interrupted
    ensures Run(scripts).state.interrupted
    decreases |scripts|
  {
    hide Try;
    if k == |scripts| {
      assert scripts[..k] == scripts;
    } else {
      assert scripts[..|scripts| - 1][..k] == scripts[..k];
      InterruptionStays(scripts[..|scripts| - 1], k);
    }
  }

  // ---- When something escapes ----

  /**
   Where the loop is left: every slot before `k` keeps its receipt and record, slot `k` has both only if it was
   the except clause that did not finish, and no later slot has either or starts anything.
   */
  lemma {:induction false} WhereTheLoopIsLeft(scripts: seq<Script>) returns (k: nat)
    requires Run(scripts).Left?
    ensures k < |scripts| && Run(scripts[..k]).Running?
    ensures var before, end := Run(scripts[..k]).state, Run(scripts);
            && |before.receipts| == k && Escapes(before, k + 1, scripts[k])
            && (if end.lost.Some? then end.state == before
                else |end.state.receipts| == k + 1 && before.receipts <= end.state.receipts
                     && before.lifecycle <= end.state.lifecycle)
            && (end.lost == Some(true) ==> Try(before, k + 1, scripts[k]).attempted && before.halt.None?)
    decreases |scripts|
  {
    hide Recorded, Try, NothingEscapes, Accountable, FinallyEscapes, ReportEscapes;
    var n := |scripts| - 1;
    RunIsAccountable(scripts[..n]);
    if Run(scripts[..n]).Left? {
      k := WhereTheLoopIsLeft(scripts[..n]);
      assert scripts[..n][..k] == scripts[..k];
    } else {
      k := n;
      TryFacts(Run(scripts[..n]).state, n + 1, scripts[n]);
      RecordedGrows(Run(scripts[..n]).state, n + 1, scripts[n]);
    }
  }

  lemma RecordedGrows(s: State, ordinal: nat, c: Script)
    ensures var s' := Recorded(s, ordinal, c, Try(s, ordinal, c));
            s.receipts <= s'.receipts && s.lifecycle <= s'.lifecycle && |s'.receipts| == |s.receipts| + 1
  {
    hide Try;
  }

  /**
   At an input: one slot whose every step is fine but for an interruption of the stop. The proxy was started, and
   the slot has neither a receipt nor a record.
   */
  lemma InterruptedStopLosesTheSlot(c: Script)
    requires c == Script(Fine, Fine, Fine, Fine, Some("proxy"), Fine, Fine, Fine, true, Interrupts, Fine, Fine)
    ensures Run([c]) == Left(Initial(), Some(true))
    ensures Try(Initial(), 1, c).started && Initial().receipts == [] && Initial().lifecycle == []
  {
    assert [c][..0] == [];
    assert Run([]) == Running(Initial());
  }

  // ---- The records against what the slots did ----

  /** The slot reached its start command, in a loop that stood at `before`. */
  predicate Reaches(before: State, c: Script) {
    before.halt.None? && c.check.Fine?
  }

  /** The proxy's stop was run and succeeded. */
  predicate StopSucceeded(c: Script) {
    c.sealed && c.stop.Fine?
  }

  /** A slot that reached its start leaves something uncertain behind: no stop, or no evidence of a started proxy. */
  predicate LeavesUncertain(c: Script) {
    !StopSucceeded(c) || (c.start.Fine? && !c.evidence.Fine?)
  }

  /** Every step to the end of the invocation succeeds, on a proxy not seen before. */
  predicate Invokes(before: State, c: Script) {
    && Reaches(before, c) && c.start.Fine? && c.identity.Fine? && c.proxy.Some? && c.proxy.value !in before.seen
    && c.profile.Fine? && c.invoke.Fine?
  }

  /** The first step of the try block that does not succeed is interrupted. */
  predicate InterruptedIn(before: State, c: Script) {
    || c.check.Interrupts?
    || (Reaches(before, c)
        && (|| c.start.Interrupts?
            || (c.start.Fine?
                && (|| c.identity.Interrupts?
                    || (c.identity.Fine? && c.proxy.Some? && c.proxy.value !in before.seen
                        && (c.profile.Interrupts? || (c.profile.Fine? && c.invoke.Interrupts?)))))))
  }

  /** A slot's records say what its script says happened. */
  predicate TellTheTruth(before: State, c: Script, ordinal: nat, receipt: Receipt, record: Record, attempted: bool) {
    && (attempted <==> Reaches(before, c))
    && record.ordinal == receipt.ordinal == ordinal
    && (record.started <==> Reaches(before, c) && c.start.Fine?)
    && (record.stopped <==> Reaches(before, c) && StopSucceeded(c))
    && (record.cleanupPending <==> Reaches(before, c) && LeavesUncertain(c))
    && (receipt.Invoked? <==> Invokes(before, c))
    && (receipt.Invoked? ==> c.proxy == Some(receipt.proxy))
    && (InterruptedIn(before, c) ==> receipt == ErrorReceipt(ordinal, "invocation_interrupted"))
    && (before.halt.Some? && !c.check.Interrupts? && c.report.Fine? ==>
          receipt == ErrorReceipt(ordinal, before.halt.value))
  }

  lemma LastSlotIsTrue(before: State, ordinal: nat, c: Script)
      returns (receipt: Receipt, record: Record, attempted: bool)
    ensures var s := Recorded(before, ordinal, c, Try(before, ordinal, c));
            && s.receipts == before.receipts + [receipt] && s.lifecycle == before.lifecycle + [record]
            && s.attempts == before.attempts + [attempted]
    ensures TellTheTruth(before, c, ordinal, receipt, record, attempted)
  {
    var s := Recorded(before, ordinal, c, Try(before, ordinal, c));
    receipt, record := s.receipts[|before.receipts|], s.lifecycle[|before.lifecycle|];
    attempted := s.attempts[|before.attempts|];
  }

  ghost predicate SlotIs(scripts: seq<Script>, s: State, i: nat)
    requires i < |scripts| && i < |s.receipts| == |s.lifecycle| == |s.attempts|
  {
    TellTheTruth(Run(scripts[..i]).state, scripts[i], i + 1, s.receipts[i], s.lifecycle[i], s.attempts[i])
  }

  ghost predicate AllTrue(scripts: seq<Script>, s: State) {
    && |s.receipts| == |s.lifecycle| == |s.attempts| <= |scripts|
    && forall i :: 0 <= i < |s.receipts| ==> SlotIs(scripts, s, i)
  }

  lemma StillTrue(scripts: seq<Script>, s: State)
    requires scripts != [] && AllTrue(scripts[..|scripts| - 1], s)
    ensures AllTrue(scripts, s)
  {
    hide TellTheTruth, Run;
    var n := |scripts| - 1;
    forall i | 0 <= i < |s.receipts| ensures SlotIs(scripts, s, i) {
      assert SlotIs(scripts[..n], s, i);
      assert scripts[..n][..i] == scripts[..i];
    }
  }

  lemma OneMoreTrue(scripts: seq<Script>, before: State, s: State, receipt: Receipt, record: Record, attempted: bool)
    requires scripts != [] && AllTrue(scripts, before) && |before.receipts| == |scripts| - 1
    requires before == Run(scripts[..|scripts| - 1]).state
    requires s.receipts == before.receipts + [receipt] && s.lifecycle == before.lifecycle + [record]
    requires s.attempts == before.attempts + [attempted]
    requires TellTheTruth(before, scripts[|scripts| - 1], |scripts|, receipt, record, attempted)
    ensures AllTrue(scripts, s)
  {
    hide TellTheTruth, Run;
    forall i | 0 <= i < |s.receipts| ensures SlotIs(scripts, s, i) {
      if i < |before.receipts| { assert SlotIs(scripts, before, i); }
    }
  }

  /** In every run, what is recorded of a slot is what happened: `stopped` only for a stop that succeeded. */
  lemma {:induction false} RecordsAreTrue(scripts: seq<Script>)
    ensures AllTrue(scripts, Run(scripts).state)
  {
    if scripts != [] {
      var n := |scripts| - 1;
      RecordsAreTrue(scripts[..n]);
      RunIsAccountable(scripts[..n]);
      var before, s := Run(scripts[..n]).state, Run(scripts).state;
      hide AllTrue, Recorded, Try, Accountable, FinallyEscapes, ReportEscapes, TellTheTruth, NothingEscapes;
      StillTrue(scripts, before);
      if s != before {
        var receipt, record, attempted := LastSlotIsTrue(before, n + 1, scripts[n]);
        OneMoreTrue(scripts, before, s, receipt, record, attempted);
      }
    }
  }

  /** The slot ends before its records: in its preparation, or by an interruption of a step of its finally block. */
  predicate LosesItsRecords(before: State, c: Script) {
    || !c.prepare.Fine?
    || (Reaches(before, c) && c.sealed && c.stop == Interrupts)
    || (Reaches(before, c) && c.start == Fine && c.sealed && c.evidence == Interrupts)
    || c.write == Raises || c.write == Interrupts
  }

  /** The slot invoked nothing, and its except clause did not finish. */
  predicate LosesItsReason(before: State, c: Script) {
    !Invokes(before, c) && (c.report == Raises || c.report == Interrupts)
  }

  /** How a slot leaves the loop: for good without records, for good behind its records, or running. */
  lemma SlotEndsExactly(before: State, ordinal: nat, c: Script)
    ensures var l, s := SlotStep(before, ordinal, c), Recorded(before, ordinal, c, Try(before, ordinal, c));
            && (LosesItsRecords(before, c) ==>
                  l == Left(before, Some(c.prepare == Fine && Reaches(before, c))))
            && (!LosesItsRecords(before, c) && LosesItsReason(before, c) ==>
                  l == Left(s, None)
                      && s.receipts == before.receipts + [ErrorReceipt(ordinal, "invocation_interrupted")])
            && (!LosesItsRecords(before, c) && !LosesItsReason(before, c) ==> l == Running(s))
  {
  }

  /** A run is left for good exactly when some slot loses its records or its reason. */
  lemma {:induction false} RunsOnExactlyWhen(scripts: seq<Script>)
    ensures Run(scripts).Running? <==>
              forall i :: 0 <= i < |scripts| ==> !LosesItsRecords(Run(scripts[..i]).state, scripts[i])
                                                 && !LosesItsReason(Run(scripts[..i]).state, scripts[i])
  {
    RunIsAccountable(scripts);
    forall i | 0 <= i < |scripts|
      ensures Escapes(Run(scripts[..i]).state, i + 1, scripts[i]) <==>
                LosesItsRecords(Run(scripts[..i]).state, scripts[i])
                || LosesItsReason(Run(scripts[..i]).state, scripts[i])
    {
      EscapesAre(Run(scripts[..i]).state, i + 1, scripts[i]);
    }
    hide Run, Accountable, Escapes, LosesItsRecords, LosesItsReason;
  }

  lemma EscapesAre(before: State, ordinal: nat, c: Script)
    ensures Escapes(before, ordinal, c) <==> LosesItsRecords(before, c) || LosesItsReason(before, c)
  {
    hide Recorded;
  }

  /** Something in the slot halts the loop: a proxy left uncertain, or an interruption the except clause keeps. */
  predicate Halts(before: State, c: Script) {
    (Reaches(before, c) && LeavesUncertain(c)) || (InterruptedIn(before, c) && c.report.Fine?)
  }

  lemma HaltAfterSlot(before: State, n: nat, c: Script)
    ensures var s := Recorded(before, n + 1, c, Try(before, n + 1, c));
            && (s.halt.Some? <==> before.halt.Some? || Halts(before, c))
            && (s.interrupted <==> before.interrupted || (InterruptedIn(before, c) && c.report.Fine?))
            && s.seen == before.seen + (if Reaches(before, c) && c.start.Fine? && c.identity.Fine? && c.proxy.Some?
                                        then {c.proxy.value} else {})
            && (s.halt != before.halt ==>
                  s.halt == Some(if Reaches(before, c) && LeavesUncertain(c) then "prior_proxy_cleanup_pending"
                                 else "coordinator_interrupted"))
  {
  }

  predicate HaltsAt(scripts: seq<Script>, i: nat)
    requires i < |scripts|
  {
    Halts(Run(scripts[..i]).state, scripts[i])
  }

  ghost predicate SomeHalts(scripts: seq<Script>, m: nat)
    requires m <= |scripts|
  {
    exists i :: 0 <= i < m && HaltsAt(scripts, i)
  }

  lemma SomeHaltsSnoc(scripts: seq<Script>, m: nat)
    requires m < |scripts|
    ensures SomeHalts(scripts[..|scripts| - 1], m) <==> SomeHalts(scripts, m)
    ensures SomeHalts(scripts, m + 1) <==> SomeHalts(scripts, m) || HaltsAt(scripts, m)
  {
    hide Halts, Run;
    var n := |scripts| - 1;
    forall i | 0 <= i < n ensures HaltsAt(scripts[..n], i) == HaltsAt(scripts, i) {
      assert scripts[..n][..i] == scripts[..i];
    }
  }

  /** The loop is halted exactly when something in a recorded slot halted it. */
  lemma {:induction false} HaltedExactlyWhen(scripts: seq<Script>)
    ensures var s := Run(scripts).state;
            |s.receipts| <= |scripts| && (s.halt.Some? <==> SomeHalts(scripts, |s.receipts|))
  {
    if scripts != [] {
      var n := |scripts| - 1;
      HaltedExactlyWhen(scripts[..n]);
      RunIsAccountable(scripts[..n]);
      var before := Run(scripts[..n]).state;
      SomeHaltsSnoc(scripts, |before.receipts|);
      StepState(before, n + 1, scripts[n]);
      HaltAfterSlot(before, n, scripts[n]);
      RecordedSize(before, n + 1, scripts[n]);
      hide SlotStep, Recorded, Try, Accountable, Halts, NothingEscapes, Reaches, LeavesUncertain, InterruptedIn,
          SomeHalts;
    }
  }

  lemma StepState(s: State, ordinal: nat, c: Script)
    ensures var s' := SlotStep(s, ordinal, c).state; s' == s || s' == Recorded(s, ordinal, c, Try(s, ordinal, c))
  {
  }

  /**
   A slot reaches its start command, also one that is lost, only if every earlier one that reached its own had its
   proxy's receipt, a stop that succeeded and, for a proxy that started, its evidence.
   */
  lemma StartsOnlyAfterGoodStops(scripts: seq<Script>, i: nat, j: nat)
    requires i < j < |scripts| && Run(scripts[..j]).Running?
    requires Reaches(Run(scripts[..i]).state, scripts[i]) && Reaches(Run(scripts[..j]).state, scripts[j])
    ensures StopSucceeded(scripts[i]) && !LeavesUncertain(scripts[i])
  {
    hide Run, Reaches, LeavesUncertain, InterruptedIn, Accountable, NothingEscapes;
    HaltedExactlyWhen(scripts[..j]);
    RunIsAccountable(scripts[..j]);
    assert scripts[..j][..i] == scripts[..i] && scripts[..j][i] == scripts[i];
    assert HaltsAt(scripts[..j], i) == Halts(Run(scripts[..i]).state, scripts[i]);
    UncertainHalts(Run(scripts[..i]).state, scripts[i]);
    assert Run(scripts[..j]).state.halt.None? by { ReachedIsNotHalted(Run(scripts[..j]).state, scripts[j]); }
  }

  lemma UncertainHalts(before: State, c: Script)
    requires Reaches(before, c)
    ensures LeavesUncertain(c) ==> Halts(before, c)
    ensures !LeavesUncertain(c) ==> StopSucceeded(c)
  {
  }

  lemma ReachedIsNotHalted(before: State, c: Script)
    requires Reaches(before, c)
    ensures before.halt.None?
  {
  }
}
