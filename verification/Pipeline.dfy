/**
 The detect-only stage pipeline: the runner (bench/harness.py), its stage rules (bench/_stages.py) and the
 importer's independent replay (bench/scorer/harness_results.py).
 */
module Pipeline {
  import opened Wrappers

  datatype Stage = Hunter | Skeptic | Referee | Synthesis

  datatype Candidate = Candidate(bugId: string, file: string, location: string, line: int, rationale: string,
                                 trigger: string, severity: string, status: string)

  datatype Claim = Claim(bugId: string, file: string, location: string, line: int, rationale: string, trigger: string)

  type Assessments = map<Stage, seq<Candidate>>

  // ---- Stage blocks ----

  datatype Block = Block(id: string, stages: seq<Stage>)

  function Rank(s: Stage): nat {
    match s case Hunter => 0 case Skeptic => 1 case Referee => 2 case Synthesis => 3
  }

  /** Starts with the Hunter and goes through the stages in order, each at most once. */
  predicate Lineage(stages: seq<Stage>) {
    && stages != [] && stages[0] == Hunter
    && forall i :: 0 < i < |stages| ==> Rank(stages[i - 1]) < Rank(stages[i])
  }

  ghost predicate Normal(blocks: seq<Block>) {
    && blocks != []
    && (forall i :: 0 <= i < |blocks| ==> blocks[i].id != "" && Lineage(blocks[i].stages))
    && (forall i, j :: 0 <= i < j < |blocks| ==> blocks[i].id != blocks[j].id && blocks[i].stages != blocks[j].stages)
    && Block("full_pipeline", [Hunter, Skeptic, Referee, Synthesis]) in blocks
    && (forall i :: 0 <= i < |blocks| ==>
        blocks[i].stages == [Hunter] || blocks[i].stages[|blocks[i].stages| - 1] == Synthesis)
  }

  /** `normalize_stage_blocks`. */
  method NormalizeStageBlocks(value: seq<Block>) returns (r: Result<seq<Block>>)
    ensures r.Success? <==> Normal(value)
    ensures r.Success? ==> r.value == value
  {
    if value == [] {
      return Failure("pipeline-stage ablation blocks are required");
    }
    var blocks: seq<Block> := [];
    var ids: set<string> := {};
    var lineages: set<seq<Stage>> := {};
    for i := 0 to |value|
      invariant blocks == value[..i]
      invariant ids == set k | 0 <= k < i :: value[k].id
      invariant lineages == set k | 0 <= k < i :: value[k].stages
      invariant forall k :: 0 <= k < i ==> value[k].id != "" && Lineage(value[k].stages)
      invariant forall a, b :: 0 <= a < b < i ==> value[a].id != value[b].id && value[a].stages != value[b].stages
    {
      var block := value[i];
      if block.id == "" || !Lineage(block.stages) {
        return Failure("invalid stage block");
      }
      if block.id in ids || block.stages in lineages {
        return Failure("stage blocks must have independent ids and lineages");
      }
      ids := ids + {block.id};
      lineages := lineages + {block.stages};
      blocks := blocks + [block];
    }
    assert value[..|value|] == value;
    if Block("full_pipeline", [Hunter, Skeptic, Referee, Synthesis]) !in blocks {
      return Failure("stage blocks require the full control");
    }
    for i := 0 to |blocks|
      invariant forall k :: 0 <= k < i ==>
                  blocks[k].stages == [Hunter] || blocks[k].stages[|blocks[k].stages| - 1] == Synthesis
    {
      if blocks[i].stages != [Hunter] && blocks[i].stages[|blocks[i].stages| - 1] != Synthesis {
        return Failure("non-Hunter ablations must end in synthesis");
      }
    }
    r := Success(blocks);
  }

  /** The legal chains: the Hunter alone, or with any of the two reviewers in order, closed by Synthesis. */
  function LegalChains(): set<seq<Stage>> {
    {[Hunter], [Hunter, Synthesis], [Hunter, Skeptic, Synthesis], [Hunter, Referee, Synthesis],
     [Hunter, Skeptic, Referee, Synthesis]}
  }

  /** A list is normal exactly when its blocks are named, distinct legal chains, the full control among them. */
  lemma NormalExactlyWhen(blocks: seq<Block>)
    ensures Normal(blocks) <==>
              && (forall i :: 0 <= i < |blocks| ==> blocks[i].id != "" && blocks[i].stages in LegalChains())
              && (forall i, j :: 0 <= i < j < |blocks| ==>
                    blocks[i].id != blocks[j].id && blocks[i].stages != blocks[j].stages)
              && exists i :: 0 <= i < |blocks|
                             && blocks[i] == Block("full_pipeline", [Hunter, Skeptic, Referee, Synthesis])
  {
    forall i | 0 <= i < |blocks|
      ensures Lineage(blocks[i].stages)
              && (blocks[i].stages == [Hunter] || blocks[i].stages[|blocks[i].stages| - 1] == Synthesis)
              <==> blocks[i].stages in LegalChains()
    {
      ChainIsLegal(blocks[i].stages);
    }
    assert [Hunter, Skeptic, Referee, Synthesis] in LegalChains();
    hide Lineage, LegalChains;
    var full := Block("full_pipeline", [Hunter, Skeptic, Referee, Synthesis]);
    assert full in blocks <==> exists i :: 0 <= i < |blocks| && blocks[i] == full;
  }

  lemma ChainIsLegal(stages: seq<Stage>)
    ensures Lineage(stages) && (stages == [Hunter] || stages[|stages| - 1] == Synthesis)
            <==> stages in LegalChains()
  {
    if Lineage(stages) {
      assert stages[0] == Hunter;
      if |stages| >= 2 { assert Rank(stages[0]) < Rank(stages[1]); }
      if |stages| >= 3 { assert Rank(stages[1]) < Rank(stages[2]); }
      if |stages| >= 4 { assert Rank(stages[2]) < Rank(stages[3]); }
      assert |stages| >= 5 ==> Rank(stages[3]) < Rank(stages[4]);
      if |stages| == 1 {
        assert stages == [Hunter];
      } else if |stages| == 2 {
        assert stages == [Hunter, stages[1]];
      } else if |stages| == 3 {
        assert stages == [Hunter, stages[1], stages[2]];
      } else {
        assert stages == [Hunter, Skeptic, Referee, Synthesis];
      }
    }
  }

  // ---- Candidates and handoffs ----

  /** `parse_candidates` on the decoded items; `valid` is the field contract of one item. */
  method ParseCandidates(items: seq<Candidate>, valid: Candidate -> bool) returns (r: Option<seq<Candidate>>)
    ensures r == Parsed(items, valid)
    ensures r.Some? ==> r.value == items && forall i, j :: 0 <= i < j < |items| ==> items[i].bugId != items[j].bugId
  {
    if |items| > 1000 {
      return None;
    }
    var candidates: seq<Candidate> := [];
    var seen: set<string> := {};
    for i := 0 to |items|
      invariant candidates == items[..i] && seen == set k | 0 <= k < i :: items[k].bugId
      invariant forall k :: 0 <= k < i ==> valid(items[k])
      invariant forall a, b :: 0 <= a < b < i ==> items[a].bugId != items[b].bugId
    {
      if !valid(items[i]) || items[i].bugId in seen {
        return None;
      }
      seen := seen + {items[i].bugId};
      candidates := candidates + [items[i]];
    }
    assert items[..|items|] == items;
    r := Some(candidates);
  }

  predicate UniqueIds(items: seq<Candidate>) {
    forall i, j :: 0 <= i < j < |items| ==> items[i].bugId != items[j].bugId
  }

  function Parsed(items: seq<Candidate>, valid: Candidate -> bool): Option<seq<Candidate>> {
    if |items| <= 1000 && (forall i :: 0 <= i < |items| ==> valid(items[i])) && UniqueIds(items) then Some(items)
        else None
  }

  function Claims(cs: seq<Candidate>): seq<Claim> {
    seq(|cs|, i requires 0 <= i < |cs| => Claim(cs[i].bugId, cs[i].file, cs[i].location, cs[i].line, cs[i].rationale,
                                                cs[i].trigger))
  }

  function Of(a: Assessments, s: Stage): seq<Candidate> {
    if s in a then a[s] else []
  }

  datatype Input = Input(claims: seq<Claim>, verdicts: Option<(seq<Candidate>, seq<Candidate>)>)

  /** `stage_input`: only Synthesis sees the earlier verdicts. */
  function StageInput(s: Stage, a: Assessments): Input {
    Input(Claims(Of(a, Hunter)), if s.Synthesis? then Some((Of(a, Skeptic), Of(a, Referee))) else None)
  }

  type Places = map<string, (string, string, int)>

  /** Each id with its location; a later candidate with the same id wins. */
  function PlacesOf(cs: seq<Candidate>): Places {
    if cs == [] then map[]
    else
      var c := cs[|cs| - 1];
      PlacesOf(cs[..|cs| - 1])[c.bugId := (c.file, c.location, c.line)]
  }

  /** `validate_stage_candidates`. */
  predicate Preserves(s: Stage, cs: seq<Candidate>, a: Assessments) {
    s.Hunter? || PlacesOf(cs) == PlacesOf(Of(a, Hunter))
  }

  // ---- What the handoff rules mean ----

  /** The same claim: id, file, location and line. */
  predicate SamePlace(a: Candidate, b: Candidate) {
    a.bugId == b.bugId && a.file == b.file && a.location == b.location && a.line == b.line
  }

  predicate HasPlace(cs: seq<Candidate>, c: Candidate) {
    exists i :: 0 <= i < |cs| && SamePlace(cs[i], c)
  }

  /** The response answers each of the Hunter's claims at its place, and nothing else. */
  predicate AnswersExactly(cs: seq<Candidate>, hunter: seq<Candidate>) {
    && (forall i :: 0 <= i < |hunter| ==> HasPlace(cs, hunter[i]))
    && (forall i :: 0 <= i < |cs| ==> HasPlace(hunter, cs[i]))
  }

  lemma HasPlaceSnoc(front: seq<Candidate>, last: Candidate, c: Candidate)
    ensures HasPlace(front + [last], c) <==> HasPlace(front, c) || SamePlace(last, c)
  {
    var cs := front + [last];
    assert cs[|front|] == last && forall i :: 0 <= i < |front| ==> cs[i] == front[i];
  }

  /** With unique ids, the map holds a candidate's place exactly when some candidate of the list has it. */
  lemma {:induction false} HasPlaceIs(cs: seq<Candidate>, c: Candidate)
    requires UniqueIds(cs)
    ensures HasPlace(cs, c)
            <==> c.bugId in PlacesOf(cs) && PlacesOf(cs)[c.bugId] == (c.file, c.location, c.line)
  {
    if cs != [] {
      var front, last := cs[..|cs| - 1], cs[|cs| - 1];
      assert cs == front + [last];
      HasPlaceSnoc(front, last, c);
      HasPlaceIs(front, c);
      if last.bugId == c.bugId {
        forall i | 0 <= i < |front| ensures front[i].bugId != c.bugId { assert cs[i] == front[i]; }
      }
    }
  }

  lemma {:induction false} KeyIsAnId(cs: seq<Candidate>, id: string) returns (i: nat)
    requires id in PlacesOf(cs)
    ensures i < |cs| && cs[i].bugId == id
  {
    i := |cs| - 1;
    if cs[i].bugId != id { i := KeyIsAnId(cs[..i], id); }
  }

  lemma OwnPlace(cs: seq<Candidate>, i: nat)
    requires i < |cs|
    ensures HasPlace(cs, cs[i])
  {
    assert SamePlace(cs[i], cs[i]);
  }

  lemma SamePlacesCover(cs: seq<Candidate>, hunter: seq<Candidate>)
    requires UniqueIds(cs) && UniqueIds(hunter) && PlacesOf(cs) == PlacesOf(hunter)
    ensures forall i :: 0 <= i < |hunter| ==> HasPlace(cs, hunter[i])
  {
    hide PlacesOf, UniqueIds, HasPlace;
    forall i | 0 <= i < |hunter| ensures HasPlace(cs, hunter[i]) {
      OwnPlace(hunter, i);
      HasPlaceIs(hunter, hunter[i]);
      HasPlaceIs(cs, hunter[i]);
    }
  }

  lemma CoveredPlaces(cs: seq<Candidate>, hunter: seq<Candidate>, id: string)
    requires UniqueIds(cs) && UniqueIds(hunter) && id in PlacesOf(cs)
    requires forall i :: 0 <= i < |cs| ==> HasPlace(hunter, cs[i])
    ensures id in PlacesOf(hunter) && PlacesOf(hunter)[id] == PlacesOf(cs)[id]
  {
    hide PlacesOf, UniqueIds, HasPlace;
    var i := KeyIsAnId(cs, id);
    OwnPlace(cs, i);
    HasPlaceIs(cs, cs[i]);
    HasPlaceIs(hunter, cs[i]);
  }

  /** With unique ids, the check of the id-to-location maps accepts exactly the responses that answer each claim. */
  lemma AnswersExactlyWhenPlacesMatch(cs: seq<Candidate>, hunter: seq<Candidate>)
    requires UniqueIds(cs) && UniqueIds(hunter)
    ensures PlacesOf(cs) == PlacesOf(hunter) <==> AnswersExactly(cs, hunter)
  {
    hide PlacesOf, UniqueIds, HasPlace;
    if PlacesOf(cs) == PlacesOf(hunter) {
      SamePlacesCover(cs, hunter);
      SamePlacesCover(hunter, cs);
    }
    if AnswersExactly(cs, hunter) {
      forall id | id in PlacesOf(cs) || id in PlacesOf(hunter)
        ensures id in PlacesOf(cs) && id in PlacesOf(hunter) && PlacesOf(cs)[id] == PlacesOf(hunter)[id]
      {
        if id in PlacesOf(cs) { CoveredPlaces(cs, hunter, id); } else { CoveredPlaces(hunter, cs, id); }
      }
      assert PlacesOf(cs) == PlacesOf(hunter);
    }
  }

  /** The same claim with its grounds, whatever the verdict. */
  predicate SameClaim(a: Candidate, b: Candidate) {
    SamePlace(a, b) && a.rationale == b.rationale && a.trigger == b.trigger
  }

  /**
   What a stage is shown: two states of the assessments look the same to it exactly when the Hunter's claims agree,
   verdicts aside, and, for Synthesis alone, the Skeptic's and the Referee's assessments do.
   */
  lemma InputShowsExactly(s: Stage, a: Assessments, b: Assessments)
    ensures StageInput(s, a) == StageInput(s, b) <==>
              && |Of(a, Hunter)| == |Of(b, Hunter)|
              && (forall i :: 0 <= i < |Of(a, Hunter)| ==> SameClaim(Of(a, Hunter)[i], Of(b, Hunter)[i]))
              && (s.Synthesis? ==> Of(a, Skeptic) == Of(b, Skeptic) && Of(a, Referee) == Of(b, Referee))
  {
    var x, y := Of(a, Hunter), Of(b, Hunter);
    if Claims(x) == Claims(y) {
      assert |Claims(x)| == |x| && |Claims(y)| == |y|;
      forall i | 0 <= i < |x| ensures SameClaim(x[i], y[i]) { assert Claims(x)[i] == Claims(y)[i]; }
    }
    if |x| == |y| && forall i :: 0 <= i < |x| ==> SameClaim(x[i], y[i]) {
      forall i | 0 <= i < |x| ensures Claims(x)[i] == Claims(y)[i] { assert SameClaim(x[i], y[i]); }
      assert Claims(x) == Claims(y);
    }
    hide Claims;
  }

  // ---- The runner ----

  /** What a stage's execution leaves: a native message of a session, if it completed and parsed as one. */
  datatype Native = Native(message: Option<Message>, sourceValid: bool, promptValid: bool)
  datatype Message = Message(session: string, items: Option<seq<Candidate>>)

  datatype Receipt = Receipt(stage: Stage, inputDigest: string, session: Option<string>, completed: bool,
                             sourceValid: bool, reason: Option<string>)

  /** The runner's variables. */
  datatype Chain = Chain(assessments: Assessments, seen: set<string>, receipts: seq<Receipt>)

  function Candidates(m: Message, valid: Candidate -> bool): Option<seq<Candidate>> {
    if m.items.Some? then Parsed(m.items.value, valid) else None
  }

  predicate AllCompleted(receipts: seq<Receipt>) {
    forall i :: 0 <= i < |receipts| ==> receipts[i].completed
  }

  /** One round of the stage loop. */
  function RunStage(c: Chain, s: Stage, n: Native, valid: Candidate -> bool, digest: Input -> string): Chain {
    var candidates := if n.message.Some? then Candidates(n.message.value, valid) else None;
    var session := if n.message.Some? then Some(n.message.value.session) else None;
    var reason :=
      if candidates.None? || !Preserves(s, candidates.value, c.assessments) || session.value in c.seen
          then Some("native_stage_unverified")
      else if !AllCompleted(c.receipts) then Some("prior_stage_unverified")
      else None;
    var completed := reason.None? && n.sourceValid && n.promptValid;
    Chain(if candidates.Some? then c.assessments[s := candidates.value] else c.assessments,
          if completed then c.seen + {session.value} else c.seen,
          c.receipts + [Receipt(s, digest(StageInput(s, c.assessments)), session, completed, n.sourceValid, reason)])
  }

  /** The chain after the stages of a block, from the context session, if any. */
  function RunAll(context: Option<string>, stages: seq<Stage>, natives: seq<Native>, valid: Candidate -> bool,
                  digest: Input -> string): Chain
    requires |natives| == |stages|
  {
    if stages == [] then Chain(map[], if context.Some? then {context.value} else {}, [])
    else
      var n := |stages| - 1;
      RunStage(RunAll(context, stages[..n], natives[..n], valid, digest), stages[n], natives[n], valid, digest)
  }

  /** `_run_pipeline_stages`, from the first stage on. */
  method RunPipelineStages(context: Option<string>, stages: seq<Stage>, natives: seq<Native>, valid: Candidate -> bool,
                           digest: Input -> string)
      returns (receipts: seq<Receipt>, assessments: Assessments)
    requires |natives| == |stages|
    ensures var c := RunAll(context, stages, natives, valid, digest);
            receipts == c.receipts && assessments == c.assessments
  {
    hide Parsed, Preserves, StageInput;
    assessments, receipts := map[], [];
    var seen: set<string> := if context.Some? then {context.value} else {};
    for i := 0 to |stages|
      invariant Chain(assessments, seen, receipts) == RunAll(context, stages[..i], natives[..i], valid, digest)
    {
      var stage, native := stages[i], natives[i];
      assert stages[..i + 1][..i] == stages[..i] && natives[..i + 1][..i] == natives[..i];
      var candidateInput := StageInput(stage, assessments);
      var session: Option<string>, candidates: Option<seq<Candidate>>, reason: Option<string> := None, None, None;
      if native.message.Some? {
        session := Some(native.message.value.session);
        candidates := Candidates(native.message.value, valid);
        if candidates.None? || !Preserves(stage, candidates.value, assessments) || session.value in seen {
          reason := Some("native_stage_unverified");
        }
      } else {
        reason := Some("native_stage_unverified");
      }
      var priorUnverified := !AllCompleted(receipts);
      if priorUnverified && reason.None? {
        reason := Some("prior_stage_unverified");
      }
      var completed := candidates.Some? && reason.None? && native.sourceValid && native.promptValid && !priorUnverified;
      receipts := receipts + [Receipt(stage, digest(candidateInput), session, completed, native.sourceValid, reason)];
      if candidates.Some? {
        assessments := assessments[stage := candidates.value];
        if completed && session.Some? {
          seen := seen + {session.value};
        }
      }
    }
    assert stages[..|stages|] == stages && natives[..|stages|] == natives;
  }

  // ---- The importer's replay ----

  datatype Replayed = Replayed(assessments: Assessments, seen: set<string>)

  /** One recorded stage with its raw message, checked against what the replay knows. */
  function ReplayStage(p: Replayed, s: Stage, r: Receipt, m: Message, valid: Candidate -> bool,
                       digest: Input -> string): Option<Replayed> {
    var candidates := Candidates(m, valid);
    if r.stage != s || !r.sourceValid || !r.completed || r.reason.Some? then None
    else if r.inputDigest != digest(StageInput(s, p.assessments)) then None
    else if r.session != Some(m.session) || m.session in p.seen then None
    else if candidates.None? || !Preserves(s, candidates.value, p.assessments) then None
    else Some(Replayed(p.assessments[s := candidates.value], p.seen + {m.session}))
  }

  function Replay(context: Option<string>, stages: seq<Stage>, records: seq<Receipt>, messages: seq<Message>,
                  valid: Candidate -> bool, digest: Input -> string): Option<Replayed>
    requires |records| == |messages| == |stages|
  {
    if stages == [] then Some(Replayed(map[], if context.Some? then {context.value} else {}))
    else
      var n := |stages| - 1;
      match Replay(context, stages[..n], records[..n], messages[..n], valid, digest)
      case None => None
      case Some(p) => ReplayStage(p, stages[n], records[n], messages[n], valid, digest)
  }

  lemma {:induction false} ReplayStops(context: Option<string>, stages: seq<Stage>, records: seq<Receipt>,
                                       messages: seq<Message>,
                    valid: Candidate -> bool, digest: Input -> string, k: nat)
    requires |records| == |messages| == |stages| && k <= |stages|
    requires Replay(context, stages[..k], records[..k], messages[..k], valid, digest).None?
    ensures Replay(context, stages, records, messages, valid, digest).None?
    decreases |stages|
  {
    hide ReplayStage;
    if k == |stages| {
      assert stages[..k] == stages && records[..k] == records && messages[..k] == messages;
    } else {
      var n := |stages| - 1;
      assert stages[..n][..k] == stages[..k] && records[..n][..k] == records[..k]
             && messages[..n][..k] == messages[..k];
      ReplayStops(context, stages[..n], records[..n], messages[..n], valid, digest, k);
    }
  }

  /** `_read_stage_chain`: the assessments of a chain whose every record binds. */
  method ReadStageChain(context: Option<string>, stages: seq<Stage>, records: seq<Receipt>, messages: seq<Message>,
                        valid: Candidate -> bool, digest: Input -> string)
      returns (r: Option<Assessments>)
    requires |messages| == |stages|
    ensures r.Some? <==>
              |records| == |stages| && stages != [] && Replay(context, stages, records, messages, valid, digest).Some?
    ensures r.Some? ==> r.value == Replay(context, stages, records, messages, valid, digest).value.assessments
  {
    hide Parsed, Preserves, StageInput;
    if |records| != |stages| {
      return None;
    }
    var assessments: Assessments := map[];
    var seen: set<string> := if context.Some? then {context.value} else {};
    for i := 0 to |stages|
      invariant Replay(context, stages[..i], records[..i], messages[..i], valid, digest)
                == Some(Replayed(assessments, seen))
    {
      assert stages[..i + 1][..i] == stages[..i] && records[..i + 1][..i] == records[..i]
             && messages[..i + 1][..i] == messages[..i];
      var stage, record, message := stages[i], records[i], messages[i];
      var ok := record.stage == stage && record.sourceValid && record.completed && record.reason.None?;
      ok := ok && record.inputDigest == digest(StageInput(stage, assessments));
      ok := ok && record.session == Some(message.session) && message.session !in seen;
      var candidates := Candidates(message, valid);
      if !ok || candidates.None? || !Preserves(stage, candidates.value, assessments) {
        ReplayStops(context, stages, records, messages, valid, digest, i + 1);
        return None;
      }
      assessments := assessments[stage := candidates.value];
      seen := seen + {message.session};
    }
    assert stages[..|stages|] == stages && records[..|stages|] == records && messages[..|stages|] == messages;
    if stages == [] {
      return None;
    }
    r := Some(assessments);
  }

  // ---- Results about the runner ----

  lemma {:induction false} ChainShape(context: Option<string>, stages: seq<Stage>, natives: seq<Native>,
                                      valid: Candidate -> bool, digest: Input -> string)
    requires |natives| == |stages|
    ensures var c := RunAll(context, stages, natives, valid, digest);
            |c.receipts| == |stages| && forall i :: 0 <= i < |stages| ==> c.receipts[i].stage == stages[i]
  {
    hide Parsed, Preserves, StageInput, AllCompleted;
    if stages != [] { ChainShape(context, stages[..|stages| - 1], natives[..|stages| - 1], valid, digest); }
  }

  /** For every sequence of native messages the lifecycles are a run of completed followed only by errors. */
  lemma {:induction false} CompletedThenErrors(context: Option<string>, stages: seq<Stage>, natives: seq<Native>,
                                               valid: Candidate -> bool, digest: Input -> string)
    requires |natives| == |stages|
    ensures var rs := RunAll(context, stages, natives, valid, digest).receipts;
            |rs| == |stages| && forall i, j :: 0 <= i < j < |rs| && rs[j].completed ==> rs[i].completed
  {
    hide Parsed, Preserves, StageInput;
    ChainShape(context, stages, natives, valid, digest);
    if stages != [] {
      var n := |stages| - 1;
      CompletedThenErrors(context, stages[..n], natives[..n], valid, digest);
      ChainShape(context, stages[..n], natives[..n], valid, digest);
    }
  }

  lemma CompletedPrefix(context: Option<string>, stages: seq<Stage>, natives: seq<Native>, valid: Candidate -> bool,
                        digest: Input -> string)
    requires |natives| == |stages| && stages != []
             && AllCompleted(RunAll(context, stages, natives, valid, digest).receipts)
    ensures AllCompleted(RunAll(context, stages[..|stages| - 1], natives[..|stages| - 1], valid, digest).receipts)
  {
    hide Parsed, Preserves, StageInput;
    var before := RunAll(context, stages[..|stages| - 1], natives[..|stages| - 1], valid, digest).receipts;
    var after := RunAll(context, stages, natives, valid, digest).receipts;
    forall i | 0 <= i < |before| ensures before[i].completed { assert after[i] == before[i]; }
  }

  /** What the recorded chain says: fresh sessions, and the Hunter's places at every stage. */
  ghost predicate Faithful(context: Option<string>, stages: seq<Stage>, receipts: seq<Receipt>,
                           assessments: Assessments) {
    && |receipts| == |stages|
    && (forall i :: 0 <= i < |stages| ==>
        receipts[i].session.Some? && receipts[i].session != context && stages[i] in assessments)
    && (forall i, j :: 0 <= i < j < |stages| ==> receipts[i].session != receipts[j].session)
    && (forall i :: 0 <= i < |stages| ==>
          UniqueIds(assessments[stages[i]]) && PlacesOf(assessments[stages[i]]) == PlacesOf(Of(assessments, Hunter)))
  }

  lemma RanksGrow(stages: seq<Stage>, i: nat, j: nat)
    requires Lineage(stages) && i < j < |stages|
    ensures Rank(stages[i]) < Rank(stages[j])
  {
    if i + 1 < j { RanksGrow(stages, i, j - 1); }
  }

  lemma LineageFront(stages: seq<Stage>)
    requires Lineage(stages) && |stages| > 1
    ensures Lineage(stages[..|stages| - 1])
    ensures forall i :: 0 <= i < |stages| - 1 ==> stages[i] != stages[|stages| - 1]
    ensures !stages[|stages| - 1].Hunter?
  {
    var n := |stages| - 1;
    forall i | 0 <= i < n ensures stages[i] != stages[n] { RanksGrow(stages, i, n); }
    RanksGrow(stages, 0, n);
  }

  /** Each stage of a chain answers the Hunter's claims, each once, at their places. */
  lemma EveryClaimIsAnswered(context: Option<string>, stages: seq<Stage>, receipts: seq<Receipt>, a: Assessments)
    requires Faithful(context, stages, receipts, a) && Lineage(stages)
    ensures forall i :: 0 <= i < |stages| ==> UniqueIds(a[stages[i]]) && AnswersExactly(a[stages[i]], Of(a, Hunter))
  {
    hide PlacesOf, AnswersExactly, UniqueIds, Rank;
    forall i | 0 <= i < |stages| ensures AnswersExactly(a[stages[i]], Of(a, Hunter)) {
      assert UniqueIds(a[stages[0]]) && a[stages[0]] == Of(a, Hunter);
      AnswersExactlyWhenPlacesMatch(a[stages[i]], Of(a, Hunter));
    }
  }

  ghost predicate NoIdTwice(cs: seq<Candidate>) {
    forall i, j :: 0 <= i < |cs| && 0 <= j < |cs| && cs[i].bugId == cs[j].bugId ==> i == j
  }

  lemma UniqueIdsAre(cs: seq<Candidate>)
    ensures UniqueIds(cs) <==> NoIdTwice(cs)
  {
    if !NoIdTwice(cs) {
      var i, j :| 0 <= i < |cs| && 0 <= j < |cs| && cs[i].bugId == cs[j].bugId && i != j;
      assert i < j || j < i;
    }
  }

  /** The response of a stage is admissible: valid candidates that answer the Hunter's claims, in a fresh session. */
  ghost predicate Admissible(s: Stage, m: Message, a: Assessments, seen: set<string>, valid: Candidate -> bool) {
    && m.items.Some? && |m.items.value| <= 1000 && NoIdTwice(m.items.value)
    && (forall i :: 0 <= i < |m.items.value| ==> valid(m.items.value[i]))
    && (s.Hunter? || AnswersExactly(m.items.value, Of(a, Hunter)))
    && m.session !in seen
  }

  /** A stage of the runner completes exactly when its response is admissible and everything before it completed. */
  lemma StageCompletesExactly(c: Chain, s: Stage, n: Native, valid: Candidate -> bool, digest: Input -> string)
    requires UniqueIds(Of(c.assessments, Hunter))
    ensures var r := RunStage(c, s, n, valid, digest).receipts[|c.receipts|];
            && (r.completed <==>
                  && n.message.Some? && Admissible(s, n.message.value, c.assessments, c.seen, valid)
                  && AllCompleted(c.receipts) && n.sourceValid && n.promptValid)
            && r.stage == s && r.inputDigest == digest(StageInput(s, c.assessments)) && r.sourceValid == n.sourceValid
            && (r.session.Some? <==> n.message.Some?)
               && (r.session.Some? ==> r.session.value == n.message.value.session)
  {
    if n.message.Some? && n.message.value.items.Some? { UniqueIdsAre(n.message.value.items.value); }
    if n.message.Some? && n.message.value.items.Some? && UniqueIds(n.message.value.items.value) {
      AnswersExactlyWhenPlacesMatch(n.message.value.items.value, Of(c.assessments, Hunter));
    }
    hide PlacesOf, AnswersExactly, UniqueIds, NoIdTwice, StageInput, AllCompleted;
  }

  /** A recorded stage binds exactly when it says it completed and its raw message is admissible in its turn. */
  lemma StageBindsExactly(p: Replayed, s: Stage, r: Receipt, m: Message, valid: Candidate -> bool,
                          digest: Input -> string)
    requires UniqueIds(Of(p.assessments, Hunter))
    ensures ReplayStage(p, s, r, m, valid, digest).Some? <==>
              && Admissible(s, m, p.assessments, p.seen, valid)
              && r.stage == s && r.completed && r.reason.None? && r.sourceValid && r.session == Some(m.session)
              && r.inputDigest == digest(StageInput(s, p.assessments))
  {
    if m.items.Some? { UniqueIdsAre(m.items.value); }
    if m.items.Some? && UniqueIds(m.items.value) {
      AnswersExactlyWhenPlacesMatch(m.items.value, Of(p.assessments, Hunter));
    }
    hide PlacesOf, AnswersExactly, UniqueIds, NoIdTwice, StageInput, Of;
  }

  /** A stage that binds adds its candidates and its session, and changes nothing else. */
  lemma BoundStageAdds(p: Replayed, s: Stage, r: Receipt, m: Message, valid: Candidate -> bool, digest: Input -> string)
    requires ReplayStage(p, s, r, m, valid, digest).Some?
    ensures var q := ReplayStage(p, s, r, m, valid, digest).value;
            && Some(Of(q.assessments, s)) == m.items && q.seen == p.seen + {m.session}
            && forall t :: t != s ==> Of(q.assessments, t) == Of(p.assessments, t)
  {
    hide Preserves, UniqueIds, StageInput;
  }

  // ---- The importer is sound on whatever is recorded ----

  lemma {:induction false} ReplayIsFaithful(context: Option<string>, stages: seq<Stage>, records: seq<Receipt>,
                                            messages: seq<Message>, valid: Candidate -> bool, digest: Input -> string)
    requires |records| == |messages| == |stages| && Lineage(stages)
    requires Replay(context, stages, records, messages, valid, digest).Some?
    ensures var p := Replay(context, stages, records, messages, valid, digest).value;
            Faithful(context, stages, records, p.assessments)
            && (forall i :: 0 <= i < |stages| ==> records[i].session.Some? && records[i].session.value in p.seen)
            && (context.Some? ==> context.value in p.seen)
  {
    hide StageInput, PlacesOf, Faithful, ReplayStage;
    var n := |stages| - 1;
    if n == 0 {
      FirstStage(context, stages, records, messages, valid, digest);
    } else {
      hide Replay;
      LineageFront(stages);
      ReplaySnoc(context, stages, records, messages, valid, digest);
      var p := Replay(context, stages[..n], records[..n], messages[..n], valid, digest).value;
      ReplayIsFaithful(context, stages[..n], records[..n], messages[..n], valid, digest);
      forall i | 0 <= i < n
        ensures records[i].session.Some? && records[i].session.value in p.seen
      {
        assert records[..n][i] == records[i];
      }
      NextStage(context, stages, records, p, messages[n], valid, digest);
    }
  }

  lemma ReplaySnoc(context: Option<string>, stages: seq<Stage>, records: seq<Receipt>, messages: seq<Message>,
                   valid: Candidate -> bool, digest: Input -> string)
    requires |records| == |messages| == |stages| && stages != []
    ensures var n := |stages| - 1;
            Replay(context, stages, records, messages, valid, digest)
            == match Replay(context, stages[..n], records[..n], messages[..n], valid, digest)
               case None => None
               case Some(p) => ReplayStage(p, stages[n], records[n], messages[n], valid, digest)
  {
    hide ReplayStage;
  }

  lemma FirstStage(context: Option<string>, stages: seq<Stage>, records: seq<Receipt>, messages: seq<Message>,
                   valid: Candidate -> bool, digest: Input -> string)
    requires |records| == |messages| == |stages| == 1 && Lineage(stages)
    requires Replay(context, stages, records, messages, valid, digest).Some?
    ensures var p := Replay(context, stages, records, messages, valid, digest).value;
            Faithful(context, stages, records, p.assessments)
            && records[0].session.Some? && records[0].session.value in p.seen
               && (context.Some? ==> context.value in p.seen)
  {
    hide StageInput, PlacesOf;
    assert stages[..0] == [];
  }

  lemma {:induction false} NextStage(context: Option<string>, stages: seq<Stage>, records: seq<Receipt>, p: Replayed,
                                     m: Message,
                  valid: Candidate -> bool, digest: Input -> string)
    requires |records| == |stages| > 1 && !stages[|stages| - 1].Hunter? && stages[0].Hunter?
    requires forall i :: 0 <= i < |stages| - 1 ==> stages[i] != stages[|stages| - 1]
    requires Faithful(context, stages[..|stages| - 1], records[..|stages| - 1], p.assessments)
    requires forall i :: 0 <= i < |stages| - 1 ==> records[i].session.Some? && records[i].session.value in p.seen
    requires context.Some? ==> context.value in p.seen
    requires ReplayStage(p, stages[|stages| - 1], records[|stages| - 1], m, valid, digest).Some?
    ensures var q := ReplayStage(p, stages[|stages| - 1], records[|stages| - 1], m, valid, digest).value;
            Faithful(context, stages, records, q.assessments)
            && (forall i :: 0 <= i < |stages| ==> records[i].session.Some? && records[i].session.value in q.seen)
            && (context.Some? ==> context.value in q.seen)
  {
    hide StageInput, PlacesOf, UniqueIds;
    var n := |stages| - 1;
    var q := ReplayStage(p, stages[n], records[n], m, valid, digest).value;
    assert Of(q.assessments, Hunter) == Of(p.assessments, Hunter);
    forall i | 0 <= i < n
      ensures stages[i] in p.assessments && q.assessments[stages[i]] == p.assessments[stages[i]]
      ensures UniqueIds(q.assessments[stages[i]])
              && PlacesOf(q.assessments[stages[i]]) == PlacesOf(Of(q.assessments, Hunter))
      ensures records[i].session != context && records[i].session != records[n].session
    {
      assert stages[..n][i] == stages[i] && records[..n][i] == records[i];
    }
    forall i, j | 0 <= i < j < n ensures records[i].session != records[j].session {
      assert records[..n][i] == records[i] && records[..n][j] == records[j];
    }
  }

  // ---- The replay of the runner's own chain ----

  /** The messages of a chain in which every stage left one. */
  function Messages(natives: seq<Native>): seq<Message>
    requires forall i :: 0 <= i < |natives| ==> natives[i].message.Some?
  {
    seq(|natives|, i requires 0 <= i < |natives| => natives[i].message.value)
  }

  /**
   The importer accepts what the runner recorded exactly when every stage completed, and rebuilds the same
   assessments.
   */
  lemma {:induction false} ReplayAgrees(context: Option<string>, stages: seq<Stage>, natives: seq<Native>,
                                        valid: Candidate -> bool, digest: Input -> string)
    requires |natives| == |stages| && forall i :: 0 <= i < |natives| ==> natives[i].message.Some?
    ensures var c := RunAll(context, stages, natives, valid, digest);
            |c.receipts| == |stages|
            && var p := Replay(context, stages, c.receipts, Messages(natives), valid, digest);
               (p.Some? <==> AllCompleted(c.receipts)) && (p.Some? ==> p.value == Replayed(c.assessments, c.seen))
  {
    ChainShape(context, stages, natives, valid, digest);
    hide RunStage, ReplayStage;
    if stages != [] {
      hide AllCompleted, Replay, RunAll;
      var n := |stages| - 1;
      var front, c := RunAll(context, stages[..n], natives[..n], valid, digest),
          RunAll(context, stages, natives, valid, digest);
      ChainShape(context, stages[..n], natives[..n], valid, digest);
      ReplayAgrees(context, stages[..n], natives[..n], valid, digest);
      RunSnoc(context, stages, natives, valid, digest);
      StageAppends(front, stages[n], natives[n], valid, digest);
      ReplaySnoc(context, stages, c.receipts, Messages(natives), valid, digest);
      assert c.receipts[..n] == front.receipts && Messages(natives)[..n] == Messages(natives[..n]);
      LastCompleted(front.receipts, c.receipts[n]);
      if AllCompleted(front.receipts) {
        StageAgrees(front, stages[n], natives[n], valid, digest);
      }
    }
  }

  lemma RunSnoc(context: Option<string>, stages: seq<Stage>, natives: seq<Native>, valid: Candidate -> bool,
                digest: Input -> string)
    requires |natives| == |stages| && stages != []
    ensures var n := |stages| - 1;
            RunAll(context, stages, natives, valid, digest)
            == RunStage(RunAll(context, stages[..n], natives[..n], valid, digest), stages[n], natives[n], valid, digest)
  {
    hide RunStage;
  }

  lemma StageAppends(c: Chain, s: Stage, n: Native, valid: Candidate -> bool, digest: Input -> string)
    ensures var c' := RunStage(c, s, n, valid, digest);
            |c'.receipts| == |c.receipts| + 1 && c'.receipts == c.receipts + [c'.receipts[|c.receipts|]]
  {
    hide Candidates, Preserves, StageInput, AllCompleted;
  }

  lemma LastCompleted(front: seq<Receipt>, last: Receipt)
    ensures AllCompleted(front + [last]) <==> AllCompleted(front) && last.completed
  {
    assert forall i :: 0 <= i < |front| ==> (front + [last])[i] == front[i];
    assert (front + [last])[|front|] == last;
  }

  lemma StageAgrees(c: Chain, s: Stage, n: Native, valid: Candidate -> bool, digest: Input -> string)
    requires n.message.Some? && AllCompleted(c.receipts)
    ensures var c' := RunStage(c, s, n, valid, digest);
            var r := c'.receipts[|c.receipts|];
            var p := ReplayStage(Replayed(c.assessments, c.seen), s, r, n.message.value, valid, digest);
            (p.Some? <==> r.completed) && (p.Some? ==> p.value == Replayed(c'.assessments, c'.seen))
  {
    hide Parsed, Preserves, StageInput, AllCompleted;
  }

  /**
   A fully completed chain has pairwise different sessions, none of them the context session, keeps the
   Hunter's id-to-location map at every stage, and passes the importer's replay with the same assessments.
   */
  lemma {:induction false} CompletedChainIsFaithful(context: Option<string>, stages: seq<Stage>, natives: seq<Native>,
                                                    valid: Candidate -> bool,
                                 digest: Input -> string)
    requires |natives| == |stages| && Lineage(stages)
    requires AllCompleted(RunAll(context, stages, natives, valid, digest).receipts)
    ensures var c := RunAll(context, stages, natives, valid, digest);
            && Faithful(context, stages, c.receipts, c.assessments)
            && (forall i :: 0 <= i < |natives| ==> natives[i].message.Some?)
            && Replay(context, stages, c.receipts, Messages(natives), valid, digest)
               == Some(Replayed(c.assessments, c.seen))
  {
    CompletedHaveMessages(context, stages, natives, valid, digest);
    hide RunAll, Replay, Faithful, Lineage, AllCompleted;
    ReplayAgrees(context, stages, natives, valid, digest);
    ReplayIsFaithful(context, stages, RunAll(context, stages, natives, valid, digest).receipts, Messages(natives),
                     valid, digest);
  }

  lemma {:induction false} CompletedHaveMessages(context: Option<string>, stages: seq<Stage>, natives: seq<Native>,
                                                 valid: Candidate -> bool, digest: Input -> string)
    requires |natives| == |stages| && AllCompleted(RunAll(context, stages, natives, valid, digest).receipts)
    ensures forall i :: 0 <= i < |natives| ==> natives[i].message.Some?
  {
    hide Parsed, Preserves, StageInput;
    if stages != [] {
      var n := |stages| - 1;
      CompletedPrefix(context, stages, natives, valid, digest);
      CompletedHaveMessages(context, stages[..n], natives[..n], valid, digest);
      var front := RunAll(context, stages[..n], natives[..n], valid, digest);
      assert RunAll(context, stages, natives, valid, digest).receipts[|front.receipts|].completed;
      forall i | 0 <= i < n ensures natives[i].message.Some? { assert natives[..n][i] == natives[i]; }
    }
  }
}
