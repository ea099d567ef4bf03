/**
 Human labels: `resolve_labels` (bench/scorer/calibration.py) and the payload checker's own label rules
 (`_valid_human_calibration_payload`, bench/scorer/evaluation.py).
 */
module Labels {
  import opened Wrappers
  import Sequences

  datatype Role = Primary | Adjudicator | OtherRole

  /** A label row; `id` is the reviewed candidate, blinded or not. */
  datatype Row = Row(id: string, reviewer: string, role: Role, verdict: string, seconds: real, reason: string)

  datatype Status = Agreed(verdict: string) | Adjudicated(verdict: string) | Unresolved

  /** The ASCII characters that `str.strip` removes. */
  predicate Space(c: char) {
    c == ' ' || '\t' <= c <= '\r' || 0x1c as char <= c <= 0x1f as char
  }

  /** `not s.strip()`. */
  predicate Blank(s: string) {
    forall i :: 0 <= i < |s| ==> Space(s[i])
  }

  /** What both checkers demand of a row's verdict, time and reason. */
  predicate Usable(r: Row) {
    r.verdict in {"real", "false", "unverifiable"} && r.seconds > 0.0 && !Blank(r.reason)
  }

  function For(rows: seq<Row>, id: string): seq<Row> {
    if rows == [] then []
    else
      var front, row := rows[..|rows| - 1], rows[|rows| - 1];
      if row.id == id then For(front, id) + [row] else For(front, id)
  }

  function OfRole(rows: seq<Row>, role: Role): seq<Row> {
    if rows == [] then []
    else
      var front, row := rows[..|rows| - 1], rows[|rows| - 1];
      if row.role == role then OfRole(front, role) + [row] else OfRole(front, role)
  }

  /** Two votes that differ or that include `unverifiable`. */
  predicate Disagree(votes: seq<Row>) {
    |votes| == 2
        && (votes[0].verdict != votes[1].verdict || votes[0].verdict == "unverifiable"
            || votes[1].verdict == "unverifiable")
  }

  predicate Voted(votes: seq<Row>, reviewer: string) {
    exists i :: 0 <= i < |votes| && votes[i].reviewer == reviewer
  }

  function Reviewers(votes: seq<Row>): set<string> {
    set i | 0 <= i < |votes| :: votes[i].reviewer
  }

  // ---- resolve_labels ----

  predicate PrimaryOk(packets: seq<string>, r: Row) {
    r.id in packets && !Blank(r.reviewer) && r.role.Primary? && Usable(r)
  }

  /** At most two votes for each packet, by different reviewers. */
  ghost predicate LabelsOk(packets: seq<string>, labels: seq<Row>) {
    && (forall i :: 0 <= i < |labels| ==> PrimaryOk(packets, labels[i]))
    && (forall id :: |For(labels, id)| <= 2)
    && (forall id :: |For(labels, id)| == 2 ==> For(labels, id)[0].reviewer != For(labels, id)[1].reviewer)
  }

  predicate AdjudicationOk(packets: seq<string>, votes: seq<Row>, r: Row) {
    r.id in packets && Disagree(votes) && r.role.Adjudicator? && Usable(r) && !Blank(r.reviewer)
        && !Voted(votes, r.reviewer)
  }

  /** At most one adjudication for each packet, of a genuine disagreement, by a third reviewer. */
  ghost predicate AdjudicationsOk(packets: seq<string>, labels: seq<Row>, adjudications: seq<Row>) {
    && (forall i :: 0 <= i < |adjudications| ==>
        AdjudicationOk(packets, For(labels, adjudications[i].id), adjudications[i]))
    && OncePerPacket(adjudications)
  }

  ghost predicate OncePerPacket(rows: seq<Row>) {
    forall id :: |For(rows, id)| <= 1
  }

  function Resolution(votes: seq<Row>, decisions: seq<Row>): Status {
    if decisions != [] then Adjudicated(decisions[0].verdict)
    else if |votes| == 2 && votes[0].verdict == votes[1].verdict && votes[0].verdict != "unverifiable"
        then Agreed(votes[0].verdict)
    else Unresolved
  }

  function StatusOf(labels: seq<Row>, adjudications: seq<Row>, id: string): Status {
    Resolution(For(labels, id), For(adjudications, id))
  }

  lemma {:induction false} ForHas(rows: seq<Row>, id: string, r: Row)
    ensures r in For(rows, id) <==> r in rows && r.id == id
  {
    if rows != [] {
      ForHas(rows[..|rows| - 1], id, r);
      assert rows == rows[..|rows| - 1] + [rows[|rows| - 1]];
    }
  }

  /** Some row of the list gives the packet this verdict. */
  ghost predicate Gives(rows: seq<Row>, id: string, verdict: string) {
    exists r :: r in rows && r.id == id && r.verdict == verdict
  }

  /**
   What a packet's status means: the adjudicator's verdict, if there is one; otherwise the verdict its two reviewers
   share, if it is not `unverifiable`; otherwise none.
   */
  lemma StatusMeans(packets: seq<string>, labels: seq<Row>, adjudications: seq<Row>, id: string, verdict: string)
    requires LabelsOk(packets, labels) && AdjudicationsOk(packets, labels, adjudications)
    ensures StatusOf(labels, adjudications, id) == Adjudicated(verdict) <==> Gives(adjudications, id, verdict)
    ensures StatusOf(labels, adjudications, id) == Agreed(verdict) <==>
              && For(adjudications, id) == [] && verdict != "unverifiable"
              && |For(labels, id)| == 2 && forall r :: r in labels && r.id == id ==> r.verdict == verdict
  {
    hide PrimaryOk, AdjudicationOk, For, Gives;
    var votes, decisions := For(labels, id), For(adjudications, id);
    assert |decisions| <= 1 && |votes| <= 2;
    DecisionGives(adjudications, id, verdict);
    if |votes| == 2 { SharedVerdict(labels, id, verdict); }
  }

  lemma DecisionGives(rows: seq<Row>, id: string, verdict: string)
    requires |For(rows, id)| <= 1
    ensures Gives(rows, id, verdict) <==> For(rows, id) != [] && For(rows, id)[0].verdict == verdict
  {
    hide For;
    var own := For(rows, id);
    if own != [] {
      ForHas(rows, id, own[0]);
      assert own[0] in own;
    }
    if Gives(rows, id, verdict) {
      var r :| r in rows && r.id == id && r.verdict == verdict;
      ForHas(rows, id, r);
      assert r in own;
    }
  }

  lemma SharedVerdict(rows: seq<Row>, id: string, verdict: string)
    requires |For(rows, id)| == 2
    ensures For(rows, id)[0].verdict == For(rows, id)[1].verdict == verdict
            <==> forall r :: r in rows && r.id == id ==> r.verdict == verdict
  {
    hide For;
    var own := For(rows, id);
    assert own[0] in own && own[1] in own;
    forall r ensures r in own <==> r in rows && r.id == id { ForHas(rows, id, r); }
  }

  lemma ForSnoc(rows: seq<Row>, i: nat, id: string)
    requires i < |rows|
    ensures For(rows[..i + 1], id) == if rows[i].id == id then For(rows[..i], id) + [rows[i]] else For(rows[..i], id)
  {
    assert rows[..i + 1][..i] == rows[..i] && rows[..i + 1][i] == rows[i];
  }

  /** A group only grows. */
  lemma ForGrows(rows: seq<Row>, i: nat, id: string)
    requires i <= |rows|
    ensures For(rows[..i], id) <= For(rows, id)
    decreases |rows| - i
  {
    if i == |rows| {
      assert rows[..i] == rows;
    } else {
      ForSnoc(rows, i, id);
      ForGrows(rows, i + 1, id);
    }
  }

  function Get(m: map<string, seq<Row>>, id: string): seq<Row> {
    if id in m then m[id] else []
  }

  ghost predicate ByPacket(m: map<string, seq<Row>>, rows: seq<Row>) {
    forall id :: Get(m, id) == For(rows, id)
  }

  ghost predicate FewVotes(m: map<string, seq<Row>>) {
    forall id :: |Get(m, id)| <= 2 && (|Get(m, id)| == 2 ==> Get(m, id)[0].reviewer != Get(m, id)[1].reviewer)
  }

  lemma AddVote(m: map<string, seq<Row>>, labels: seq<Row>, i: nat)
    requires i < |labels| && ByPacket(m, labels[..i]) && FewVotes(m)
    requires |Get(m, labels[i].id)| < 2 && !Voted(Get(m, labels[i].id), labels[i].reviewer)
    ensures var m' := m[labels[i].id := Get(m, labels[i].id) + [labels[i]]];
            ByPacket(m', labels[..i + 1]) && FewVotes(m')
  {
    var row := labels[i];
    forall id
      ensures For(labels[..i + 1], id) == if row.id == id then For(labels[..i], id) + [row] else For(labels[..i], id)
    {
      ForSnoc(labels, i, id);
    }
    hide For;
    var m' := m[row.id := Get(m, row.id) + [row]];
    assert |Get(m, row.id)| == 1 ==> Get(m, row.id)[0].reviewer != row.reviewer;
    forall id ensures Get(m', id) == For(labels[..i + 1], id) {
      assert Get(m, id) == For(labels[..i], id);
      if row.id == id {
        assert For(labels[..i + 1], id) == Get(m, id) + [row];
      } else {
        assert Get(m', id) == Get(m, id);
      }
    }
    forall id
      ensures |Get(m', id)| <= 2 && (|Get(m', id)| == 2 ==> Get(m', id)[0].reviewer != Get(m', id)[1].reviewer)
    {
      if row.id == id { assert Get(m', id) == Get(m, id) + [row]; } else { assert Get(m', id) == Get(m, id); }
    }
  }

  /** The primary loop: the votes by packet, or an error. */
  method GroupLabels(packets: seq<string>, labels: seq<Row>) returns (r: Option<map<string, seq<Row>>>)
    ensures r.Some? <==> LabelsOk(packets, labels)
    ensures r.Some? ==> forall id :: For(labels, id) == if id in r.value then r.value[id] else []
  {
    hide PrimaryOk, For, LabelsOk, FewVotes, Voted;
    var grouped: map<string, seq<Row>> := map[];
    NoneYet(labels);
    NoVotes();
    for i := 0 to |labels|
      invariant forall k :: 0 <= k < i ==> PrimaryOk(packets, labels[k])
      invariant ByPacket(grouped, labels[..i]) && FewVotes(grouped)
    {
      var row := labels[i];
      var votes := Get(grouped, row.id);
      GroupStep(packets, labels, i);
      if !PrimaryOk(packets, row) {
        return None;
      }
      if |votes| >= 2 || Voted(votes, row.reviewer) {
        return None;
      }
      AddVote(grouped, labels, i);
      grouped := grouped[row.id := votes + [row]];
    }
    assert labels[..|labels|] == labels;
    LabelsAccepted(packets, labels, grouped);
    r := Some(grouped);
  }

  lemma NoVotes()
    ensures FewVotes(map[])
  {
  }

  lemma LabelsAccepted(packets: seq<string>, labels: seq<Row>, m: map<string, seq<Row>>)
    requires (forall k :: 0 <= k < |labels| ==> PrimaryOk(packets, labels[k])) && ByPacket(m, labels) && FewVotes(m)
    ensures LabelsOk(packets, labels)
  {
    hide PrimaryOk, For, Get;
    forall id
      ensures |For(labels, id)| <= 2
              && (|For(labels, id)| == 2 ==> For(labels, id)[0].reviewer != For(labels, id)[1].reviewer)
    {
      assert Get(m, id) == For(labels, id);
    }
  }

  lemma GroupStep(packets: seq<string>, labels: seq<Row>, i: nat)
    requires i < |labels|
    ensures LabelsOk(packets, labels) ==>
              PrimaryOk(packets, labels[i]) && |For(labels[..i], labels[i].id)| < 2
              && !Voted(For(labels[..i], labels[i].id), labels[i].reviewer)
  {
    hide PrimaryOk;
    var id := labels[i].id;
    ForSnoc(labels, i, id);
    ForGrows(labels, i + 1, id);
    if LabelsOk(packets, labels) {
      var before, all := For(labels[..i], id), For(labels, id);
      assert |all| <= 2;
      assert all[|before|] == labels[i] && forall k :: 0 <= k < |before| ==> all[k] == before[k];
    }
  }

  lemma NoneYet(rows: seq<Row>)
    ensures forall id :: For(rows[..0], id) == []
  {
  }

  function One(m: map<string, Row>, id: string): seq<Row> {
    if id in m then [m[id]] else []
  }

  lemma AdjudicationStep(packets: seq<string>, labels: seq<Row>, adjudications: seq<Row>, i: nat)
    requires i < |adjudications|
    ensures AdjudicationsOk(packets, labels, adjudications) ==>
              AdjudicationOk(packets, For(labels, adjudications[i].id), adjudications[i])
              && For(adjudications[..i], adjudications[i].id) == []
  {
    hide AdjudicationOk;
    ForSnoc(adjudications, i, adjudications[i].id);
    ForGrows(adjudications, i + 1, adjudications[i].id);
    hide For;
    if AdjudicationsOk(packets, labels, adjudications) {
      assert |For(adjudications, adjudications[i].id)| <= 1;
    }
  }

  ghost predicate Decided(m: map<string, Row>, rows: seq<Row>) {
    forall id :: For(rows, id) == One(m, id)
  }

  lemma AddDecision(m: map<string, Row>, adjudications: seq<Row>, i: nat)
    requires i < |adjudications| && adjudications[i].id !in m && Decided(m, adjudications[..i])
    ensures Decided(m[adjudications[i].id := adjudications[i]], adjudications[..i + 1])
  {
    hide For;
    var row := adjudications[i];
    var m' := m[row.id := row];
    forall id ensures For(adjudications[..i + 1], id) == One(m', id) {
      ForSnoc(adjudications, i, id);
      assert For(adjudications[..i], id) == One(m, id);
      if row.id == id {
        assert One(m, id) == [];
        Sequences.EmptyLeft([row]);
      } else {
        assert One(m', id) == One(m, id);
      }
    }
  }

  lemma AdjudicationsAccepted(packets: seq<string>, labels: seq<Row>, adjudications: seq<Row>, m: map<string, Row>)
    requires forall k :: 0 <= k < |adjudications| ==>
               AdjudicationOk(packets, For(labels, adjudications[k].id), adjudications[k])
    requires Decided(m, adjudications)
    ensures AdjudicationsOk(packets, labels, adjudications)
  {
    hide AdjudicationOk, For;
  }

  /** The adjudication loop. */
  method GroupAdjudications(packets: seq<string>, labels: seq<Row>, grouped: map<string, seq<Row>>,
                            adjudications: seq<Row>)
      returns (r: Option<map<string, Row>>)
    requires forall id :: For(labels, id) == if id in grouped then grouped[id] else []
    ensures r.Some? <==> AdjudicationsOk(packets, labels, adjudications)
    ensures r.Some? ==> forall id :: For(adjudications, id) == if id in r.value then [r.value[id]] else []
  {
    hide AdjudicationOk, AdjudicationsOk, For;
    var adjudicated: map<string, Row> := map[];
    NoneYet(adjudications);
    for i := 0 to |adjudications|
      invariant forall k :: 0 <= k < i ==> AdjudicationOk(packets, For(labels, adjudications[k].id), adjudications[k])
      invariant Decided(adjudicated, adjudications[..i])
    {
      var row := adjudications[i];
      var votes := if row.id in grouped then grouped[row.id] else [];
      AdjudicationStep(packets, labels, adjudications, i);
      assert For(adjudications[..i], row.id) == One(adjudicated, row.id);
      if !AdjudicationOk(packets, votes, row) {
        return None;
      }
      if row.id in adjudicated {
        return None;
      }
      AddDecision(adjudicated, adjudications, i);
      adjudicated := adjudicated[row.id := row];
    }
    assert adjudications[..|adjudications|] == adjudications;
    AdjudicationsAccepted(packets, labels, adjudications, adjudicated);
    r := Some(adjudicated);
  }

  function TotalSeconds(rows: seq<Row>): real {
    if rows == [] then 0.0 else rows[0].seconds + TotalSeconds(rows[1..])
  }

  /** One packet's result: its status, and how its reviewers got there. */
  datatype Resolved = Resolved(status: Status, reviewers: nat, seconds: real, disagreement: bool)

  function ResolvedOf(labels: seq<Row>, adjudications: seq<Row>, id: string): Resolved {
    var votes, decisions := For(labels, id), For(adjudications, id);
    Resolved(StatusOf(labels, adjudications, id), |votes|, TotalSeconds(votes) + TotalSeconds(decisions),
             Disagree(votes))
  }

  /** `resolve_labels`: the result of every packet, or an error. */
  method ResolveLabels(packets: seq<string>, labels: seq<Row>, adjudications: seq<Row>)
      returns (r: Option<seq<Resolved>>)
    ensures r.Some? <==> LabelsOk(packets, labels) && AdjudicationsOk(packets, labels, adjudications)
    ensures r.Some? ==> |r.value| == |packets|
                        && forall i :: 0 <= i < |packets| ==>
                             r.value[i] == ResolvedOf(labels, adjudications, packets[i])
  {
    hide LabelsOk, AdjudicationsOk, For, Disagree, TotalSeconds;
    var grouped := GroupLabels(packets, labels);
    if grouped.None? {
      return None;
    }
    var adjudicated := GroupAdjudications(packets, labels, grouped.value, adjudications);
    if adjudicated.None? {
      return None;
    }
    var result: seq<Resolved> := [];
    for i := 0 to |packets|
      invariant |result| == i && forall k :: 0 <= k < i ==> result[k] == ResolvedOf(labels, adjudications, packets[k])
    {
      var id := packets[i];
      var votes := if id in grouped.value then grouped.value[id] else [];
      var decisions := if id in adjudicated.value then [adjudicated.value[id]] else [];
      assert For(labels, id) == votes && For(adjudications, id) == decisions;
      var status := Unresolved;
      if decisions != [] {
        status := Adjudicated(decisions[0].verdict);
      } else if |votes| == 2 && votes[0].verdict == votes[1].verdict && votes[0].verdict != "unverifiable" {
        status := Agreed(votes[0].verdict);
      }
      result := result + [Resolved(status, |votes|, TotalSeconds(votes) + TotalSeconds(decisions), Disagree(votes))];
    }
    r := Some(result);
  }

  // ---- What is accepted, row by row ----

  lemma SpaceIs(c: char)
    ensures Space(c) <==> c as int in {9, 10, 11, 12, 13, 28, 29, 30, 31, 32}
  {
  }

  /** `s.strip()`. */
  function Stripped(s: string): string {
    if s == "" then ""
    else if Space(s[0]) then Stripped(s[1..])
    else if Space(s[|s| - 1]) then Stripped(s[..|s| - 1])
    else s
  }

  lemma {:induction false} BlankStripsToNothing(s: string)
    ensures Blank(s) <==> Stripped(s) == ""
  {
    if s != "" && Space(s[0]) {
      BlankStripsToNothing(s[1..]);
      assert forall k :: 0 < k < |s| ==> s[k] == s[1..][k - 1];
      assert Blank(s) <==> Blank(s[1..]);
    } else if s != "" {
      if Space(s[|s| - 1]) { NotBlankStaysSo(s); }
    }
  }

  /** A text whose first character stays keeps it while it is stripped at the end. */
  lemma {:induction false} NotBlankStaysSo(s: string)
    requires s != "" && !Space(s[0])
    ensures Stripped(s) != ""
  {
    if Space(s[|s| - 1]) { NotBlankStaysSo(s[..|s| - 1]); }
  }

  /** A verdict of the three, some time and a reason, from a reviewer with a name. */
  predicate Complete(r: Row) {
    (r.verdict == "real" || r.verdict == "false" || r.verdict == "unverifiable") && 0.0 < r.seconds
        && Stripped(r.reason) != "" && Stripped(r.reviewer) != ""
  }

  /** Two votes settle a packet when they share a verdict other than `unverifiable`. */
  predicate Settle(a: Row, b: Row) {
    a.verdict == b.verdict && a.verdict != "unverifiable"
  }

  ghost predicate VotesAccepted(packets: seq<string>, labels: seq<Row>) {
    && (forall i :: 0 <= i < |labels| ==> labels[i].id in packets && labels[i].role == Primary && Complete(labels[i]))
    && (forall i, j :: 0 <= i < j < |labels| && labels[i].id == labels[j].id ==>
          labels[i].reviewer != labels[j].reviewer)
    && (forall i, j, k :: 0 <= i < j < k < |labels| ==> !(labels[i].id == labels[j].id == labels[k].id))
  }

  ghost predicate DecisionAccepted(labels: seq<Row>, d: Row) {
    && d.role == Adjudicator && Complete(d)
    && (exists i, j :: 0 <= i < j < |labels| && labels[i].id == labels[j].id == d.id && !Settle(labels[i], labels[j]))
    && (forall i :: 0 <= i < |labels| && labels[i].id == d.id ==> labels[i].reviewer != d.reviewer)
  }

  lemma {:induction false} Positions(rows: seq<Row>, id: string) returns (at: seq<nat>)
    ensures |at| == |For(rows, id)|
    ensures forall k :: 0 <= k < |at| ==> at[k] < |rows| && rows[at[k]] == For(rows, id)[k] && rows[at[k]].id == id
    ensures forall k, l :: 0 <= k < l < |at| ==> at[k] < at[l]
    ensures forall i :: 0 <= i < |rows| && rows[i].id == id ==> i in at
  {
    at := [];
    if rows != [] {
      var n := |rows| - 1;
      at := Positions(rows[..n], id);
      if rows[n].id == id { at := at + [n]; }
    }
  }

  lemma Pick(rows: seq<Row>, id: string)
    ensures |For(rows, id)| >= 2 ==>
              exists i, j :: 0 <= i < j < |rows| && rows[i].id == rows[j].id == id
                             && For(rows, id)[0] == rows[i] && For(rows, id)[1] == rows[j]
    ensures |For(rows, id)| >= 3 ==>
              exists i, j, k :: 0 <= i < j < k < |rows| && rows[i].id == rows[j].id == rows[k].id == id
  {
    var at := Positions(rows, id);
    hide For;
    if |at| >= 3 { assert at[0] < at[1] < at[2]; }
    if |at| >= 2 { assert at[0] < at[1]; }
  }

  lemma UsableIsComplete(r: Row)
    ensures Complete(r) <==> Usable(r) && !Blank(r.reviewer)
  {
    BlankStripsToNothing(r.reason);
    BlankStripsToNothing(r.reviewer);
    hide Blank, Stripped;
  }

  /** The votes accepted: complete ones of known packets, at most two for each, by different reviewers. */
  lemma VotesAcceptedExactly(packets: seq<string>, labels: seq<Row>)
    ensures LabelsOk(packets, labels) <==> VotesAccepted(packets, labels)
  {
    hide Usable, Blank, Complete, For;
    forall i | 0 <= i < |labels| ensures Complete(labels[i]) <==> Usable(labels[i]) && !Blank(labels[i].reviewer) {
      UsableIsComplete(labels[i]);
    }
    if LabelsOk(packets, labels) {
      forall i, j | 0 <= i < j < |labels| && labels[i].id == labels[j].id
        ensures labels[i].reviewer != labels[j].reviewer
        ensures forall k :: j < k < |labels| ==> labels[k].id != labels[i].id
      {
        TwoOfThem(labels, i, j);
      }
    }
    if VotesAccepted(packets, labels) {
      forall id
        ensures |For(labels, id)| <= 2
                && (|For(labels, id)| == 2 ==> For(labels, id)[0].reviewer != For(labels, id)[1].reviewer)
      {
        Pick(labels, id);
      }
    }
  }

  /** With at most two votes for their packet, two of its rows are its votes. */
  lemma TwoOfThem(rows: seq<Row>, i: nat, j: nat)
    requires i < j < |rows| && rows[i].id == rows[j].id && |For(rows, rows[i].id)| <= 2
    ensures For(rows, rows[i].id) == [rows[i], rows[j]]
    ensures forall k :: j < k < |rows| ==> rows[k].id != rows[i].id
  {
    var at := Positions(rows, rows[i].id);
    hide For;
    assert i in at && j in at;
    assert at == [at[0], at[1]];
  }

  /** The decisions accepted: a complete one by a third reviewer, of two votes that do not settle their packet. */
  lemma DecisionAcceptedExactly(packets: seq<string>, labels: seq<Row>, d: Row)
    requires LabelsOk(packets, labels)
    ensures AdjudicationOk(packets, For(labels, d.id), d) <==> DecisionAccepted(labels, d)
  {
    var votes := For(labels, d.id);
    var at := Positions(labels, d.id);
    UsableIsComplete(d);
    hide Usable, Blank, Complete, For;
    assert Voted(votes, d.reviewer)
        <==> exists i :: 0 <= i < |labels| && labels[i].id == d.id && labels[i].reviewer == d.reviewer by {
      if Voted(votes, d.reviewer) {
        var k :| 0 <= k < |votes| && votes[k].reviewer == d.reviewer;
        assert labels[at[k]].reviewer == d.reviewer;
      }
      forall i | 0 <= i < |labels| && labels[i].id == d.id ensures labels[i] in votes {
        assert i in at;
        var k :| 0 <= k < |at| && at[k] == i;
        assert votes[k] == labels[i];
      }
    }
    assert |votes| <= 2;
    if Disagree(votes) {
      assert at[0] < at[1] && !Settle(labels[at[0]], labels[at[1]]);
      assert labels[at[0]].id in packets by { assert PrimaryOk(packets, labels[at[0]]); }
    }
    forall i, j | 0 <= i < j < |labels| && labels[i].id == labels[j].id == d.id
      ensures Disagree(votes) <==> !Settle(labels[i], labels[j])
      ensures d.id in packets
    {
      TwoOfThem(labels, i, j);
      assert PrimaryOk(packets, labels[i]);
    }
  }

  /** `resolve_labels` accepts exactly these rows. */
  lemma AcceptedExactly(packets: seq<string>, labels: seq<Row>, adjudications: seq<Row>)
    ensures LabelsOk(packets, labels) && AdjudicationsOk(packets, labels, adjudications) <==>
              && VotesAccepted(packets, labels) && DifferentPackets(adjudications)
              && (forall k :: 0 <= k < |adjudications| ==> DecisionAccepted(labels, adjudications[k]))
  {
    hide AdjudicationOk, LabelsOk, VotesAccepted, DecisionAccepted, DifferentPackets;
    VotesAcceptedExactly(packets, labels);
    OneForEach(adjudications);
    hide OncePerPacket, For;
    if LabelsOk(packets, labels) {
      forall k | 0 <= k < |adjudications|
        ensures AdjudicationOk(packets, For(labels, adjudications[k].id), adjudications[k])
                <==> DecisionAccepted(labels, adjudications[k])
      {
        DecisionAcceptedExactly(packets, labels, adjudications[k]);
      }
    }
  }

  ghost predicate DifferentPackets(rows: seq<Row>) {
    forall k, l :: 0 <= k < l < |rows| ==> rows[k].id != rows[l].id
  }

  lemma OneForEach(rows: seq<Row>)
    ensures OncePerPacket(rows) <==> DifferentPackets(rows)
  {
    hide For;
    if !OncePerPacket(rows) {
      var id :| |For(rows, id)| > 1;
      Pick(rows, id);
    }
    if !DifferentPackets(rows) {
      var k, l :| 0 <= k < l < |rows| && rows[k].id == rows[l].id;
      InBoth(rows, k, l);
      assert |For(rows, rows[k].id)| > 1;
    }
  }

  lemma InBoth(rows: seq<Row>, k: nat, l: nat)
    requires k < l < |rows| && rows[k].id == rows[l].id
    ensures |For(rows, rows[k].id)| >= 2
  {
    var at := Positions(rows, rows[k].id);
    hide For;
    var a :| 0 <= a < |at| && at[a] == k;
    var b :| 0 <= b < |at| && at[b] == l;
  }

  // ---- Reviewers' time ----

  lemma {:induction false} SecondsAppend(a: seq<Row>, r: Row)
    ensures TotalSeconds(a + [r]) == TotalSeconds(a) + r.seconds
  {
    if a == [] {
      assert a + [r] == [r] && [r][1..] == [];
    } else {
      assert (a + [r])[1..] == a[1..] + [r];
      SecondsAppend(a[1..], r);
    }
  }

  function SecondsOf(packets: seq<string>, rows: seq<Row>): real {
    if packets == [] then 0.0
    else SecondsOf(packets[..|packets| - 1], rows) + TotalSeconds(For(rows, packets[|packets| - 1]))
  }

  lemma {:induction false} OneRowMore(packets: seq<string>, front: seq<Row>, r: Row)
    requires Sequences.Distinct(packets)
    ensures SecondsOf(packets, front + [r])
            == SecondsOf(packets, front) + if r.id in packets then r.seconds else 0.0
  {
    if packets != [] {
      var n := |packets| - 1;
      assert (front + [r])[..|front|] == front;
      OneRowMore(packets[..n], front, r);
      SecondsAppend(For(front, r.id), r);
      assert packets == packets[..n] + [packets[n]];
      assert packets[n] !in packets[..n];
    }
  }

  lemma {:induction false} NoRows(packets: seq<string>)
    ensures SecondsOf(packets, []) == 0.0
  {
    if packets != [] { NoRows(packets[..|packets| - 1]); }
  }

  lemma {:induction false} TimeByPacket(packets: seq<string>, rows: seq<Row>)
    requires Sequences.Distinct(packets) && forall i :: 0 <= i < |rows| ==> rows[i].id in packets
    ensures SecondsOf(packets, rows) == TotalSeconds(rows)
  {
    if rows == [] {
      NoRows(packets);
    } else {
      var front, r := rows[..|rows| - 1], rows[|rows| - 1];
      assert rows == front + [r];
      TimeByPacket(packets, front);
      OneRowMore(packets, front, r);
      SecondsAppend(front, r);
    }
  }

  function ReportedSeconds(results: seq<Resolved>): real {
    if results == [] then 0.0 else ReportedSeconds(results[..|results| - 1]) + results[|results| - 1].seconds
  }

  lemma {:induction false} ReportedIs(packets: seq<string>, labels: seq<Row>, adjudications: seq<Row>,
                                      results: seq<Resolved>)
    requires |results| == |packets|
    requires forall i :: 0 <= i < |packets| ==> results[i] == ResolvedOf(labels, adjudications, packets[i])
    ensures ReportedSeconds(results) == SecondsOf(packets, labels) + SecondsOf(packets, adjudications)
  {
    if packets != [] {
      var n := |packets| - 1;
      ReportedIs(packets[..n], labels, adjudications, results[..n]);
      hide StatusOf, Disagree, TotalSeconds, For;
    }
  }

  /** The time reported over all packets is the time of all rows: none is lost and none is counted twice. */
  lemma TimeIsKept(packets: seq<string>, labels: seq<Row>, adjudications: seq<Row>, results: seq<Resolved>)
    requires Sequences.Distinct(packets) && |results| == |packets|
    requires LabelsOk(packets, labels) && AdjudicationsOk(packets, labels, adjudications)
    requires forall i :: 0 <= i < |packets| ==> results[i] == ResolvedOf(labels, adjudications, packets[i])
    ensures ReportedSeconds(results) == TotalSeconds(labels + adjudications)
  {
    ReportedIs(packets, labels, adjudications, results);
    forall i | 0 <= i < |labels| ensures labels[i].id in packets { assert PrimaryOk(packets, labels[i]); }
    forall i | 0 <= i < |adjudications| ensures adjudications[i].id in packets {
      assert AdjudicationOk(packets, For(labels, adjudications[i].id), adjudications[i]);
    }
    hide For, SecondsOf, TotalSeconds, ReportedSeconds, LabelsOk, AdjudicationsOk, AdjudicationOk, PrimaryOk;
    TimeByPacket(packets, labels);
    TimeByPacket(packets, adjudications);
    SecondsOfBoth(labels, adjudications);
  }

  lemma {:induction false} SecondsOfBoth(a: seq<Row>, b: seq<Row>)
    ensures TotalSeconds(a + b) == TotalSeconds(a) + TotalSeconds(b)
  {
    hide TotalSeconds;
    if b == [] {
      assert a + b == a;
      OneSecond();
    } else {
      var front, r := b[..|b| - 1], b[|b| - 1];
      assert a + b == (a + front) + [r] && b == front + [r];
      SecondsOfBoth(a, front);
      SecondsAppend(a + front, r);
      SecondsAppend(front, r);
    }
  }

  lemma OneSecond()
    ensures TotalSeconds([]) == 0.0 && forall r: Row :: TotalSeconds([r]) == r.seconds
  {
    forall r: Row ensures TotalSeconds([r]) == r.seconds {
      assert [r][1..] == [];
    }
  }

  // ---- The payload checker ----

  predicate PayloadRowOk(candidates: seq<string>, r: Row) {
    r.id in candidates && !r.role.OtherRole? && r.reviewer != "" && Usable(r)
  }

  /** Two primary votes by two reviewers; exactly one outside decision if they disagree, none otherwise. */
  predicate CandidateOk(votes: seq<Row>, decisions: seq<Row>) {
    && |votes| == 2 && |Reviewers(votes)| == 2
    && if Disagree(votes) then |decisions| == 1 && decisions[0].reviewer !in Reviewers(votes) else decisions == []
  }

  ghost predicate PayloadOk(candidates: seq<string>, rows: seq<Row>) {
    && (forall i :: 0 <= i < |rows| ==> PayloadRowOk(candidates, rows[i]))
    && (forall i :: 0 <= i < |candidates| ==>
          CandidateOk(For(OfRole(rows, Primary), candidates[i]), For(OfRole(rows, Adjudicator), candidates[i])))
  }

  lemma RoleSnoc(rows: seq<Row>, i: nat, role: Role, id: string)
    requires i < |rows|
    ensures For(OfRole(rows[..i + 1], role), id)
            == if rows[i].role == role && rows[i].id == id then For(OfRole(rows[..i], role), id) + [rows[i]]
               else For(OfRole(rows[..i], role), id)
  {
    assert rows[..i + 1][..i] == rows[..i] && rows[..i + 1][i] == rows[i];
    var front := OfRole(rows[..i], role);
    if rows[i].role == role {
      assert (front + [rows[i]])[..|front|] == front;
    }
  }

  /** `m` groups the rows of a role by candidate. */
  ghost predicate Groups(m: map<string, seq<Row>>, rows: seq<Row>, role: Role) {
    forall id :: Get(m, id) == For(OfRole(rows, role), id)
  }

  lemma GroupsStep(m: map<string, seq<Row>>, rows: seq<Row>, i: nat, role: Role)
    requires i < |rows| && Groups(m, rows[..i], role)
    ensures rows[i].role == role ==> Groups(m[rows[i].id := Get(m, rows[i].id) + [rows[i]]], rows[..i + 1], role)
    ensures rows[i].role != role ==> Groups(m, rows[..i + 1], role)
  {
    forall id
      ensures For(OfRole(rows[..i + 1], role), id)
              == if rows[i].role == role && rows[i].id == id then For(OfRole(rows[..i], role), id) + [rows[i]]
                 else For(OfRole(rows[..i], role), id)
    {
      RoleSnoc(rows, i, role, id);
    }
    hide For, OfRole;
    var row := rows[i];
    var m' := m[row.id := Get(m, row.id) + [row]];
    forall id ensures row.role == role ==> Get(m', id) == For(OfRole(rows[..i + 1], role), id)
      ensures row.role != role ==> Get(m, id) == For(OfRole(rows[..i + 1], role), id)
    {
      assert Get(m, id) == For(OfRole(rows[..i], role), id);
      if row.id == id { assert Get(m', id) == Get(m, id) + [row]; } else { assert Get(m', id) == Get(m, id); }
    }
  }

  /** The label rules of `_valid_human_calibration_payload`. */
  method ValidPayloadLabels(candidates: seq<string>, rows: seq<Row>) returns (ok: bool)
    ensures ok <==> PayloadOk(candidates, rows)
  {
    hide Usable, CandidateOk, For, OfRole, Get;
    var primaryLabels: map<string, seq<Row>> := map[];
    var adjudicators: map<string, seq<Row>> := map[];
    NothingGrouped(rows);
    for i := 0 to |rows|
      invariant forall k :: 0 <= k < i ==> PayloadRowOk(candidates, rows[k])
      invariant Groups(primaryLabels, rows[..i], Primary) && Groups(adjudicators, rows[..i], Adjudicator)
    {
      var row := rows[i];
      if !PayloadRowOk(candidates, row) {
        return false;
      }
      GroupsStep(primaryLabels, rows, i, Primary);
      GroupsStep(adjudicators, rows, i, Adjudicator);
      if row.role.Primary? {
        primaryLabels := primaryLabels[row.id := Get(primaryLabels, row.id) + [row]];
      } else {
        adjudicators := adjudicators[row.id := Get(adjudicators, row.id) + [row]];
      }
    }
    assert rows[..|rows|] == rows;
    for i := 0 to |candidates|
      invariant forall k :: 0 <= k < i ==>
                  CandidateOk(For(OfRole(rows, Primary), candidates[k]), For(OfRole(rows, Adjudicator), candidates[k]))
    {
      if !CandidateOk(Get(primaryLabels, candidates[i]), Get(adjudicators, candidates[i])) {
        return false;
      }
    }
    ok := true;
  }

  lemma NothingGrouped(rows: seq<Row>)
    ensures Groups(map[], rows[..0], Primary) && Groups(map[], rows[..0], Adjudicator)
  {
  }

  // ---- What the payload checker accepts, row by row ----

  predicate Has(rows: seq<Row>, role: Role, id: string, i: int) {
    0 <= i < |rows| && rows[i].role == role && rows[i].id == id
  }

  lemma {:induction false} RolePositions(rows: seq<Row>, role: Role, id: string) returns (at: seq<nat>)
    ensures |at| == |For(OfRole(rows, role), id)|
    ensures forall k :: 0 <= k < |at| ==> Has(rows, role, id, at[k]) && rows[at[k]] == For(OfRole(rows, role), id)[k]
    ensures forall k, l :: 0 <= k < l < |at| ==> at[k] < at[l]
    ensures forall i :: Has(rows, role, id, i) ==> i in at
  {
    at := [];
    if rows != [] {
      var n := |rows| - 1;
      at := RolePositions(rows[..n], role, id);
      assert rows[..n + 1] == rows;
      RoleSnoc(rows, n, role, id);
      if rows[n].role == role && rows[n].id == id { at := at + [n]; }
      hide For, OfRole;
      forall i | Has(rows, role, id, i) ensures i in at { assert i < n ==> Has(rows[..n], role, id, i); }
    }
  }

  /** Exactly these two rows of the role are the candidate's. */
  ghost predicate OnlyTwo(rows: seq<Row>, role: Role, id: string, i: int, j: int) {
    i < j && Has(rows, role, id, i) && Has(rows, role, id, j) && forall k :: Has(rows, role, id, k) ==> k == i || k == j
  }

  ghost predicate OnlyOne(rows: seq<Row>, role: Role, id: string, i: int) {
    Has(rows, role, id, i) && forall k :: Has(rows, role, id, k) ==> k == i
  }

  /** Two votes by two reviewers and, exactly when they do not settle the candidate, one decision by a third. */
  ghost predicate CandidateSettled(rows: seq<Row>, id: string) {
    exists i, j ::
      && OnlyTwo(rows, Primary, id, i, j) && rows[i].reviewer != rows[j].reviewer
      && if Settle(rows[i], rows[j]) then forall k :: !Has(rows, Adjudicator, id, k)
         else exists k :: OnlyOne(rows, Adjudicator, id, k)
                          && rows[k].reviewer != rows[i].reviewer && rows[k].reviewer != rows[j].reviewer
  }

  lemma Others(at: seq<nat>, i: int, j: int)
    requires forall k, l :: 0 <= k < l < |at| ==> at[k] < at[l]
    ensures |at| >= 3 ==> exists x :: x in at && x != i && x != j
    ensures |at| == 2 && i < j && i in at && j in at ==> at == [i, j]
    ensures i < j && i in at && j in at ==> |at| >= 2
    ensures |at| == 2 ==> exists x :: x in at && x != i
    ensures |at| == 1 && i in at ==> at == [i]
  {
    if |at| >= 3 { assert at[0] in at && at[1] in at && at[2] in at; }
    if |at| == 2 { assert at[0] in at && at[1] in at; }
  }

  lemma TwoAre(rows: seq<Row>, role: Role, id: string, i: int, j: int)
    ensures OnlyTwo(rows, role, id, i, j) ==> For(OfRole(rows, role), id) == [rows[i], rows[j]]
  {
    var at := RolePositions(rows, role, id);
    hide For, OfRole;
    if OnlyTwo(rows, role, id, i, j) {
      Others(at, i, j);
    }
  }

  lemma TwoOf(rows: seq<Row>, role: Role, id: string) returns (i: int, j: int)
    requires |For(OfRole(rows, role), id)| == 2
    ensures OnlyTwo(rows, role, id, i, j) && For(OfRole(rows, role), id) == [rows[i], rows[j]]
  {
    var at := RolePositions(rows, role, id);
    hide For, OfRole;
    i, j := at[0], at[1];
    assert i < j;
  }

  lemma OneOrNone(rows: seq<Row>, role: Role, id: string)
    ensures For(OfRole(rows, role), id) == [] <==> forall k :: !Has(rows, role, id, k)
    ensures |For(OfRole(rows, role), id)| == 1 <==> exists k :: OnlyOne(rows, role, id, k)
    ensures forall k :: OnlyOne(rows, role, id, k) ==> For(OfRole(rows, role), id) == [rows[k]]
  {
    var at := RolePositions(rows, role, id);
    hide For, OfRole;
    if |at| >= 1 { assert Has(rows, role, id, at[0]); }
    if |at| == 1 { assert OnlyOne(rows, role, id, at[0]); }
    forall k | OnlyOne(rows, role, id, k) ensures at == [k] {
      Others(at, k, k);
    }
  }

  lemma CandidateOkExactly(rows: seq<Row>, id: string)
    ensures CandidateOk(For(OfRole(rows, Primary), id), For(OfRole(rows, Adjudicator), id))
            <==> CandidateSettled(rows, id)
  {
    var votes, decisions := For(OfRole(rows, Primary), id), For(OfRole(rows, Adjudicator), id);
    OneOrNone(rows, Adjudicator, id);
    if |votes| == 2 { TwoReviewers(votes); }
    hide For, OfRole, Reviewers, OnlyOne, OnlyTwo, Has;
    if CandidateOk(votes, decisions) {
      var i, j := TwoOf(rows, Primary, id);
      assert CandidateSettled(rows, id);
    }
    if CandidateSettled(rows, id) {
      var i, j :| OnlyTwo(rows, Primary, id, i, j) && rows[i].reviewer != rows[j].reviewer
                  && if Settle(rows[i], rows[j]) then forall k :: !Has(rows, Adjudicator, id, k)
                     else exists k :: OnlyOne(rows, Adjudicator, id, k)
                                      && rows[k].reviewer != rows[i].reviewer && rows[k].reviewer != rows[j].reviewer;
      TwoAre(rows, Primary, id, i, j);
    }
  }

  /** The payload's rules for a row; a reviewer made of white space alone passes here, unlike in `resolve_labels`. */
  ghost predicate PayloadRowAccepted(candidates: seq<string>, r: Row) {
    && r.id in candidates && (r.role == Primary || r.role == Adjudicator)
    && Complete(r.(reviewer := "x")) && |r.reviewer| > 0
  }

  /** The payload checker accepts exactly these rows. */
  lemma PayloadAcceptedExactly(candidates: seq<string>, rows: seq<Row>)
    ensures PayloadOk(candidates, rows) <==>
              && (forall i :: 0 <= i < |rows| ==> PayloadRowAccepted(candidates, rows[i]))
              && (forall c :: c in candidates ==> CandidateSettled(rows, c))
  {
    forall i | 0 <= i < |rows| ensures PayloadRowOk(candidates, rows[i]) <==> PayloadRowAccepted(candidates, rows[i]) {
      UsableIsComplete(rows[i].(reviewer := "x"));
      assert !Space("x"[0]);
    }
    hide PayloadRowOk, PayloadRowAccepted, CandidateOk, CandidateSettled, For, OfRole;
    forall c | c in candidates
      ensures CandidateOk(For(OfRole(rows, Primary), c), For(OfRole(rows, Adjudicator), c))
              <==> CandidateSettled(rows, c)
    {
      CandidateOkExactly(rows, c);
    }
    forall i | 0 <= i < |candidates| ensures candidates[i] in candidates {}
  }

  // ---- The two agree ----

  lemma TwoReviewers(votes: seq<Row>)
    requires |votes| == 2
    ensures |Reviewers(votes)| == 2 <==> votes[0].reviewer != votes[1].reviewer
    ensures forall x :: x in Reviewers(votes) <==> Voted(votes, x)
  {
    assert Reviewers(votes) == {votes[0].reviewer, votes[1].reviewer};
  }

  lemma LastOf(rows: seq<Row>, id: string) returns (k: nat)
    requires For(rows, id) != []
    ensures k < |rows| && rows[k].id == id && For(rows, id)[|For(rows, id)| - 1] == rows[k]
  {
    k := |rows| - 1;
    if rows[k].id != id { k := LastOf(rows[..k], id); }
  }

  lemma {:induction false} AdjudicationFor(packets: seq<string>, labels: seq<Row>, adjudications: seq<Row>, id: string)
    requires forall i :: 0 <= i < |adjudications| ==>
               AdjudicationOk(packets, For(labels, adjudications[i].id), adjudications[i])
    requires For(adjudications, id) != []
    ensures AdjudicationOk(packets, For(labels, id), For(adjudications, id)[|For(adjudications, id)| - 1])
  {
    hide AdjudicationOk, For;
    var k := LastOf(adjudications, id);
  }

  /** For one accepted packet the payload rules hold exactly when it is resolved. */
  lemma CandidateAgrees(packets: seq<string>, labels: seq<Row>, adjudications: seq<Row>, id: string)
    requires LabelsOk(packets, labels) && AdjudicationsOk(packets, labels, adjudications)
    ensures CandidateOk(For(labels, id), For(adjudications, id)) <==> !StatusOf(labels, adjudications, id).Unresolved?
  {
    var votes, decisions := For(labels, id), For(adjudications, id);
    if |votes| == 2 { TwoReviewers(votes); }
    if decisions != [] { AdjudicationFor(packets, labels, adjudications, id); }
    hide For, PrimaryOk, Reviewers;
  }

  lemma RowsAreKept(rows: seq<Row>, i: nat)
    requires i < |rows|
    ensures rows[i] in OfRole(rows, rows[i].role)
  {
    if i < |rows| - 1 { RowsAreKept(rows[..|rows| - 1], i); }
  }

  /**
   The two independent checkers agree: for labels and adjudications that `resolve_labels` accepts, in whatever
   order they are interleaved, the payload's label rules hold exactly when every packet resolves as agreed or
   adjudicated.
   */
  lemma CheckersAgree(packets: seq<string>, labels: seq<Row>, adjudications: seq<Row>, rows: seq<Row>)
    requires LabelsOk(packets, labels) && AdjudicationsOk(packets, labels, adjudications)
    requires OfRole(rows, Primary) == labels && OfRole(rows, Adjudicator) == adjudications
             && OfRole(rows, OtherRole) == []
    ensures PayloadOk(packets, rows) <==>
              forall i :: 0 <= i < |packets| ==> !StatusOf(labels, adjudications, packets[i]).Unresolved?
  {
    forall i | 0 <= i < |rows| ensures PayloadRowOk(packets, rows[i]) {
      RowsAreKept(rows, i);
    }
    hide PayloadRowOk, CandidateOk, LabelsOk, AdjudicationsOk, StatusOf, For;
    forall i | 0 <= i < |packets|
      ensures CandidateOk(For(labels, packets[i]), For(adjudications, packets[i])) <==>
                !StatusOf(labels, adjudications, packets[i]).Unresolved?
    {
      CandidateAgrees(packets, labels, adjudications, packets[i]);
    }
  }
}
