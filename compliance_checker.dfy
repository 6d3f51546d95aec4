/**
 * Compliance evaluation (`ComplianceChecker`): every (norm, agent) pair gets a verdict —
 * fulfilled, violated, not applicable or unknown — together with the log entries that
 * support it, judged by a tiered string match between the agent's actions and the norm's
 * mission or prescribed action.
 */
module ComplianceChecker {
  import opened Wrappers
  import opened Text
  import opened Seqs
  import opened RawData
  import opened Schemas
  import NormMatcher

  datatype ComplianceStatus = Fulfilled | Violated | NotApplicable | Unknown

  /** The `match_type` strings of `_mission_action_match`. */
  datatype MatchType = Exact | ContainsMission | MissionContainsAction | KeywordOverlap | NoMatch | NoMission

  /** The boolean half of `_mission_action_match`'s result. */
  predicate IsMatch(t: MatchType) {
    t == Exact || t == ContainsMission || t == MissionContainsAction || t == KeywordOverlap
  }

  /** `_normalize_action_or_mission`: lower-case, `_` and `-` become spaces, strip. */
  function NormalizeActionOrMission(s: string): string {
    if s == "" then "" else Strip(ReplaceChar(ReplaceChar(Lower(s), '_', ' '), '-', ' '))
  }

  /**
   * The keyword strategy: at least half of the target's distinct words are among the action's.
   * The source compares with `len(mission_words) * 0.5`; doubling the other side is exact.
   */
  predicate KeywordsOverlap(actionNorm: string, missionNorm: string) {
    var missionWords := WordSet(missionNorm);
    2 * |missionWords * WordSet(actionNorm)| >= |missionWords|
  }

  /** `_mission_action_match`: the strategies in their fixed order of priority. */
  function MissionActionMatch(action: string, mission: string): MatchType {
    if mission == "" then NoMission
    else
      var a := NormalizeActionOrMission(action);
      var m := NormalizeActionOrMission(mission);
      if a == m then Exact
      else if Contains(a, m) then ContainsMission
      else if Contains(m, a) then MissionContainsAction
      else if KeywordsOverlap(a, m) then KeywordOverlap
      else NoMatch
  }

  /**
   * A non-empty target is matched exactly when one normalised string contains the other or
   * half of the target's words occur in the action; the match is `exact` exactly when the
   * normalised strings are equal; only the empty target yields `no_mission`.
   */
  lemma MatchCharacterization(action: string, mission: string)
    ensures MissionActionMatch(action, mission) == NoMission <==> mission == ""
    ensures mission != "" ==>
              var a, m := NormalizeActionOrMission(action), NormalizeActionOrMission(mission);
              (IsMatch(MissionActionMatch(action, mission)) <==> Contains(a, m) || Contains(m, a) || KeywordsOverlap(a, m)) &&
              (MissionActionMatch(action, mission) == Exact <==> a == m)
  {
    var a, m := NormalizeActionOrMission(action), NormalizeActionOrMission(mission);
    if a == m {
      ContainsItself(a);
    }
  }

  /** A target made only of `_`, `-` and whitespace normalises to nothing, and then every action matches it. */
  lemma BlankTargetMatchesEverything(action: string, mission: string)
    requires mission != "" && NormalizeActionOrMission(mission) == ""
    ensures IsMatch(MissionActionMatch(action, mission))
  {
    ContainsEmpty(NormalizeActionOrMission(action));
  }

  /** An underscore in the mission does not prevent an exact match with the spaced spelling of the action. */
  lemma UnderscoreSpellingMatchesExactly()
    ensures MissionActionMatch("pick up", "pick_up") == Exact
  {
    var spaced := "pick up";
    assert Lower(spaced) == spaced;
    assert ReplaceChar(spaced, '_', ' ') == spaced;
    assert ReplaceChar(spaced, '-', ' ') == spaced;
    assert Lower("pick_up") == "pick_up";
    assert ReplaceChar("pick_up", '_', ' ') == spaced;
    StripFacts(spaced);
  }

  /** One element of `agent_actions[agent_id]`. */
  datatype ActionEntry = ActionEntry(
    entryId: string,
    action: string,
    timestamp: Option<int>,
    sequenceNumber: Option<int>,
    metadata: map<string, Json>)

  function ActionEntryOf(e: LogEntry): ActionEntry {
    ActionEntry(e.entryId, e.action, e.timestamp, e.sequenceNumber, e.metadata)
  }

  /** Which key names the target in an evidence record: `matched_to`, `violated_prohibition` or `used_permission`. */
  datatype EvidenceKind = MatchedTo | ViolatedProhibition | UsedPermission

  datatype Evidence = Evidence(
    entryId: string,
    action: string,
    matchType: MatchType,
    kind: EvidenceKind,
    target: string,
    timestamp: Option<int>,
    sequenceNumber: Option<int>)

  /** `ComplianceResult` without its explanatory text. */
  datatype ComplianceResult = ComplianceResult(
    normId: string,
    agentId: string,
    status: ComplianceStatus,
    evidence: seq<Evidence>)

  /**
   * A matching function. The evidence loops are written against one, so that their proofs
   * do not depend on how the strings are compared; `check_compliance` supplies
   * `MissionActionMatch`.
   */
  type Matcher = (string, string) -> MatchType

  /** The match of an action against a target that may be absent; an absent target matches nothing. */
  function OptMatch(action: string, target: Option<string>, m: Matcher): MatchType {
    if Present(target) then m(action, target.value) else NoMission
  }

  /** The target text an evidence record carries. */
  function TargetText(target: Option<string>): string {
    if target.Some? then target.value else ""
  }

  /** Action `a` matches the present target `t`. */
  predicate Hits(a: ActionEntry, t: Option<string>, m: Matcher) {
    IsMatch(OptMatch(a.action, t, m))
  }

  /** The match of every action against one target, in log order. */
  function MatchTable(acts: seq<ActionEntry>, target: Option<string>, m: Matcher): (ms: seq<MatchType>)
    ensures |ms| == |acts|
  {
    if |acts| == 0 then [] else MatchTable(acts[..|acts| - 1], target, m) + [OptMatch(acts[|acts| - 1].action, target, m)]
  }

  /** Entry `k` of the table is action `k`'s match. */
  lemma {:induction false} MatchTableAt(acts: seq<ActionEntry>, target: Option<string>, m: Matcher, k: int)
    requires 0 <= k < |acts|
    ensures MatchTable(acts, target, m)[k] == OptMatch(acts[k].action, target, m)
  {
    if k < |acts| - 1 {
      MatchTableAt(acts[..|acts| - 1], target, m, k);
    }
  }

  /** The record one action contributes when its match `t` is a match, nothing otherwise. */
  function Recorded(a: ActionEntry, t: MatchType, target: string, kind: EvidenceKind): seq<Evidence> {
    if IsMatch(t) then [Evidence(a.entryId, a.action, t, kind, target, a.timestamp, a.sequenceNumber)] else []
  }

  /** The evidence of a loop over the first `n` actions, given each action's match against the target. */
  function TableEvidence(acts: seq<ActionEntry>, ms: seq<MatchType>, target: string, kind: EvidenceKind, n: nat): seq<Evidence>
    requires |ms| == |acts| && n <= |acts|
  {
    if n == 0 then []
    else TableEvidence(acts, ms, target, kind, n - 1) + Recorded(acts[n - 1], ms[n - 1], target, kind)
  }

  /** The evidence of the obligation loop over the first `n` actions: per action, its record for the mission, then for the required action. */
  function ObligationTableEvidence(acts: seq<ActionEntry>, mm: seq<MatchType>, am: seq<MatchType>, mission: string, action: string, n: nat): seq<Evidence>
    requires |mm| == |acts| && |am| == |acts| && n <= |acts|
  {
    if n == 0 then []
    else
      ObligationTableEvidence(acts, mm, am, mission, action, n - 1)
      + Recorded(acts[n - 1], mm[n - 1], mission, MatchedTo) + Recorded(acts[n - 1], am[n - 1], action, MatchedTo)
  }

  /** The evidence of matching every action against `target`. */
  function TargetEvidence(acts: seq<ActionEntry>, target: Option<string>, kind: EvidenceKind, m: Matcher): seq<Evidence> {
    TableEvidence(acts, MatchTable(acts, target, m), TargetText(target), kind, |acts|)
  }

  /** The evidence of matching every action against the mission and the required action. */
  function ObligationEvidence(acts: seq<ActionEntry>, mission: Option<string>, action: Option<string>, m: Matcher): seq<Evidence> {
    ObligationTableEvidence(acts, MatchTable(acts, mission, m), MatchTable(acts, action, m), TargetText(mission), TargetText(action), |acts|)
  }

  /** `required_action or mission`, when either is present. */
  function PermissionTarget(n: Norm): Option<string> {
    if Present(n.action) then n.action else if Present(n.mission) then n.mission else None
  }

  /** A record made for action `k` of `acts` from its match `ms[k]`. */
  predicate RecordOf(e: Evidence, acts: seq<ActionEntry>, ms: seq<MatchType>, target: string, kind: EvidenceKind)
    requires |ms| == |acts|
  {
    e.kind == kind && e.target == target && IsMatch(e.matchType) &&
    exists k :: 0 <= k < |acts| && e.entryId == acts[k].entryId && e.action == acts[k].action && e.matchType == ms[k]
  }

  /** A record produced by matching an action of `acts` against the present target `t`. */
  predicate FromActions(e: Evidence, acts: seq<ActionEntry>, t: Option<string>, kind: EvidenceKind, m: Matcher) {
    Present(t) && e.kind == kind && e.target == t.value && IsMatch(e.matchType) &&
    exists k :: 0 <= k < |acts| && e.entryId == acts[k].entryId && e.action == acts[k].action &&
                e.matchType == OptMatch(acts[k].action, t, m)
  }

  /** There is a record exactly when some action matched, at most one per action, and each comes from a matching action. */
  lemma {:induction false} TableEvidenceFacts(acts: seq<ActionEntry>, ms: seq<MatchType>, target: string, kind: EvidenceKind, n: nat)
    requires |ms| == |acts| && n <= |acts|
    ensures |TableEvidence(acts, ms, target, kind, n)| > 0 <==> exists k :: 0 <= k < n && IsMatch(ms[k])
    ensures |TableEvidence(acts, ms, target, kind, n)| <= n
    ensures forall e :: e in TableEvidence(acts, ms, target, kind, n) ==> RecordOf(e, acts, ms, target, kind)
  {
    TableEvidenceHit(acts, ms, target, kind, n);
    TableEvidenceRecords(acts, ms, target, kind, n);
  }

  lemma {:induction false} TableEvidenceHit(acts: seq<ActionEntry>, ms: seq<MatchType>, target: string, kind: EvidenceKind, n: nat)
    requires |ms| == |acts| && n <= |acts|
    ensures |TableEvidence(acts, ms, target, kind, n)| > 0 <==> exists k :: 0 <= k < n && IsMatch(ms[k])
    ensures |TableEvidence(acts, ms, target, kind, n)| <= n
  {
    if n > 0 {
      TableEvidenceHit(acts, ms, target, kind, n - 1);
      if !IsMatch(ms[n - 1]) {
        assert TableEvidence(acts, ms, target, kind, n) == TableEvidence(acts, ms, target, kind, n - 1);
        if exists k :: 0 <= k < n && IsMatch(ms[k]) {
          var k :| 0 <= k < n && IsMatch(ms[k]);
          assert k < n - 1;
        }
      }
    }
  }

  lemma {:induction false} TableEvidenceRecords(acts: seq<ActionEntry>, ms: seq<MatchType>, target: string, kind: EvidenceKind, n: nat)
    requires |ms| == |acts| && n <= |acts|
    ensures forall e :: e in TableEvidence(acts, ms, target, kind, n) ==> RecordOf(e, acts, ms, target, kind)
  {
    if n > 0 {
      TableEvidenceRecords(acts, ms, target, kind, n - 1);
    }
  }

  /** The same for the obligation loop, where each action is matched against two targets. */
  lemma {:induction false} ObligationTableEvidenceFacts(acts: seq<ActionEntry>, mm: seq<MatchType>, am: seq<MatchType>, mission: string, action: string, n: nat)
    requires |mm| == |acts| && |am| == |acts| && n <= |acts|
    ensures |ObligationTableEvidence(acts, mm, am, mission, action, n)| > 0 <==>
              exists k :: 0 <= k < n && (IsMatch(mm[k]) || IsMatch(am[k]))
    ensures |ObligationTableEvidence(acts, mm, am, mission, action, n)| <= 2 * n
    ensures forall e :: e in ObligationTableEvidence(acts, mm, am, mission, action, n) ==>
              RecordOf(e, acts, mm, mission, MatchedTo) || RecordOf(e, acts, am, action, MatchedTo)
  {
    if n > 0 {
      ObligationTableEvidenceFacts(acts, mm, am, mission, action, n - 1);
    }
  }

  /** A record of the table for `t` is a record of a hitting action. */
  lemma TableRecordFromActions(e: Evidence, acts: seq<ActionEntry>, t: Option<string>, kind: EvidenceKind, m: Matcher)
    requires RecordOf(e, acts, MatchTable(acts, t, m), TargetText(t), kind)
    ensures FromActions(e, acts, t, kind, m)
  {
    var ms := MatchTable(acts, t, m);
    var k :| 0 <= k < |acts| && e.entryId == acts[k].entryId && e.action == acts[k].action && e.matchType == ms[k];
    MatchTableAt(acts, t, m, k);
  }

  /** There is evidence against a target exactly when some action hits it, and every record comes from a hitting action. */
  lemma TargetEvidenceFacts(acts: seq<ActionEntry>, target: Option<string>, kind: EvidenceKind, m: Matcher)
    ensures |TargetEvidence(acts, target, kind, m)| > 0 <==> exists k :: 0 <= k < |acts| && Hits(acts[k], target, m)
    ensures |TargetEvidence(acts, target, kind, m)| <= |acts|
    ensures forall e :: e in TargetEvidence(acts, target, kind, m) ==> FromActions(e, acts, target, kind, m)
  {
    var ms := MatchTable(acts, target, m);
    TableEvidenceFacts(acts, ms, TargetText(target), kind, |acts|);
    if exists k :: 0 <= k < |acts| && IsMatch(ms[k]) {
      var k :| 0 <= k < |acts| && IsMatch(ms[k]);
      MatchTableAt(acts, target, m, k);
      assert Hits(acts[k], target, m);
    }
    if exists k :: 0 <= k < |acts| && Hits(acts[k], target, m) {
      var k :| 0 <= k < |acts| && Hits(acts[k], target, m);
      MatchTableAt(acts, target, m, k);
      assert IsMatch(ms[k]);
    }
    forall e | e in TargetEvidence(acts, target, kind, m)
      ensures FromActions(e, acts, target, kind, m)
    {
      TableRecordFromActions(e, acts, target, kind, m);
    }
  }

  /** An obligation has evidence exactly when some action hits the mission or the required action. */
  lemma ObligationEvidenceFacts(acts: seq<ActionEntry>, mission: Option<string>, action: Option<string>, m: Matcher)
    ensures |ObligationEvidence(acts, mission, action, m)| > 0 <==>
              exists k :: 0 <= k < |acts| && (Hits(acts[k], mission, m) || Hits(acts[k], action, m))
    ensures |ObligationEvidence(acts, mission, action, m)| <= 2 * |acts|
    ensures forall e :: e in ObligationEvidence(acts, mission, action, m) ==>
              FromActions(e, acts, mission, MatchedTo, m) || FromActions(e, acts, action, MatchedTo, m)
  {
    var mm, am := MatchTable(acts, mission, m), MatchTable(acts, action, m);
    ObligationTableEvidenceFacts(acts, mm, am, TargetText(mission), TargetText(action), |acts|);
    if exists k :: 0 <= k < |acts| && (IsMatch(mm[k]) || IsMatch(am[k])) {
      var k :| 0 <= k < |acts| && (IsMatch(mm[k]) || IsMatch(am[k]));
      MatchTableAt(acts, mission, m, k);
      MatchTableAt(acts, action, m, k);
      assert Hits(acts[k], mission, m) || Hits(acts[k], action, m);
    }
    if exists k :: 0 <= k < |acts| && (Hits(acts[k], mission, m) || Hits(acts[k], action, m)) {
      var k :| 0 <= k < |acts| && (Hits(acts[k], mission, m) || Hits(acts[k], action, m));
      MatchTableAt(acts, mission, m, k);
      MatchTableAt(acts, action, m, k);
      assert IsMatch(mm[k]) || IsMatch(am[k]);
    }
    forall e | e in ObligationEvidence(acts, mission, action, m)
      ensures FromActions(e, acts, mission, MatchedTo, m) || FromActions(e, acts, action, MatchedTo, m)
    {
      if RecordOf(e, acts, mm, TargetText(mission), MatchedTo) {
        TableRecordFromActions(e, acts, mission, MatchedTo, m);
      } else {
        TableRecordFromActions(e, acts, action, MatchedTo, m);
      }
    }
  }

  /** `_is_norm_applicable`: the `applies` of the first record for the pair, false when there is none. */
  function FirstApplies(matrix: seq<NormMatcher.NormApplicability>, normId: string, agentId: string): bool {
    if |matrix| == 0 then false
    else if matrix[0].normId == normId && matrix[0].agentId == agentId then matrix[0].applies
    else FirstApplies(matrix[1..], normId, agentId)
  }

  predicate RecordFor(r: NormMatcher.NormApplicability, normId: string, agentId: string) {
    r.normId == normId && r.agentId == agentId
  }

  /** When every record for the pair says `v`, the lookup says `v` if there is such a record and false otherwise. */
  lemma {:induction false} FirstAppliesUniform(matrix: seq<NormMatcher.NormApplicability>, normId: string, agentId: string, v: bool)
    requires forall k :: 0 <= k < |matrix| && RecordFor(matrix[k], normId, agentId) ==> matrix[k].applies == v
    ensures FirstApplies(matrix, normId, agentId) == (v && exists k :: 0 <= k < |matrix| && RecordFor(matrix[k], normId, agentId))
  {
    if |matrix| > 0 {
      FirstAppliesUniform(matrix[1..], normId, agentId, v);
      if exists k :: 0 <= k < |matrix| && RecordFor(matrix[k], normId, agentId) {
        var k :| 0 <= k < |matrix| && RecordFor(matrix[k], normId, agentId);
        if k > 0 {
          assert RecordFor(matrix[1..][k - 1], normId, agentId);
        }
      }
      forall k | 0 <= k < |matrix| - 1 && RecordFor(matrix[1..][k], normId, agentId)
        ensures exists k :: 0 <= k < |matrix| && RecordFor(matrix[k], normId, agentId)
      {
        assert matrix[1..][k] == matrix[k + 1];
      }
    }
  }

  /**
   * On the matrix `build_applicability_matrix` produces, the lookup agrees with the
   * applicability of the pair, for the agents the matrix was built over, and is false for
   * any other agent.
   */
  lemma MatrixLookup(norms: seq<Norm>, agents: seq<string>, normId: string, agentId: string)
    ensures FirstApplies(Grid(norms, agents, NormMatcher.ApplicabilityOf(norms)), normId, agentId) ==
              (agentId in agents && NormMatcher.Applicability(norms, normId, agentId).applies)
  {
    var f := NormMatcher.ApplicabilityOf(norms);
    var matrix := Grid(norms, agents, f);
    var v := NormMatcher.Applicability(norms, normId, agentId).applies;
    GridMember(norms, agents, f);
    forall k | 0 <= k < |matrix| && RecordFor(matrix[k], normId, agentId)
      ensures matrix[k].applies == v
    {
      assert matrix[k] in matrix;
    }
    FirstAppliesUniform(matrix, normId, agentId, v);
    if v && agentId in agents {
      FindNormFacts(norms, normId);
      var i :| IsFirstWithId(norms, normId, i) && norms[i] == FindNorm(norms, normId).value;
      var j :| 0 <= j < |agents| && agents[j] == agentId;
      var x := f(norms[i], agents[j]);
      assert x in matrix;
      var k :| 0 <= k < |matrix| && matrix[k] == x;
      assert RecordFor(matrix[k], normId, agentId);
    }
    if (exists k :: 0 <= k < |matrix| && RecordFor(matrix[k], normId, agentId)) {
      var k :| 0 <= k < |matrix| && RecordFor(matrix[k], normId, agentId);
      assert matrix[k] in matrix;
    }
  }

  /** `self.agent_actions.get(agent_id, [])`. */
  function ActionsFor(actions: map<string, seq<ActionEntry>>, agentId: string): seq<ActionEntry> {
    if agentId in actions then actions[agentId] else []
  }

  /** The verdict by norm type once the agent is known to be subject to the norm. */
  function Judge(n: Norm, acts: seq<ActionEntry>, normId: string, agentId: string): ComplianceResult {
    match n.normType
    case Obligation =>
      var ev := ObligationEvidence(acts, n.mission, n.action, MissionActionMatch);
      if |ev| > 0 then ComplianceResult(normId, agentId, Fulfilled, ev)
      else ComplianceResult(normId, agentId, Violated, [])
    case Prohibition =>
      var ev := TargetEvidence(acts, n.action, ViolatedProhibition, MissionActionMatch);
      if |ev| > 0 then ComplianceResult(normId, agentId, Violated, ev)
      else ComplianceResult(normId, agentId, Fulfilled, [])
    case Permission =>
      ComplianceResult(normId, agentId, Fulfilled, TargetEvidence(acts, PermissionTarget(n), UsedPermission, MissionActionMatch))
  }

  /** The result `check_compliance` returns, as written: the zero-action short-circuit applies to every norm type. */
  function Check(norms: seq<Norm>, matrix: seq<NormMatcher.NormApplicability>, actions: map<string, seq<ActionEntry>>,
                 normId: string, agentId: string): (r: ComplianceResult)
    ensures r.normId == normId && r.agentId == agentId
  {
    match FindNorm(norms, normId)
    case None => ComplianceResult(normId, agentId, Unknown, [])
    case Some(n) =>
      if !FirstApplies(matrix, normId, agentId) then ComplianceResult(normId, agentId, NotApplicable, [])
      else if |ActionsFor(actions, agentId)| == 0 then ComplianceResult(normId, agentId, Violated, [])
      else Judge(n, ActionsFor(actions, agentId), normId, agentId)
  }

  /**
   * `check_compliance` as its design intends: an agent without actions is judged by the
   * same per-type rules, so it violates an obligation but neither a prohibition nor a
   * permission.
   */
  function CheckIntended(norms: seq<Norm>, matrix: seq<NormMatcher.NormApplicability>, actions: map<string, seq<ActionEntry>>,
                         normId: string, agentId: string): (r: ComplianceResult)
    ensures r.normId == normId && r.agentId == agentId
  {
    match FindNorm(norms, normId)
    case None => ComplianceResult(normId, agentId, Unknown, [])
    case Some(n) =>
      if !FirstApplies(matrix, normId, agentId) then ComplianceResult(normId, agentId, NotApplicable, [])
      else Judge(n, ActionsFor(actions, agentId), normId, agentId)
  }

  /** The short-circuits, in order: an unknown norm, then a norm that does not apply, each with no evidence. */
  lemma ShortCircuits(norms: seq<Norm>, matrix: seq<NormMatcher.NormApplicability>, actions: map<string, seq<ActionEntry>>,
                      normId: string, agentId: string)
    ensures (forall i :: 0 <= i < |norms| ==> norms[i].normId != normId) ==>
              Check(norms, matrix, actions, normId, agentId).status == Unknown &&
              Check(norms, matrix, actions, normId, agentId).evidence == []
    ensures (exists i :: 0 <= i < |norms| && norms[i].normId == normId) && !FirstApplies(matrix, normId, agentId) ==>
              Check(norms, matrix, actions, normId, agentId).status == NotApplicable &&
              Check(norms, matrix, actions, normId, agentId).evidence == []
    ensures (exists i :: 0 <= i < |norms| && norms[i].normId == normId) && FirstApplies(matrix, normId, agentId) ==>
              Check(norms, matrix, actions, normId, agentId).status in {Fulfilled, Violated}
  {
    FindNormFacts(norms, normId);
  }

  /**
   * Applicability gating: on the matrix built from the same norms, a norm that does not
   * apply to the agent gives no verdict but `not_applicable` (or `unknown` for a missing
   * norm), and no evidence.
   */
  lemma ApplicabilityGating(norms: seq<Norm>, agents: seq<string>, actions: map<string, seq<ActionEntry>>,
                            normId: string, agentId: string)
    requires !NormMatcher.Applicability(norms, normId, agentId).applies
    ensures var r := Check(norms, Grid(norms, agents, NormMatcher.ApplicabilityOf(norms)), actions, normId, agentId);
            r.status in {NotApplicable, Unknown} && r.evidence == []
  {
    MatrixLookup(norms, agents, normId, agentId);
  }

  /** Obligations: fulfilled exactly when some action hits the mission or the required action; a violation carries no evidence. */
  lemma ObligationVerdict(n: Norm, acts: seq<ActionEntry>, normId: string, agentId: string)
    requires n.normType == Obligation
    ensures var r := Judge(n, acts, normId, agentId);
            (r.status == Fulfilled <==> exists k :: 0 <= k < |acts| && (Hits(acts[k], n.mission, MissionActionMatch) || Hits(acts[k], n.action, MissionActionMatch))) &&
            (r.status == Fulfilled || (r.status == Violated && r.evidence == []))
    ensures forall e :: e in Judge(n, acts, normId, agentId).evidence ==>
              FromActions(e, acts, n.mission, MatchedTo, MissionActionMatch) || FromActions(e, acts, n.action, MatchedTo, MissionActionMatch)
  {
    ObligationEvidenceFacts(acts, n.mission, n.action, MissionActionMatch);
  }

  /** Prohibitions: violated exactly when some action hits the prohibited action, so never without one. */
  lemma ProhibitionVerdict(n: Norm, acts: seq<ActionEntry>, normId: string, agentId: string)
    requires n.normType == Prohibition
    ensures var r := Judge(n, acts, normId, agentId);
            (r.status == Violated <==> exists k :: 0 <= k < |acts| && Hits(acts[k], n.action, MissionActionMatch)) &&
            (r.status == Violated || (r.status == Fulfilled && r.evidence == []))
    ensures !Present(n.action) ==> Judge(n, acts, normId, agentId).status == Fulfilled
    ensures forall e :: e in Judge(n, acts, normId, agentId).evidence ==> FromActions(e, acts, n.action, ViolatedProhibition, MissionActionMatch)
  {
    TargetEvidenceFacts(acts, n.action, ViolatedProhibition, MissionActionMatch);
  }

  /** Permissions: always fulfilled; the evidence records each use of the action, or else of the mission. */
  lemma PermissionVerdict(n: Norm, acts: seq<ActionEntry>, normId: string, agentId: string)
    requires n.normType == Permission
    ensures Judge(n, acts, normId, agentId).status == Fulfilled
    ensures |Judge(n, acts, normId, agentId).evidence| > 0 <==> exists k :: 0 <= k < |acts| && Hits(acts[k], PermissionTarget(n), MissionActionMatch)
    ensures forall e :: e in Judge(n, acts, normId, agentId).evidence ==> FromActions(e, acts, PermissionTarget(n), UsedPermission, MissionActionMatch)
  {
    TargetEvidenceFacts(acts, PermissionTarget(n), UsedPermission, MissionActionMatch);
  }

  /** The corrected check never punishes a permission. */
  lemma PermissionNonPunitive(norms: seq<Norm>, matrix: seq<NormMatcher.NormApplicability>, actions: map<string, seq<ActionEntry>>,
                              normId: string, agentId: string)
    requires FindNorm(norms, normId).Some? && FindNorm(norms, normId).value.normType == Permission
    ensures CheckIntended(norms, matrix, actions, normId, agentId).status != Violated
  {
    PermissionVerdict(FindNorm(norms, normId).value, ActionsFor(actions, agentId), normId, agentId);
  }

  /**
   * Prohibition monotonicity for the corrected check: one more action for the agent never
   * turns a violation into compliance, and an action that hits the prohibited action makes
   * the verdict a violation.
   */
  lemma ProhibitionMonotone(norms: seq<Norm>, matrix: seq<NormMatcher.NormApplicability>, actions: map<string, seq<ActionEntry>>,
                            normId: string, agentId: string, x: ActionEntry)
    requires FindNorm(norms, normId).Some? && FindNorm(norms, normId).value.normType == Prohibition
    ensures var more := actions[agentId := ActionsFor(actions, agentId) + [x]];
            CheckIntended(norms, matrix, actions, normId, agentId).status == Violated ==>
              CheckIntended(norms, matrix, more, normId, agentId).status == Violated
    ensures var more := actions[agentId := ActionsFor(actions, agentId) + [x]];
            FirstApplies(matrix, normId, agentId) && Hits(x, FindNorm(norms, normId).value.action, MissionActionMatch) ==>
              CheckIntended(norms, matrix, more, normId, agentId).status == Violated
  {
    var acts := ActionsFor(actions, agentId);
    var more := actions[agentId := acts + [x]];
    assert ActionsFor(more, agentId) == acts + [x];
    JudgeProhibitionMonotone(FindNorm(norms, normId).value, acts, x, normId, agentId);
  }

  /** The same for the verdict on a given list of actions. */
  lemma JudgeProhibitionMonotone(n: Norm, acts: seq<ActionEntry>, x: ActionEntry, normId: string, agentId: string)
    requires n.normType == Prohibition
    ensures Judge(n, acts, normId, agentId).status == Violated ==> Judge(n, acts + [x], normId, agentId).status == Violated
    ensures Hits(x, n.action, MissionActionMatch) ==> Judge(n, acts + [x], normId, agentId).status == Violated
  {
    ProhibitionVerdict(n, acts, normId, agentId);
    ProhibitionVerdict(n, acts + [x], normId, agentId);
    assert forall k :: 0 <= k < |acts| ==> (acts + [x])[k] == acts[k];
    assert (acts + [x])[|acts|] == x;
  }

  /** As written, a permission is reported violated for an agent with no recorded action. */
  lemma ZeroActionPermissionViolated()
    ensures var n := Norm("p1", Permission, None, None, None, None, map[]);
            var matrix := [NormMatcher.NormApplicability("p1", "a1", true)];
            Check([n], matrix, map[], "p1", "a1").status == Violated &&
            CheckIntended([n], matrix, map[], "p1", "a1").status == Fulfilled
  {
    var n := Norm("p1", Permission, None, None, None, None, map[]);
    assert IsFirstWithId([n], "p1", 0);
    FindNormFirst([n], "p1", 0);
  }

  /** The two checks differ only for agents without actions. */
  lemma CheckAgreesWhenActive(norms: seq<Norm>, matrix: seq<NormMatcher.NormApplicability>, actions: map<string, seq<ActionEntry>>,
                              normId: string, agentId: string)
    requires |ActionsFor(actions, agentId)| > 0
    ensures Check(norms, matrix, actions, normId, agentId) == CheckIntended(norms, matrix, actions, normId, agentId)
  {
  }

  /** The actions of one agent among the first `n` entries, in log order. */
  function ActionsOf(entries: seq<LogEntry>, agentId: string, n: nat): seq<ActionEntry>
    requires n <= |entries|
  {
    if n == 0 then []
    else ActionsOf(entries, agentId, n - 1) + (if entries[n - 1].agentId == agentId then [ActionEntryOf(entries[n - 1])] else [])
  }

  /** The `agent_actions` dictionary `_build_agent_action_index` has built after the first `n` entries. */
  function ActionIndex(entries: seq<LogEntry>, n: nat): map<string, seq<ActionEntry>>
    requires n <= |entries|
  {
    if n == 0 then map[]
    else
      var m := ActionIndex(entries, n - 1);
      var e := entries[n - 1];
      m[e.agentId := ActionsFor(m, e.agentId) + [ActionEntryOf(e)]]
  }

  /** The insertion order of that dictionary's keys: agents by first appearance. */
  function AgentOrder(entries: seq<LogEntry>, n: nat): seq<string>
    requires n <= |entries|
  {
    if n == 0 then [] else AppendNew(AgentOrder(entries, n - 1), entries[n - 1].agentId)
  }

  /** The key order lists each agent of the first `n` entries once. */
  lemma {:induction false} AgentOrderFacts(entries: seq<LogEntry>, n: nat)
    requires n <= |entries|
    ensures NoDup(AgentOrder(entries, n))
    ensures forall a :: a in AgentOrder(entries, n) <==> exists i :: 0 <= i < n && entries[i].agentId == a
  {
    if n > 0 {
      AgentOrderFacts(entries, n - 1);
      forall a | a in AgentOrder(entries, n)
        ensures exists i :: 0 <= i < n && entries[i].agentId == a
      {
        if a != entries[n - 1].agentId {
          var i :| 0 <= i < n - 1 && entries[i].agentId == a;
        }
      }
    }
  }

  /** The dictionary's keys are the agents of the key order. */
  lemma {:induction false} IndexKeys(entries: seq<LogEntry>, n: nat)
    requires n <= |entries|
    ensures forall a :: a in ActionIndex(entries, n) <==> a in AgentOrder(entries, n)
  {
    if n > 0 {
      IndexKeys(entries, n - 1);
    }
  }

  /** Each agent's entry holds all of its actions in log order, and at least one. */
  lemma {:induction false} IndexValues(entries: seq<LogEntry>, n: nat)
    requires n <= |entries|
    ensures forall a :: a in ActionIndex(entries, n) ==>
              ActionIndex(entries, n)[a] == ActionsOf(entries, a, n) && |ActionIndex(entries, n)[a]| > 0
  {
    IndexNonEmpty(entries, n);
    forall a | a in ActionIndex(entries, n)
      ensures ActionIndex(entries, n)[a] == ActionsOf(entries, a, n)
    {
      IndexValueAt(entries, n, a);
    }
  }

  /** Looking an agent up in the index (an absent agent has no actions) gives its actions in log order. */
  lemma {:induction false} IndexValueAt(entries: seq<LogEntry>, n: nat, a: string)
    requires n <= |entries|
    ensures ActionsFor(ActionIndex(entries, n), a) == ActionsOf(entries, a, n)
  {
    if n > 0 {
      IndexValueAt(entries, n - 1, a);
    }
  }

  /** Every list in the index holds at least one action. */
  lemma {:induction false} IndexNonEmpty(entries: seq<LogEntry>, n: nat)
    requires n <= |entries|
    ensures forall a :: a in ActionIndex(entries, n) ==> |ActionIndex(entries, n)[a]| > 0
  {
    if n > 0 {
      IndexNonEmpty(entries, n - 1);
    }
  }

  /**
   * The index has one key per agent in the log, in first-appearance order without repeats,
   * and maps each agent to all of its actions in log order, of which there is at least one.
   */
  lemma ActionIndexFacts(entries: seq<LogEntry>)
    ensures ActionIndex(entries, |entries|).Keys == set a | a in AgentOrder(entries, |entries|)
    ensures NoDup(AgentOrder(entries, |entries|))
    ensures forall a :: a in AgentOrder(entries, |entries|) <==> exists i :: 0 <= i < |entries| && entries[i].agentId == a
    ensures forall a :: a in ActionIndex(entries, |entries|) ==>
              ActionIndex(entries, |entries|)[a] == ActionsOf(entries, a, |entries|) && |ActionIndex(entries, |entries|)[a]| > 0
  {
    AgentOrderFacts(entries, |entries|);
    IndexKeys(entries, |entries|);
    IndexValues(entries, |entries|);
  }

  /** One entry of `_build_agent_action_index`: a new agent gets an empty list and joins the key order, then the action joins its list. */
  method IndexEntry(entries: seq<LogEntry>, i: nat, actions0: map<string, seq<ActionEntry>>, order0: seq<string>)
    returns (actions: map<string, seq<ActionEntry>>, order: seq<string>)
    requires i < |entries| && actions0 == ActionIndex(entries, i) && order0 == AgentOrder(entries, i)
    ensures actions == ActionIndex(entries, i + 1)
    ensures order == AgentOrder(entries, i + 1)
  {
    IndexKeys(entries, i);
    actions, order := actions0, order0;
    var entry := entries[i];
    var agentId := entry.agentId;
    if agentId !in actions {
      actions := actions[agentId := []];
      order := order + [agentId];
    }
    assert actions[agentId] == ActionsFor(actions0, agentId);
    actions := actions[agentId := actions[agentId] + [ActionEntryOf(entry)]];
  }

  /** Cell `(norm, agent)` of `check_all_compliance`. */
  function ResultOf(norms: seq<Norm>, matrix: seq<NormMatcher.NormApplicability>, actions: map<string, seq<ActionEntry>>):
    (Norm, string) -> ComplianceResult
  {
    (n: Norm, a: string) => Check(norms, matrix, actions, n.normId, a)
  }

  /** The match `check_compliance` computes for action `i` against a target, when the target is present. */
  method MatchAt(actions: seq<ActionEntry>, i: int, target: Option<string>, m: Matcher) returns (matchType: MatchType)
    requires 0 <= i < |actions|
    ensures matchType == MatchTable(actions, target, m)[i]
  {
    matchType := NoMission;
    if Present(target) {
      matchType := m(actions[i].action, target.value);
    }
    MatchTableAt(actions, target, m, i);
  }

  /** The obligation loop of `check_compliance`. */
  method ObligationLoop(n: Norm, actions: seq<ActionEntry>, m: Matcher) returns (fulfilled: bool, evidence: seq<Evidence>)
    ensures evidence == ObligationEvidence(actions, n.mission, n.action, m)
    ensures fulfilled <==> |evidence| > 0
  {
    ghost var mm, am := MatchTable(actions, n.mission, m), MatchTable(actions, n.action, m);
    var mission, action := TargetText(n.mission), TargetText(n.action);
    fulfilled := false;
    evidence := [];
    var i := 0;
    while i < |actions|
      invariant 0 <= i <= |actions|
      invariant evidence == ObligationTableEvidence(actions, mm, am, mission, action, i)
      invariant fulfilled <==> |evidence| > 0
    {
      var entry := actions[i];
      var missionMatch := MatchAt(actions, i, n.mission, m);
      fulfilled, evidence := RecordMatch(entry, missionMatch, mission, MatchedTo, fulfilled, evidence);
      var actionMatch := MatchAt(actions, i, n.action, m);
      fulfilled, evidence := RecordMatch(entry, actionMatch, action, MatchedTo, fulfilled, evidence);
      i := i + 1;
    }
  }

  /** The prohibition and permission loops of `check_compliance`: match every action against one target. */
  method TargetLoop(target: Option<string>, kind: EvidenceKind, actions: seq<ActionEntry>, m: Matcher) returns (hit: bool, evidence: seq<Evidence>)
    ensures evidence == TargetEvidence(actions, target, kind, m)
    ensures hit <==> |evidence| > 0
  {
    ghost var ms := MatchTable(actions, target, m);
    var text := TargetText(target);
    hit := false;
    evidence := [];
    var i := 0;
    while i < |actions|
      invariant 0 <= i <= |actions|
      invariant evidence == TableEvidence(actions, ms, text, kind, i)
      invariant hit <==> |evidence| > 0
    {
      var matchType := MatchAt(actions, i, target, m);
      hit, evidence := RecordMatch(actions[i], matchType, text, kind, hit, evidence);
      i := i + 1;
    }
  }

  /** One step of the loops: a match sets the loop's flag and records the action as evidence. */
  method RecordMatch(entry: ActionEntry, matchType: MatchType, text: string, kind: EvidenceKind, hit0: bool, evidence0: seq<Evidence>)
    returns (hit: bool, evidence: seq<Evidence>)
    ensures evidence == evidence0 + Recorded(entry, matchType, text, kind)
    ensures hit <==> hit0 || IsMatch(matchType)
    ensures (hit0 <==> |evidence0| > 0) ==> (hit <==> |evidence| > 0)
  {
    hit, evidence := hit0, evidence0;
    if IsMatch(matchType) {
      hit := true;
      evidence := evidence + [Evidence(entry.entryId, entry.action, matchType, kind, text, entry.timestamp, entry.sequenceNumber)];
    }
  }

  /** The checker object: the loaded norms and log entries, the applicability matrix and the action index. */
  class Checker {
    const norms: seq<Norm>
    const logEntries: seq<LogEntry>
    const applicabilityMatrix: seq<NormMatcher.NormApplicability>
    /** `agent_actions`. */
    var agentActions: map<string, seq<ActionEntry>>
    /** The insertion order of `agent_actions`' keys. */
    var agentOrder: seq<string>

    constructor(norms: seq<Norm>, logEntries: seq<LogEntry>, applicabilityMatrix: seq<NormMatcher.NormApplicability>)
      ensures this.norms == norms && this.logEntries == logEntries && this.applicabilityMatrix == applicabilityMatrix
      ensures agentActions == ActionIndex(logEntries, |logEntries|) && agentOrder == AgentOrder(logEntries, |logEntries|)
    {
      this.norms := norms;
      this.logEntries := logEntries;
      this.applicabilityMatrix := applicabilityMatrix;
      agentActions := map[];
      agentOrder := [];
      new;
      BuildAgentActionIndex();
    }

    /** `_build_agent_action_index`. */
    method BuildAgentActionIndex()
      modifies this
      ensures agentActions == ActionIndex(logEntries, |logEntries|) && agentOrder == AgentOrder(logEntries, |logEntries|)
    {
      agentActions := map[];
      agentOrder := [];
      var i := 0;
      while i < |logEntries|
        invariant 0 <= i <= |logEntries|
        invariant agentActions == ActionIndex(logEntries, i) && agentOrder == AgentOrder(logEntries, i)
      {
        agentActions, agentOrder := IndexEntry(logEntries, i, agentActions, agentOrder);
        i := i + 1;
      }
    }

    /** `_is_norm_applicable`. */
    method IsNormApplicable(normId: string, agentId: string) returns (applies: bool)
      ensures applies == FirstApplies(applicabilityMatrix, normId, agentId)
    {
      var i := 0;
      assert applicabilityMatrix[0..] == applicabilityMatrix;
      while i < |applicabilityMatrix|
        invariant 0 <= i <= |applicabilityMatrix|
        invariant FirstApplies(applicabilityMatrix[i..], normId, agentId) == FirstApplies(applicabilityMatrix, normId, agentId)
      {
        var record := applicabilityMatrix[i];
        if record.normId == normId && record.agentId == agentId {
          return record.applies;
        }
        assert applicabilityMatrix[i..][1..] == applicabilityMatrix[i + 1..];
        i := i + 1;
      }
      return false;
    }

    /** `check_compliance`. */
    method CheckCompliance(normId: string, agentId: string) returns (r: ComplianceResult)
      ensures r == Check(norms, applicabilityMatrix, agentActions, normId, agentId)
    {
      var norm := FindNorm(norms, normId);
      if norm.None? {
        return ComplianceResult(normId, agentId, Unknown, []);
      }
      var applies := IsNormApplicable(normId, agentId);
      if !applies {
        return ComplianceResult(normId, agentId, NotApplicable, []);
      }
      var actions := if agentId in agentActions then agentActions[agentId] else [];
      if |actions| == 0 {
        return ComplianceResult(normId, agentId, Violated, []);
      }
      var n := norm.value;
      match n.normType {
        case Obligation =>
          var fulfilled, evidence := ObligationLoop(n, actions, MissionActionMatch);
          if fulfilled {
            r := ComplianceResult(normId, agentId, Fulfilled, evidence);
          } else {
            r := ComplianceResult(normId, agentId, Violated, []);
          }
        case Prohibition =>
          var violated, evidence := TargetLoop(n.action, ViolatedProhibition, actions, MissionActionMatch);
          if violated {
            r := ComplianceResult(normId, agentId, Violated, evidence);
          } else {
            r := ComplianceResult(normId, agentId, Fulfilled, []);
          }
        case Permission =>
          var target := if Present(n.action) then n.action else if Present(n.mission) then n.mission else None;
          var used, evidence := TargetLoop(target, UsedPermission, actions, MissionActionMatch);
          r := ComplianceResult(normId, agentId, Fulfilled, evidence);
      }
    }

    /** One norm's pass of `check_all_compliance`: the norm against each agent in turn. */
    method CheckRow(n: Norm, agents: seq<string>) returns (row: seq<ComplianceResult>)
      ensures row == Row(n, agents, ResultOf(norms, applicabilityMatrix, agentActions))
    {
      ghost var f := ResultOf(norms, applicabilityMatrix, agentActions);
      row := [];
      var j := 0;
      while j < |agents|
        invariant 0 <= j <= |agents|
        invariant row == Row(n, agents[..j], f)
      {
        var result := CheckCompliance(n.normId, agents[j]);
        row := row + [result];
        assert agents[..j + 1][..j] == agents[..j];
        j := j + 1;
      }
      assert agents[..j] == agents;
    }

    /** `check_all_compliance`: every norm against every indexed agent, norm-major. */
    method CheckAllCompliance() returns (results: seq<ComplianceResult>)
      ensures results == Grid(norms, agentOrder, ResultOf(norms, applicabilityMatrix, agentActions))
    {
      ghost var f := ResultOf(norms, applicabilityMatrix, agentActions);
      var agents := agentOrder;
      results := [];
      var i := 0;
      while i < |norms|
        invariant 0 <= i <= |norms|
        invariant results == Grid(norms[..i], agents, f)
      {
        var row := CheckRow(norms[i], agents);
        results := results + row;
        assert norms[..i + 1][..i] == norms[..i];
        i := i + 1;
      }
      assert norms[..i] == norms;
    }
  }

  /** A full run makes one result per (norm, indexed agent) pair. */
  lemma CheckAllSize(norms: seq<Norm>, matrix: seq<NormMatcher.NormApplicability>, entries: seq<LogEntry>)
    ensures |Grid(norms, AgentOrder(entries, |entries|), ResultOf(norms, matrix, ActionIndex(entries, |entries|)))| ==
            Offset(|norms|, |AgentOrder(entries, |entries|)|)
  {
    GridLen(norms, AgentOrder(entries, |entries|), ResultOf(norms, matrix, ActionIndex(entries, |entries|)));
  }

  /** A full run is norm-major: result `Offset(i, |agents|) + j` judges norm `i` against indexed agent `j`. */
  lemma CheckAllCell(norms: seq<Norm>, matrix: seq<NormMatcher.NormApplicability>, entries: seq<LogEntry>, i: nat, j: nat)
    requires i < |norms| && j < |AgentOrder(entries, |entries|)|
    ensures var agents := AgentOrder(entries, |entries|);
            var results := Grid(norms, agents, ResultOf(norms, matrix, ActionIndex(entries, |entries|)));
            Offset(i, |agents|) + j < |results| &&
            results[Offset(i, |agents|) + j] == Check(norms, matrix, ActionIndex(entries, |entries|), norms[i].normId, agents[j])
  {
    GridCell(norms, AgentOrder(entries, |entries|), ResultOf(norms, matrix, ActionIndex(entries, |entries|)), i, j);
  }

  /**
   * Every agent of a full run has actions, so the zero-action short-circuit never fires
   * there and every verdict of the run is the corrected one.
   */
  lemma CheckAllIsIntended(norms: seq<Norm>, matrix: seq<NormMatcher.NormApplicability>, entries: seq<LogEntry>)
    ensures forall r: ComplianceResult :: r in Grid(norms, AgentOrder(entries, |entries|), ResultOf(norms, matrix, ActionIndex(entries, |entries|))) ==>
              r == CheckIntended(norms, matrix, ActionIndex(entries, |entries|), r.normId, r.agentId)
  {
    var actions := ActionIndex(entries, |entries|);
    var agents := AgentOrder(entries, |entries|);
    var f := ResultOf(norms, matrix, actions);
    ActionIndexFacts(entries);
    GridMember(norms, agents, f);
    forall r: ComplianceResult | r in Grid(norms, agents, f)
      ensures r == CheckIntended(norms, matrix, actions, r.normId, r.agentId)
    {
      var i, j :| 0 <= i < |norms| && 0 <= j < |agents| && r == f(norms[i], agents[j]);
      assert agents[j] in agents;
      CheckAgreesWhenActive(norms, matrix, actions, norms[i].normId, agents[j]);
    }
  }

  /** In a full run no permission is ever reported violated. */
  lemma CheckAllPermissionNeverViolated(norms: seq<Norm>, matrix: seq<NormMatcher.NormApplicability>, entries: seq<LogEntry>)
    ensures forall r: ComplianceResult ::
              (r in Grid(norms, AgentOrder(entries, |entries|), ResultOf(norms, matrix, ActionIndex(entries, |entries|))) &&
               FindNorm(norms, r.normId).Some? && FindNorm(norms, r.normId).value.normType == Permission) ==>
              r.status != Violated
  {
    var actions := ActionIndex(entries, |entries|);
    CheckAllIsIntended(norms, matrix, entries);
    forall r: ComplianceResult | r in Grid(norms, AgentOrder(entries, |entries|), ResultOf(norms, matrix, actions)) &&
               FindNorm(norms, r.normId).Some? && FindNorm(norms, r.normId).value.normType == Permission
      ensures r.status != Violated
    {
      PermissionNonPunitive(norms, matrix, actions, r.normId, r.agentId);
    }
  }
}
