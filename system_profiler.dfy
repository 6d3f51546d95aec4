/**
 * The system profiler of the understanding phase: from the parsed norms, the parsed log,
 * the role mapping and the compliance results it builds a profile of every agent, every
 * mission, the execution timeline, the agent-to-agent interactions and the system totals.
 *
 * The profiler's dictionaries are modelled as sequences in insertion order (a Python dict
 * iterates in insertion order): `dict[str, AgentProfile]` is the sequence of profiles, in
 * the order the agents are enumerated, and a `defaultdict(list)` or a `Counter` is the
 * sequence of its items as `Collections.Grouped` and `Collections.Counter` define them.
 */
module SystemProfiler {
  import opened Wrappers
  import opened Text
  import opened Seqs
  import opened RawData
  import opened Schemas
  import opened Sorting
  import opened Collections
  import NormMatcher
  import ComplianceChecker

  type ComplianceStatus = ComplianceChecker.ComplianceStatus
  type ComplianceResult = ComplianceChecker.ComplianceResult

  // ---------------------------------------------------------------------------------------
  // Agent profiles
  // ---------------------------------------------------------------------------------------

  /** The number of most frequent actions kept in an agent's summary. */
  const ActionSummarySize: nat := 10

  datatype AgentProfile = AgentProfile(
    agentId: string,
    inferredRole: Option<string>,
    roleConfidence: NormMatcher.Confidence,
    totalActions: nat,
    uniqueActions: nat,
    actionSummary: seq<(string, nat)>,
    applicableNorms: seq<string>,
    complianceStatus: map<string, ComplianceStatus>,
    firstAppearance: Option<int>,
    lastAppearance: Option<int>)

  function EntryAgent(e: LogEntry): string {
    e.agentId
  }

  function EntryAction(e: LogEntry): string {
    e.action
  }

  function EntrySequence(e: LogEntry): Option<int> {
    e.sequenceNumber
  }

  /** The agent ids of the log, one per entry. */
  function AgentIds(entries: seq<LogEntry>): seq<string> {
    Map(EntryAgent, entries)
  }

  /** `set(entry['agent_id'] for entry in log_entries)`. */
  function AgentIdSet(entries: seq<LogEntry>): set<string> {
    set a | a in AgentIds(entries)
  }

  /** `agents` lists every agent of the log exactly once, in the order the set yields them. */
  predicate EnumeratesAgents(agents: seq<string>, entries: seq<LogEntry>) {
    NoDup(agents) && (set a | a in agents) == AgentIdSet(entries)
  }

  /** Entry `i` of the log if it belongs to the agent. */
  function AgentEntryTable(entries: seq<LogEntry>, agentId: string): (t: seq<Option<LogEntry>>)
    ensures |t| == |entries|
  {
    seq(|entries|, i requires 0 <= i < |entries| => if entries[i].agentId == agentId then Some(entries[i]) else None)
  }

  /** `[e for e in log_entries if e['agent_id'] == agent_id]`. */
  function AgentEntries(entries: seq<LogEntry>, agentId: string): seq<LogEntry> {
    Somes(AgentEntryTable(entries, agentId), |entries|)
  }

  /** The sequence numbers the entries carry, in order. */
  function SequenceNumbers(es: seq<LogEntry>): seq<int> {
    Somes(Map(EntrySequence, es), |es|)
  }

  function FirstAppearance(es: seq<LogEntry>): Option<int> {
    var s := SequenceNumbers(es);
    if |s| == 0 then None else Some(Min(s))
  }

  function LastAppearance(es: seq<LogEntry>): Option<int> {
    var s := SequenceNumbers(es);
    if |s| == 0 then None else Some(Max(s))
  }

  /** A result that counts for the agent: its own, and not `not_applicable`. */
  predicate AppliesTo(r: ComplianceResult, agentId: string) {
    r.agentId == agentId && r.status != ComplianceChecker.NotApplicable
  }

  /** What a compliance result contributes to the agent's applicable norms and statuses. */
  function ApplicableWrite(r: ComplianceResult, agentId: string): Option<(string, ComplianceStatus)> {
    if AppliesTo(r, agentId) then Some((r.normId, r.status)) else None
  }

  function ApplicableTable(results: seq<ComplianceResult>, agentId: string): (t: seq<Option<(string, ComplianceStatus)>>)
    ensures |t| == |results|
  {
    seq(|results|, i requires 0 <= i < |results| => ApplicableWrite(results[i], agentId))
  }

  /** `role_mapping.get(agent_id, {}).get('inferred_role')`. */
  function RoleOf(roleMapping: map<string, NormMatcher.RoleMapping>, agentId: string): Option<string> {
    if agentId in roleMapping then roleMapping[agentId].inferredRole else None
  }

  /** `role_mapping.get(agent_id, {}).get('confidence', 'unknown')`. */
  function ConfidenceOf(roleMapping: map<string, NormMatcher.RoleMapping>, agentId: string): NormMatcher.Confidence {
    if agentId in roleMapping then roleMapping[agentId].confidence else NormMatcher.UnknownRole
  }

  /** The profile `build_agent_profiles` builds for one agent. */
  function AgentProfileOf(entries: seq<LogEntry>, roleMapping: map<string, NormMatcher.RoleMapping>,
                          results: seq<ComplianceResult>, agentId: string): AgentProfile
  {
    var es := AgentEntries(entries, agentId);
    var actions := Map(EntryAction, es);
    var t := ApplicableTable(results, agentId);
    AgentProfile(agentId, RoleOf(roleMapping, agentId), ConfidenceOf(roleMapping, agentId),
                 |actions|, |set a | a in actions|, MostCommon(actions, ActionSummarySize),
                 Keys(t, |t|), Dict(Somes(t, |t|)), FirstAppearance(es), LastAppearance(es))
  }

  function AgentProfiles(entries: seq<LogEntry>, roleMapping: map<string, NormMatcher.RoleMapping>,
                         results: seq<ComplianceResult>, agents: seq<string>): (ps: seq<AgentProfile>)
    ensures |ps| == |agents|
  {
    seq(|agents|, i requires 0 <= i < |agents| => AgentProfileOf(entries, roleMapping, results, agents[i]))
  }

  /** An agent's entries are exactly its entries of the log, as many as the log has. */
  lemma {:induction false} AgentEntriesCount(entries: seq<LogEntry>, agentId: string, n: nat)
    requires n <= |entries|
    ensures |Somes(AgentEntryTable(entries, agentId), n)| == Count(AgentIds(entries)[..n], agentId)
  {
    if n > 0 {
      AgentEntriesCount(entries, agentId, n - 1);
      AgentEntriesCountStep(entries, agentId, n);
    }
  }

  /** One more entry adds one to the agent's entries and to its count together, or to neither. */
  lemma AgentEntriesCountStep(entries: seq<LogEntry>, agentId: string, n: nat)
    requires 0 < n <= |entries|
    ensures |Somes(AgentEntryTable(entries, agentId), n)| - |Somes(AgentEntryTable(entries, agentId), n - 1)| ==
            Count(AgentIds(entries)[..n], agentId) - Count(AgentIds(entries)[..n - 1], agentId)
  {
    assert AgentIds(entries)[..n] == AgentIds(entries)[..n - 1] + [entries[n - 1].agentId];
    CountSnoc(AgentIds(entries)[..n - 1], entries[n - 1].agentId, agentId);
  }

  lemma AgentEntriesFacts(entries: seq<LogEntry>, agentId: string)
    ensures |AgentEntries(entries, agentId)| == Count(AgentIds(entries), agentId)
    ensures forall e :: e in AgentEntries(entries, agentId) <==> e in entries && e.agentId == agentId
  {
    var t := AgentEntryTable(entries, agentId);
    AgentEntriesCount(entries, agentId, |entries|);
    assert AgentIds(entries)[..|entries|] == AgentIds(entries);
    SomesMember(t, |entries|);
    forall e | e in entries && e.agentId == agentId
      ensures e in AgentEntries(entries, agentId)
    {
      var i :| 0 <= i < |entries| && entries[i] == e;
      assert t[i] == Some(e);
    }
  }

  /** Distinct actions never outnumber actions, and an agent with an action has a distinct one. */
  lemma UniqueActionsBound(actions: seq<string>)
    ensures |set a | a in actions| == |Dedup(actions)| <= |actions|
    ensures |actions| > 0 ==> |set a | a in actions| > 0
  {
    NoDupCardinality(Dedup(actions));
    assert (set a | a in Dedup(actions)) == (set a | a in actions);
    if |actions| > 0 {
      assert actions[0] in (set a | a in actions);
    }
  }

  /** The appearance bounds are the least and greatest sequence number of the entries, `None` when none has one. */
  lemma AppearanceFacts(es: seq<LogEntry>)
    ensures FirstAppearance(es).None? <==> forall i :: 0 <= i < |es| ==> es[i].sequenceNumber.None?
    ensures LastAppearance(es).None? <==> FirstAppearance(es).None?
    ensures FirstAppearance(es).Some? ==>
      && (exists i :: 0 <= i < |es| && es[i].sequenceNumber == FirstAppearance(es))
      && (exists i :: 0 <= i < |es| && es[i].sequenceNumber == LastAppearance(es))
      && FirstAppearance(es).value <= LastAppearance(es).value
      && forall i :: 0 <= i < |es| && es[i].sequenceNumber.Some? ==>
           FirstAppearance(es).value <= es[i].sequenceNumber.value <= LastAppearance(es).value
  {
    var t := Map(EntrySequence, es);
    var s := SequenceNumbers(es);
    SomesMember(t, |es|);
    if |s| == 0 {
      forall i | 0 <= i < |es| ensures es[i].sequenceNumber.None? {
        assert t[i] == es[i].sequenceNumber;
      }
    } else {
      assert s[0] in s;
      forall i | 0 <= i < |es| && es[i].sequenceNumber.Some?
        ensures Min(s) <= es[i].sequenceNumber.value <= Max(s)
      {
        assert t[i] == Some(es[i].sequenceNumber.value);
      }
    }
  }

  /** The applicable norms are the norms of the agent's results that are not `not_applicable`, in result order. */
  lemma ApplicableNormsFacts(results: seq<ComplianceResult>, agentId: string)
    ensures var t := ApplicableTable(results, agentId);
      forall normId :: normId in Keys(t, |t|) <==>
        exists i :: 0 <= i < |results| && AppliesTo(results[i], agentId) && results[i].normId == normId
    ensures var t := ApplicableTable(results, agentId);
      forall normId :: normId in Dict(Somes(t, |t|)) <==> normId in Keys(t, |t|)
  {
    var t := ApplicableTable(results, agentId);
    KeysMember(t, |t|);
    DictKeys(t, |t|);
    forall normId
      ensures normId in Keys(t, |t|) <==>
        exists i :: 0 <= i < |results| && AppliesTo(results[i], agentId) && results[i].normId == normId
    {
      if normId in Keys(t, |t|) {
        var i :| 0 <= i < |t| && t[i].Some? && t[i].value.0 == normId;
        assert AppliesTo(results[i], agentId) && results[i].normId == normId;
      }
      if exists i :: 0 <= i < |results| && AppliesTo(results[i], agentId) && results[i].normId == normId {
        var i :| 0 <= i < |results| && AppliesTo(results[i], agentId) && results[i].normId == normId;
        assert t[i].Some? && t[i].value.0 == normId;
      }
    }
  }

  /** Each status recorded is that of one of the agent's applicable results for the norm, the last one. */
  lemma ComplianceStatusFacts(results: seq<ComplianceResult>, agentId: string)
    ensures var status := Dict(Somes(ApplicableTable(results, agentId), |results|));
      forall normId :: normId in status ==>
        && status[normId] != ComplianceChecker.NotApplicable
        && exists i :: 0 <= i < |results| && AppliesTo(results[i], agentId) &&
                      results[i].normId == normId && results[i].status == status[normId]
    ensures var status := Dict(Somes(ApplicableTable(results, agentId), |results|));
      forall i :: 0 <= i < |results| && AppliesTo(results[i], agentId) &&
                  (forall j :: i < j < |results| ==> !(AppliesTo(results[j], agentId) && results[j].normId == results[i].normId)) ==>
        results[i].normId in status && status[results[i].normId] == results[i].status
  {
    var t := ApplicableTable(results, agentId);
    DictValues(t, |t|);
    forall i | 0 <= i < |results| && AppliesTo(results[i], agentId) &&
               (forall j :: i < j < |results| ==> !(AppliesTo(results[j], agentId) && results[j].normId == results[i].normId))
      ensures results[i].normId in Dict(Somes(t, |t|)) && Dict(Somes(t, |t|))[results[i].normId] == results[i].status
    {
      DictLastWrite(t, |t|, i);
    }
  }

  /** What one agent's profile holds. */
  lemma AgentProfileFacts(entries: seq<LogEntry>, roleMapping: map<string, NormMatcher.RoleMapping>,
                          results: seq<ComplianceResult>, agentId: string)
    ensures var p := AgentProfileOf(entries, roleMapping, results, agentId);
      && p.agentId == agentId
      && p.totalActions == Count(AgentIds(entries), agentId)
      && (p.totalActions > 0 <==> agentId in AgentIdSet(entries))
      && p.uniqueActions <= p.totalActions
      && (p.totalActions > 0 ==> p.uniqueActions > 0)
      && |p.actionSummary| == (if p.uniqueActions < ActionSummarySize then p.uniqueActions else ActionSummarySize)
      && (agentId !in roleMapping ==> p.inferredRole.None? && p.roleConfidence == NormMatcher.UnknownRole)
  {
    var es := AgentEntries(entries, agentId);
    var actions := Map(EntryAction, es);
    AgentEntriesFacts(entries, agentId);
    UniqueActionsBound(actions);
    MostCommonFacts(actions, ActionSummarySize);
  }

  /** Every action of the summary is one of the agent's actions, with its number of occurrences. */
  lemma ActionSummaryFacts(entries: seq<LogEntry>, roleMapping: map<string, NormMatcher.RoleMapping>,
                           results: seq<ComplianceResult>, agentId: string)
    ensures var p := AgentProfileOf(entries, roleMapping, results, agentId);
      var actions := Map(EntryAction, AgentEntries(entries, agentId));
      && (forall i :: 0 <= i < |p.actionSummary| ==>
            p.actionSummary[i].0 in actions && p.actionSummary[i].1 == Count(actions, p.actionSummary[i].0))
      && (forall i, j :: 0 <= i < j < |p.actionSummary| ==>
            p.actionSummary[i].0 != p.actionSummary[j].0 && p.actionSummary[i].1 >= p.actionSummary[j].1)
  {
    MostCommonFacts(Map(EntryAction, AgentEntries(entries, agentId)), ActionSummarySize);
  }

  /** The inner loop of `build_agent_profiles`: one pass over the compliance results. */
  method ApplicableNormsFor(results: seq<ComplianceResult>, agentId: string)
    returns (applicable: seq<string>, status: map<string, ComplianceStatus>)
    ensures applicable == Keys(ApplicableTable(results, agentId), |results|)
    ensures status == Dict(Somes(ApplicableTable(results, agentId), |results|))
  {
    ghost var t := ApplicableTable(results, agentId);
    applicable := [];
    status := map[];
    for i := 0 to |results|
      invariant applicable == Keys(t, i)
      invariant status == Dict(Somes(t, i))
    {
      var r := results[i];
      if r.agentId == agentId && r.status != ComplianceChecker.NotApplicable {
        assert t[i] == Some((r.normId, r.status));
        assert Somes(t, i + 1) == Somes(t, i) + [(r.normId, r.status)];
        DictSnoc(Somes(t, i), (r.normId, r.status));
        applicable := applicable + [r.normId];
        status := status[r.normId := r.status];
      } else {
        assert t[i] == None;
        assert Somes(t, i + 1) == Somes(t, i);
      }
    }
  }

  /** `build_agent_profiles`: one profile per agent, in the order `agents` enumerates them. */
  method BuildAgentProfiles(entries: seq<LogEntry>, roleMapping: map<string, NormMatcher.RoleMapping>,
                            results: seq<ComplianceResult>, agents: seq<string>) returns (profiles: seq<AgentProfile>)
    ensures profiles == AgentProfiles(entries, roleMapping, results, agents)
  {
    profiles := [];
    for i := 0 to |agents|
      invariant |profiles| == i
      invariant forall k :: 0 <= k < i ==> profiles[k] == AgentProfileOf(entries, roleMapping, results, agents[k])
    {
      var profile := BuildAgentProfile(entries, roleMapping, results, agents[i]);
      profiles := profiles + [profile];
    }
  }

  /** The body of the loop of `build_agent_profiles`: the profile of one agent. */
  method BuildAgentProfile(entries: seq<LogEntry>, roleMapping: map<string, NormMatcher.RoleMapping>,
                           results: seq<ComplianceResult>, agentId: string) returns (profile: AgentProfile)
    ensures profile == AgentProfileOf(entries, roleMapping, results, agentId)
  {
    var agentEntries := AgentEntries(entries, agentId);
    var actions := Map(EntryAction, agentEntries);
    var first: Option<int> := None;
    var last: Option<int> := None;
    if |agentEntries| > 0 {
      first := FirstAppearance(agentEntries);
      last := LastAppearance(agentEntries);
    }
    var applicable, status := ApplicableNormsFor(results, agentId);
    profile := AgentProfile(agentId, RoleOf(roleMapping, agentId), ConfidenceOf(roleMapping, agentId),
                            |actions|, |set a | a in actions|, MostCommon(actions, ActionSummarySize),
                            applicable, status, first, last);
  }

  /** Over an enumeration of the log's agents: one profile per agent, in that order, each with at least one action. */
  lemma AgentProfilesFacts(entries: seq<LogEntry>, roleMapping: map<string, NormMatcher.RoleMapping>,
                           results: seq<ComplianceResult>, agents: seq<string>)
    requires EnumeratesAgents(agents, entries)
    ensures var ps := AgentProfiles(entries, roleMapping, results, agents);
      && |ps| == |AgentIdSet(entries)|
      && (forall i :: 0 <= i < |ps| ==> ps[i].agentId == agents[i] && ps[i].totalActions > 0)
      && (forall i, j :: 0 <= i < j < |ps| ==> ps[i].agentId != ps[j].agentId)
      && (forall a :: a in AgentIdSet(entries) <==> exists i :: 0 <= i < |ps| && ps[i].agentId == a)
  {
    var ps := AgentProfiles(entries, roleMapping, results, agents);
    NoDupCardinality(agents);
    forall i | 0 <= i < |ps|
      ensures ps[i].agentId == agents[i] && ps[i].totalActions > 0
    {
      assert agents[i] in (set a | a in agents);
      AgentProfileFacts(entries, roleMapping, results, agents[i]);
    }
    forall a | a in AgentIdSet(entries)
      ensures exists i :: 0 <= i < |ps| && ps[i].agentId == a
    {
      assert a in (set a | a in agents);
      var i :| 0 <= i < |agents| && agents[i] == a;
      assert ps[i].agentId == a;
    }
  }

  // ---------------------------------------------------------------------------------------
  // Mission profiles
  // ---------------------------------------------------------------------------------------

  datatype MissionProfile = MissionProfile(
    missionName: string,
    requiredRoles: seq<string>,
    associatedNorms: seq<string>,
    agentsAssigned: seq<string>,
    fulfillmentStatus: map<string, ComplianceStatus>)

  /** `norm.get('mission')` when it is truthy. */
  function MissionOf(n: Norm): Option<string> {
    if Present(n.mission) then n.mission else None
  }

  function MissionTable(norms: seq<Norm>): (t: seq<Option<string>>)
    ensures |t| == |norms|
  {
    seq(|norms|, i requires 0 <= i < |norms| => MissionOf(norms[i]))
  }

  /** The missions the norms name, each once, in order of first mention. */
  function MissionNames(norms: seq<Norm>): seq<string> {
    Dedup(Somes(MissionTable(norms), |norms|))
  }

  /** Norm `i`'s truthy role, if the norm belongs to mission `m`. */
  function RoleTable(norms: seq<Norm>, m: string): (t: seq<Option<string>>)
    ensures |t| == |norms|
  {
    seq(|norms|, i requires 0 <= i < |norms| =>
      if MissionOf(norms[i]) == Some(m) && Present(norms[i].role) then norms[i].role else None)
  }

  /** Norm `i`'s id, if the norm belongs to mission `m`. */
  function NormIdTable(norms: seq<Norm>, m: string): (t: seq<Option<string>>)
    ensures |t| == |norms|
  {
    seq(|norms|, i requires 0 <= i < |norms| =>
      if MissionOf(norms[i]) == Some(m) then Some(norms[i].normId) else None)
  }

  /** The mission a compliance result is recorded under: that of the first norm with the result's id. */
  function AssignedMission(norms: seq<Norm>, r: ComplianceResult): Option<string> {
    if r.status == ComplianceChecker.NotApplicable then None
    else
      var n := FindNorm(norms, r.normId);
      if n.None? then None else MissionOf(n.value)
  }

  /** The mission each result is recorded under. */
  function AssignedMissions(norms: seq<Norm>, results: seq<ComplianceResult>): (ms: seq<Option<string>>)
    ensures |ms| == |results|
  {
    seq(|results|, j requires 0 <= j < |results| => AssignedMission(norms, results[j]))
  }

  /** Result `j`'s agent and status, if `ms` records the result under mission `m`. */
  function AssignmentTable(ms: seq<Option<string>>, results: seq<ComplianceResult>, m: string): (t: seq<Option<(string, ComplianceStatus)>>)
    requires |ms| == |results|
    ensures |t| == |results|
  {
    seq(|results|, j requires 0 <= j < |results| =>
      if ms[j] == Some(m) then Some((results[j].agentId, results[j].status)) else None)
  }

  /** The profile `build_mission_profiles` builds for mission `m`. */
  function MissionProfileOf(norms: seq<Norm>, results: seq<ComplianceResult>, m: string): MissionProfile {
    var at := AssignmentTable(AssignedMissions(norms, results), results, m);
    MissionProfile(m, Dedup(Somes(RoleTable(norms, m), |norms|)), Somes(NormIdTable(norms, m), |norms|),
                   Dedup(Keys(at, |results|)), Dict(Somes(at, |results|)))
  }

  function MissionProfiles(norms: seq<Norm>, results: seq<ComplianceResult>): (ps: seq<MissionProfile>)
    ensures |ps| == |MissionNames(norms)|
  {
    var names := MissionNames(norms);
    seq(|names|, k requires 0 <= k < |names| => MissionProfileOf(norms, results, names[k]))
  }

  /** The entry a mission gets when it is first named. */
  function NewMission(m: string): MissionProfile {
    MissionProfile(m, [], [], [], map[])
  }

  /** The first loop's update for one norm of the mission. */
  function WithNorm(p: MissionProfile, n: Norm): MissionProfile {
    p.(requiredRoles := if Present(n.role) then AppendNew(p.requiredRoles, n.role.value) else p.requiredRoles,
       associatedNorms := p.associatedNorms + [n.normId])
  }

  /** The second loop's update for one result recorded under the mission. */
  function WithResult(p: MissionProfile, r: ComplianceResult): MissionProfile {
    p.(agentsAssigned := AppendNew(p.agentsAssigned, r.agentId),
       fulfillmentStatus := p.fulfillmentStatus[r.agentId := r.status])
  }

  /** The `missions` dict after the first loop of `build_mission_profiles` has seen `i` norms. */
  function NormStage(norms: seq<Norm>, i: nat): map<string, MissionProfile>
    requires i <= |norms|
  {
    if i == 0 then map[]
    else
      var t := NormStage(norms, i - 1);
      var n := norms[i - 1];
      if !Present(n.mission) then t
      else
        var m := n.mission.value;
        t[m := WithNorm(if m in t then t[m] else NewMission(m), n)]
  }

  /** A profile with the given assignments. */
  function WithAssignments(p: MissionProfile, agents: seq<string>, status: map<string, ComplianceStatus>): MissionProfile {
    p.(agentsAssigned := agents, fulfillmentStatus := status)
  }

  /** The `missions` dict after the second loop, starting from `start`, has seen `j` results recorded under `ms`. */
  function ResultStage(ms: seq<Option<string>>, results: seq<ComplianceResult>, start: map<string, MissionProfile>, j: nat):
    map<string, MissionProfile>
    requires |ms| == |results| && j <= |results|
  {
    if j == 0 then start else RecordStep(ResultStage(ms, results, start, j - 1), ms[j - 1], results[j - 1])
  }

  /** One step of the second loop: a result recorded under a mission of the table updates that mission. */
  function RecordStep(t: map<string, MissionProfile>, m: Option<string>, r: ComplianceResult): map<string, MissionProfile> {
    if m.Some? && m.value in t then t[m.value := WithResult(t[m.value], r)] else t
  }

  /** The keys of the `missions` dict after `i` norms, in insertion order. */
  function MissionOrder(norms: seq<Norm>, i: nat): seq<string>
    requires i <= |norms|
  {
    if i == 0 then []
    else
      var o := MissionOrder(norms, i - 1);
      var m := MissionOf(norms[i - 1]);
      if m.Some? && m.value !in o then o + [m.value] else o
  }

  /** The insertion order lists the missions named so far, each once, in order of first mention. */
  lemma {:induction false} MissionOrderNames(norms: seq<Norm>, i: nat)
    requires i <= |norms|
    ensures MissionOrder(norms, i) == Dedup(Somes(MissionTable(norms), i))
  {
    if i > 0 {
      MissionOrderNames(norms, i - 1);
      var mt := MissionTable(norms);
      assert mt[i - 1] == MissionOf(norms[i - 1]);
      if mt[i - 1].Some? {
        var x := mt[i - 1].value;
        assert Somes(mt, i) == Somes(mt, i - 1) + [x];
        DedupSnoc(Somes(mt, i - 1), x);
        assert MissionOrder(norms, i) == AppendNew(MissionOrder(norms, i - 1), x);
      } else {
        assert Somes(mt, i) == Somes(mt, i - 1);
      }
    }
  }

  /** The dict's keys and its insertion order agree. */
  lemma {:induction false} MissionOrderKeys(norms: seq<Norm>, i: nat, m: string)
    requires i <= |norms|
    ensures m in MissionOrder(norms, i) <==> m in NormStage(norms, i)
  {
    if i > 0 {
      MissionOrderKeys(norms, i - 1, m);
    }
  }

  /** A mission no norm has named yet has collected no roles and no norms. */
  lemma {:induction false} MissionUnseen(norms: seq<Norm>, m: string, i: nat)
    requires i <= |norms| && m !in Somes(MissionTable(norms), i)
    ensures Somes(RoleTable(norms, m), i) == [] && Somes(NormIdTable(norms, m), i) == []
  {
    if i > 0 {
      MissionUnseen(norms, m, i - 1);
      assert MissionTable(norms)[i - 1] == MissionOf(norms[i - 1]);
    }
  }

  /** After `i` norms, a mission has an entry iff some norm among them named it. */
  lemma {:induction false} NormStageKeys(norms: seq<Norm>, i: nat, m: string)
    requires i <= |norms|
    ensures m in NormStage(norms, i) <==> m in Somes(MissionTable(norms), i)
  {
    if i > 0 {
      NormStageKeys(norms, i - 1, m);
      assert MissionTable(norms)[i - 1] == MissionOf(norms[i - 1]);
    }
  }

  /** After `i` norms, a mission's entry holds its roles and norms among them. */
  lemma {:induction false} NormStageValue(norms: seq<Norm>, i: nat, m: string)
    requires i <= |norms| && m in NormStage(norms, i)
    ensures NormStage(norms, i)[m] ==
      MissionProfile(m, Dedup(Somes(RoleTable(norms, m), i)), Somes(NormIdTable(norms, m), i), [], map[])
  {
    var t := NormStage(norms, i - 1);
    NormStageKeys(norms, i - 1, m);
    if MissionOf(norms[i - 1]) == Some(m) {
      if m in t {
        NormStageValue(norms, i - 1, m);
      } else {
        MissionUnseen(norms, m, i - 1);
      }
      NormStageHit(norms, i, m);
    } else {
      NormStageValue(norms, i - 1, m);
      NormStageMiss(norms, i, m);
    }
  }

  /** A norm of mission `m` extends the mission's entry, or a fresh one, with its role and id. */
  lemma NormStageHit(norms: seq<Norm>, i: nat, m: string)
    requires 0 < i <= |norms| && MissionOf(norms[i - 1]) == Some(m)
    requires var t := NormStage(norms, i - 1);
      (if m in t then t[m] else NewMission(m)) ==
        MissionProfile(m, Dedup(Somes(RoleTable(norms, m), i - 1)), Somes(NormIdTable(norms, m), i - 1), [], map[])
    ensures m in NormStage(norms, i)
    ensures NormStage(norms, i)[m] ==
      MissionProfile(m, Dedup(Somes(RoleTable(norms, m), i)), Somes(NormIdTable(norms, m), i), [], map[])
  {
    var n := norms[i - 1];
    var roles := RoleTable(norms, m);
    var ids := NormIdTable(norms, m);
    if Present(n.role) {
      assert roles[i - 1] == Some(n.role.value);
      assert Somes(roles, i) == Somes(roles, i - 1) + [n.role.value];
      DedupSnoc(Somes(roles, i - 1), n.role.value);
    } else {
      assert roles[i - 1] == None;
      assert Somes(roles, i) == Somes(roles, i - 1);
    }
    assert ids[i - 1] == Some(n.normId);
    assert Somes(ids, i) == Somes(ids, i - 1) + [n.normId];
  }

  /** A norm of another mission leaves mission `m`'s entry as it was. */
  lemma NormStageMiss(norms: seq<Norm>, i: nat, m: string)
    requires 0 < i <= |norms| && MissionOf(norms[i - 1]) != Some(m) && m in NormStage(norms, i - 1)
    requires NormStage(norms, i - 1)[m] ==
      MissionProfile(m, Dedup(Somes(RoleTable(norms, m), i - 1)), Somes(NormIdTable(norms, m), i - 1), [], map[])
    ensures m in NormStage(norms, i)
    ensures NormStage(norms, i)[m] ==
      MissionProfile(m, Dedup(Somes(RoleTable(norms, m), i)), Somes(NormIdTable(norms, m), i), [], map[])
  {
    var roles := RoleTable(norms, m);
    var ids := NormIdTable(norms, m);
    assert roles[i - 1] == None && ids[i - 1] == None;
    assert Somes(roles, i) == Somes(roles, i - 1) && Somes(ids, i) == Somes(ids, i - 1);
  }

  /** A result's mission is one the norms name. */
  lemma AssignedMissionKnown(norms: seq<Norm>, r: ComplianceResult)
    requires AssignedMission(norms, r).Some?
    ensures AssignedMission(norms, r).value in NormStage(norms, |norms|)
  {
    FindNormFacts(norms, r.normId);
    var n := FindNorm(norms, r.normId).value;
    var i :| IsFirstWithId(norms, r.normId, i) && norms[i] == n;
    assert MissionTable(norms)[i] == Some(AssignedMission(norms, r).value);
    SomesMember(MissionTable(norms), |norms|);
    NormStageKeys(norms, |norms|, AssignedMission(norms, r).value);
  }

  /** The second loop adds no mission. */
  lemma {:induction false} ResultStageKeys(ms: seq<Option<string>>, results: seq<ComplianceResult>,
                                           start: map<string, MissionProfile>, j: nat, m: string)
    requires |ms| == |results| && j <= |results|
    ensures m in ResultStage(ms, results, start, j) <==> m in start
  {
    if j > 0 {
      ResultStageKeys(ms, results, start, j - 1, m);
    }
  }

  /** Mission `m`'s assignments gain result `j - 1` exactly when `ms` records it under `m`. */
  lemma AssignmentSnoc(ms: seq<Option<string>>, results: seq<ComplianceResult>, m: string, j: nat)
    requires |ms| == |results| && 0 < j <= |results|
    ensures var at := AssignmentTable(ms, results, m); var r := results[j - 1];
      ms[j - 1] == Some(m) ==>
        Dedup(Keys(at, j)) == AppendNew(Dedup(Keys(at, j - 1)), r.agentId) &&
        Dict(Somes(at, j)) == Dict(Somes(at, j - 1))[r.agentId := r.status]
    ensures var at := AssignmentTable(ms, results, m);
      ms[j - 1] != Some(m) ==> Keys(at, j) == Keys(at, j - 1) && Somes(at, j) == Somes(at, j - 1)
  {
    var at := AssignmentTable(ms, results, m);
    var r := results[j - 1];
    if ms[j - 1] == Some(m) {
      assert at[j - 1] == Some((r.agentId, r.status));
      assert Keys(at, j) == Keys(at, j - 1) + [r.agentId];
      DedupSnoc(Keys(at, j - 1), r.agentId);
      assert Somes(at, j) == Somes(at, j - 1) + [(r.agentId, r.status)];
      DictSnoc(Somes(at, j - 1), (r.agentId, r.status));
    } else {
      assert at[j - 1] == None;
      assert Keys(at, j) == Keys(at, j - 1);
      assert Somes(at, j) == Somes(at, j - 1);
    }
  }

  /** Recording one result extends a profile's assignments. */
  lemma WithResultAssigns(p: MissionProfile, agents: seq<string>, status: map<string, ComplianceStatus>, r: ComplianceResult)
    ensures WithResult(WithAssignments(p, agents, status), r) ==
            WithAssignments(p, AppendNew(agents, r.agentId), status[r.agentId := r.status])
  {
  }

  /** After `j` results, mission `m`'s entry holds its assignments among them. */
  predicate HoldsAssignments(ms: seq<Option<string>>, results: seq<ComplianceResult>,
                             start: map<string, MissionProfile>, j: nat, m: string)
    requires |ms| == |results| && j <= |results| && m in start
  {
    var at := AssignmentTable(ms, results, m);
    var t := ResultStage(ms, results, start, j);
    m in t && t[m] == WithAssignments(start[m], Dedup(Keys(at, j)), Dict(Somes(at, j)))
  }

  /** After `j` results, a mission's entry holds its assignments among them. */
  lemma {:induction false} ResultStageValue(ms: seq<Option<string>>, results: seq<ComplianceResult>,
                                            start: map<string, MissionProfile>, j: nat, m: string)
    requires |ms| == |results| && j <= |results| && m in start
    requires start[m].agentsAssigned == [] && start[m].fulfillmentStatus == map[]
    ensures HoldsAssignments(ms, results, start, j, m)
  {
    if j == 0 {
      NoAssignmentsYet(ms, results, start, m);
    } else {
      ResultStageValue(ms, results, start, j - 1, m);
      ResultStageStepValue(ms, results, start, j, m);
    }
  }

  /** Before any result, a mission's entry is the one the norms built, with nobody assigned. */
  lemma NoAssignmentsYet(ms: seq<Option<string>>, results: seq<ComplianceResult>, start: map<string, MissionProfile>, m: string)
    requires |ms| == |results| && m in start
    requires start[m].agentsAssigned == [] && start[m].fulfillmentStatus == map[]
    ensures HoldsAssignments(ms, results, start, 0, m)
  {
    var at := AssignmentTable(ms, results, m);
    assert Dedup(Keys(at, 0)) == [] && Dict(Somes(at, 0)) == map[];
  }

  /** Result `j - 1` moves mission `m`'s assignments one step on. */
  lemma ResultStageStepValue(ms: seq<Option<string>>, results: seq<ComplianceResult>,
                             start: map<string, MissionProfile>, j: nat, m: string)
    requires |ms| == |results| && 0 < j <= |results| && m in start
    requires HoldsAssignments(ms, results, start, j - 1, m)
    ensures HoldsAssignments(ms, results, start, j, m)
  {
    AssignmentSnoc(ms, results, m, j);
    var at := AssignmentTable(ms, results, m);
    if ms[j - 1] == Some(m) {
      WithResultAssigns(start[m], Dedup(Keys(at, j - 1)), Dict(Somes(at, j - 1)), results[j - 1]);
    }
  }

  /** The first loop of `build_mission_profiles`: the missions the norms name, with their roles and norms. */
  method CollectMissionNorms(norms: seq<Norm>) returns (table: map<string, MissionProfile>, order: seq<string>)
    ensures table == NormStage(norms, |norms|)
    ensures order == MissionNames(norms)
  {
    table := map[];
    order := [];
    for i := 0 to |norms|
      invariant table == NormStage(norms, i)
      invariant order == MissionOrder(norms, i)
    {
      var n := norms[i];
      if Present(n.mission) {
        var m := n.mission.value;
        MissionOrderKeys(norms, i, m);
        if m !in table {
          table := table[m := NewMission(m)];
          order := order + [m];
        }
        var p := table[m];
        var role := n.role;
        if Present(role) && role.value !in p.requiredRoles {
          p := p.(requiredRoles := p.requiredRoles + [role.value]);
        }
        p := p.(associatedNorms := p.associatedNorms + [n.normId]);
        table := table[m := p];
      }
    }
    MissionOrderNames(norms, |norms|);
  }

  /** The second loop of `build_mission_profiles`: each applicable result is recorded under its norm's mission. */
  method RecordMissionResults(norms: seq<Norm>, results: seq<ComplianceResult>, start: map<string, MissionProfile>)
    returns (table: map<string, MissionProfile>)
    requires start == NormStage(norms, |norms|)
    ensures table == ResultStage(AssignedMissions(norms, results), results, start, |results|)
  {
    ghost var ms := AssignedMissions(norms, results);
    table := start;
    for j := 0 to |results|
      invariant table == ResultStage(ms, results, start, j)
    {
      StageKnowsMission(norms, results, start, j);
      table := RecordResult(norms, table, results[j]);
    }
  }

  /** Before result `j` is recorded, its mission (if it has one) is already a key of the table. */
  lemma StageKnowsMission(norms: seq<Norm>, results: seq<ComplianceResult>, start: map<string, MissionProfile>, j: nat)
    requires start == NormStage(norms, |norms|) && j < |results|
    ensures AssignedMissions(norms, results)[j] == AssignedMission(norms, results[j])
    ensures AssignedMission(norms, results[j]).Some? ==>
              AssignedMission(norms, results[j]).value in ResultStage(AssignedMissions(norms, results), results, start, j)
  {
    var r := results[j];
    if AssignedMission(norms, r).Some? {
      AssignedMissionKnown(norms, r);
      ResultStageKeys(AssignedMissions(norms, results), results, start, j, AssignedMission(norms, r).value);
    }
  }

  /**
   * The body of the second loop: an applicable result whose norm has a mission puts its agent
   * into the mission once and records its status there.
   */
  method RecordResult(norms: seq<Norm>, table0: map<string, MissionProfile>, r: ComplianceResult)
    returns (table: map<string, MissionProfile>)
    requires AssignedMission(norms, r).Some? ==> AssignedMission(norms, r).value in table0
    ensures table == RecordStep(table0, AssignedMission(norms, r), r)
  {
    table := table0;
    var mission := AssignedMission(norms, r);
    if mission.Some? {
      var m := mission.value;
      var p := table[m];
      if r.agentId !in p.agentsAssigned {
        p := p.(agentsAssigned := p.agentsAssigned + [r.agentId]);
      }
      p := p.(fulfillmentStatus := p.fulfillmentStatus[r.agentId := r.status]);
      table := table[m := p];
    }
  }

  /** `build_mission_profiles`: the missions in the order the norms first name them. */
  method BuildMissionProfiles(norms: seq<Norm>, results: seq<ComplianceResult>) returns (missions: seq<MissionProfile>)
    ensures missions == MissionProfiles(norms, results)
  {
    var start, order := CollectMissionNorms(norms);
    var table := RecordMissionResults(norms, results, start);
    forall k | 0 <= k < |order|
      ensures order[k] in table && table[order[k]] == MissionProfileOf(norms, results, order[k])
    {
      assert order[k] in Somes(MissionTable(norms), |norms|);
      NormStageKeys(norms, |norms|, order[k]);
      NormStageValue(norms, |norms|, order[k]);
      ResultStageValue(AssignedMissions(norms, results), results, start, |results|, order[k]);
    }
    missions := seq(|order|, k requires 0 <= k < |order| && order[k] in table => table[order[k]]);
  }

  /** A result is recorded under mission `m` iff it is applicable and the first norm with its id belongs to `m`. */
  lemma AssignedMissionFacts(norms: seq<Norm>, r: ComplianceResult, m: string)
    ensures AssignedMission(norms, r) == Some(m) <==>
      r.status != ComplianceChecker.NotApplicable &&
      exists i :: IsFirstWithId(norms, r.normId, i) && MissionOf(norms[i]) == Some(m)
  {
    if exists i :: IsFirstWithId(norms, r.normId, i) && MissionOf(norms[i]) == Some(m) {
      var i :| IsFirstWithId(norms, r.normId, i) && MissionOf(norms[i]) == Some(m);
      FindNormFirst(norms, r.normId, i);
    }
    if AssignedMission(norms, r) == Some(m) {
      FindNormFacts(norms, r.normId);
      var i :| IsFirstWithId(norms, r.normId, i) && norms[i] == FindNorm(norms, r.normId).value;
      assert MissionOf(norms[i]) == Some(m);
    }
  }

  /** The missions are distinct, and they are exactly the truthy missions of the norms. */
  lemma MissionNamesFacts(norms: seq<Norm>)
    ensures NoDup(MissionNames(norms))
    ensures forall m :: m in MissionNames(norms) <==> exists i :: 0 <= i < |norms| && MissionOf(norms[i]) == Some(m)
  {
    var t := MissionTable(norms);
    SomesMember(t, |norms|);
    forall m
      ensures m in MissionNames(norms) <==> exists i :: 0 <= i < |norms| && MissionOf(norms[i]) == Some(m)
    {
      if exists i :: 0 <= i < |norms| && MissionOf(norms[i]) == Some(m) {
        var i :| 0 <= i < |norms| && MissionOf(norms[i]) == Some(m);
        assert t[i] == Some(m);
      }
    }
  }

  /**
   * A mission's profile: its roles are the distinct truthy roles of its norms, and its norms
   * are the ids of the norms that name it.
   */
  lemma MissionProfileFacts(norms: seq<Norm>, results: seq<ComplianceResult>, m: string)
    ensures var p := MissionProfileOf(norms, results, m);
      && p.missionName == m
      && NoDup(p.requiredRoles)
      && (forall role :: role in p.requiredRoles <==>
            exists i :: 0 <= i < |norms| && MissionOf(norms[i]) == Some(m) && Present(norms[i].role) && norms[i].role == Some(role))
      && (forall normId :: normId in p.associatedNorms <==>
            exists i :: 0 <= i < |norms| && MissionOf(norms[i]) == Some(m) && norms[i].normId == normId)
  {
    var roles := RoleTable(norms, m);
    var ids := NormIdTable(norms, m);
    SomesMember(roles, |norms|);
    SomesMember(ids, |norms|);
    forall role
      ensures role in Somes(roles, |norms|) <==>
        exists i :: 0 <= i < |norms| && MissionOf(norms[i]) == Some(m) && Present(norms[i].role) && norms[i].role == Some(role)
    {
      if exists i :: 0 <= i < |norms| && MissionOf(norms[i]) == Some(m) && Present(norms[i].role) && norms[i].role == Some(role) {
        var i :| 0 <= i < |norms| && MissionOf(norms[i]) == Some(m) && Present(norms[i].role) && norms[i].role == Some(role);
        assert roles[i] == Some(role);
      }
    }
    forall normId
      ensures normId in Somes(ids, |norms|) <==> exists i :: 0 <= i < |norms| && MissionOf(norms[i]) == Some(m) && norms[i].normId == normId
    {
      if exists i :: 0 <= i < |norms| && MissionOf(norms[i]) == Some(m) && norms[i].normId == normId {
        var i :| 0 <= i < |norms| && MissionOf(norms[i]) == Some(m) && norms[i].normId == normId;
        assert ids[i] == Some(normId);
      }
    }
  }

  /** A mission's agents are the distinct agents of the results recorded under it. */
  lemma MissionAgentsFacts(norms: seq<Norm>, results: seq<ComplianceResult>, m: string)
    ensures var p := MissionProfileOf(norms, results, m);
      && NoDup(p.agentsAssigned)
      && (forall a :: a in p.agentsAssigned <==>
            exists j :: 0 <= j < |results| && AssignedMission(norms, results[j]) == Some(m) && results[j].agentId == a)
  {
    var ms := AssignedMissions(norms, results);
    var at := AssignmentTable(ms, results, m);
    KeysMember(at, |results|);
    forall a
      ensures a in Keys(at, |results|) <==>
        exists j :: 0 <= j < |results| && AssignedMission(norms, results[j]) == Some(m) && results[j].agentId == a
    {
      if a in Keys(at, |results|) {
        var j :| 0 <= j < |results| && at[j].Some? && at[j].value.0 == a;
        assert ms[j] == AssignedMission(norms, results[j]);
      }
      if exists j :: 0 <= j < |results| && AssignedMission(norms, results[j]) == Some(m) && results[j].agentId == a {
        var j :| 0 <= j < |results| && AssignedMission(norms, results[j]) == Some(m) && results[j].agentId == a;
        assert ms[j] == AssignedMission(norms, results[j]);
        assert at[j].Some? && at[j].value.0 == a;
      }
    }
  }

  /**
   * A mission's fulfillment status has one entry per assigned agent, never `not_applicable`:
   * the status of the last result recorded under the mission for that agent.
   */
  lemma FulfillmentFacts(norms: seq<Norm>, results: seq<ComplianceResult>, m: string)
    ensures var p := MissionProfileOf(norms, results, m);
      forall a :: a in p.fulfillmentStatus <==> a in p.agentsAssigned
    ensures var p := MissionProfileOf(norms, results, m);
      forall j :: 0 <= j < |results| && AssignedMission(norms, results[j]) == Some(m) &&
                  (forall k :: j < k < |results| ==> !(AssignedMission(norms, results[k]) == Some(m) && results[k].agentId == results[j].agentId)) ==>
        results[j].agentId in p.fulfillmentStatus && p.fulfillmentStatus[results[j].agentId] == results[j].status
    ensures var p := MissionProfileOf(norms, results, m);
      forall a :: a in p.fulfillmentStatus ==> p.fulfillmentStatus[a] != ComplianceChecker.NotApplicable
  {
    var ms := AssignedMissions(norms, results);
    var at := AssignmentTable(ms, results, m);
    var status := Dict(Somes(at, |results|));
    assert MissionProfileOf(norms, results, m).fulfillmentStatus == status;
    DictKeys(at, |results|);
    DictValues(at, |results|);
    forall j | 0 <= j < |results| && AssignedMission(norms, results[j]) == Some(m) &&
               (forall k :: j < k < |results| ==> !(AssignedMission(norms, results[k]) == Some(m) && results[k].agentId == results[j].agentId))
      ensures results[j].agentId in status && status[results[j].agentId] == results[j].status
    {
      assert ms[j] == AssignedMission(norms, results[j]);
      forall k | j < k < |results|
        ensures !(at[k].Some? && at[k].value.0 == at[j].value.0)
      {
        assert ms[k] == AssignedMission(norms, results[k]);
      }
      DictLastWrite(at, |results|, j);
    }
    forall a | a in status
      ensures status[a] != ComplianceChecker.NotApplicable
    {
      var j :| 0 <= j < |results| && at[j] == Some((a, status[a]));
      assert ms[j] == AssignedMission(norms, results[j]);
    }
  }

  // ---------------------------------------------------------------------------------------
  // Execution timeline
  // ---------------------------------------------------------------------------------------

  datatype TimelineEvent = TimelineEvent(
    entryId: string,
    agentId: string,
    action: string,
    temporalMarker: Option<Marker>,
    metadata: map<string, Json>)

  /**
   * `entry.get('sequence_number') or entry.get('timestamp')`: a sequence number of 0 is
   * falsy, so it falls through to the timestamp, which a sequence-ordered log usually lacks.
   */
  function MarkerAsWritten(e: LogEntry): Option<Marker> {
    if e.sequenceNumber.Some? && e.sequenceNumber.value != 0 then Some(AtSequence(e.sequenceNumber.value))
    else if e.timestamp.Some? then Some(AtTime(e.timestamp.value))
    else None
  }

  /** The marker with the sequence number checked for presence rather than truthiness. */
  function MarkerIntended(e: LogEntry): (r: Option<Marker>)
    ensures r.None? <==> e.sequenceNumber.None? && e.timestamp.None?
    ensures e.sequenceNumber.Some? ==> r == Some(AtSequence(e.sequenceNumber.value))
    ensures e.sequenceNumber.None? && e.timestamp.Some? ==> r == Some(AtTime(e.timestamp.value))
  {
    if e.sequenceNumber.Some? then Some(AtSequence(e.sequenceNumber.value))
    else if e.timestamp.Some? then Some(AtTime(e.timestamp.value))
    else None
  }

  /** The timeline record of one entry, as the profiler writes it. */
  function EventAsWritten(e: LogEntry): TimelineEvent {
    TimelineEvent(e.entryId, e.agentId, e.action, MarkerAsWritten(e), e.metadata)
  }

  function EventIntended(e: LogEntry): TimelineEvent {
    TimelineEvent(e.entryId, e.agentId, e.action, MarkerIntended(e), e.metadata)
  }

  /** `sorted(log_entries, key=...)` on the strategy's marker. */
  function TimelineOrder(strategy: TemporalStrategy, entries: seq<LogEntry>): (s: seq<LogEntry>)
    ensures multiset(s) == multiset(entries)
    ensures SortedBy(s, StrategyKey(strategy))
  {
    SortByCorrect(entries, StrategyKey(strategy));
    SortBy(entries, StrategyKey(strategy))
  }

  function Timeline(strategy: TemporalStrategy, entries: seq<LogEntry>): seq<TimelineEvent> {
    Map(EventAsWritten, TimelineOrder(strategy, entries))
  }

  function TimelineIntended(strategy: TemporalStrategy, entries: seq<LogEntry>): seq<TimelineEvent> {
    Map(EventIntended, TimelineOrder(strategy, entries))
  }

  /**
   * `build_execution_timeline`. Python compares the sort keys of any two entries, and a
   * missing marker (`None`) cannot be compared, so a log of two or more entries must carry
   * the strategy's marker on every entry, as a constructed `ParsedLogs` does.
   */
  method BuildExecutionTimeline(strategy: TemporalStrategy, entries: seq<LogEntry>) returns (timeline: seq<TimelineEvent>)
    requires |entries| <= 1 || ConsistentWith(strategy, entries)
    ensures timeline == Timeline(strategy, entries)
  {
    var sorted := TimelineOrder(strategy, entries);
    timeline := [];
    for i := 0 to |sorted|
      invariant timeline == Map(EventAsWritten, sorted[..i])
    {
      var entry := sorted[i];
      assert sorted[..i + 1] == sorted[..i] + [entry];
      MapAppend(EventAsWritten, sorted[..i], [entry]);
      timeline := timeline + [EventAsWritten(entry)];
    }
    assert sorted[..|sorted|] == sorted;
  }

  /** The timeline has one record per log entry: the records of the entries, reordered. */
  lemma TimelinePermutes(strategy: TemporalStrategy, entries: seq<LogEntry>)
    ensures |Timeline(strategy, entries)| == |entries|
    ensures multiset(Timeline(strategy, entries)) == multiset(Map(EventAsWritten, entries))
    ensures forall i :: 0 <= i < |Timeline(strategy, entries)| ==>
      Timeline(strategy, entries)[i] == EventAsWritten(TimelineOrder(strategy, entries)[i])
  {
    var s := TimelineOrder(strategy, entries);
    MapPermutes(EventAsWritten, s, entries);
    assert |s| == |multiset(s)| == |multiset(entries)| == |entries|;
  }

  /** An entry with a sequence number of 0 loses its marker in the timeline as written. */
  lemma TimelineDropsSequenceZero()
    ensures var e := LogEntry("entry_0", "agent", "start", None, Some(0), map[]);
      && ConsistentWith(Sequence, [e])
      && Timeline(Sequence, [e])[0].temporalMarker.None?
      && TimelineIntended(Sequence, [e])[0].temporalMarker == Some(AtSequence(0))
  {
    var e := LogEntry("entry_0", "agent", "start", None, Some(0), map[]);
    assert HasMarkerFor(Sequence, e);
    var s := TimelineOrder(Sequence, [e]);
    assert |s| == |multiset(s)| == 1;
    assert s[0] in multiset([e]);
  }

  /**
   * With the intended markers, every record of a consistent log carries a marker; under
   * the sequence strategy it is the record's sequence number, and the markers never decrease.
   */
  lemma TimelineIntendedMarkers(strategy: TemporalStrategy, entries: seq<LogEntry>)
    requires ConsistentWith(strategy, entries)
    ensures forall i :: 0 <= i < |TimelineIntended(strategy, entries)| ==> TimelineIntended(strategy, entries)[i].temporalMarker.Some?
    ensures strategy == Sequence ==>
      forall i :: 0 <= i < |TimelineIntended(strategy, entries)| ==> TimelineIntended(strategy, entries)[i].temporalMarker.value.AtSequence?
    ensures strategy == Sequence ==>
      forall i, j :: 0 <= i < j < |TimelineIntended(strategy, entries)| ==>
        TimelineIntended(strategy, entries)[i].temporalMarker.value.position <= TimelineIntended(strategy, entries)[j].temporalMarker.value.position
  {
    var s := TimelineOrder(strategy, entries);
    var t := TimelineIntended(strategy, entries);
    SortedKeepsMarkers(strategy, entries, s);
    forall i | 0 <= i < |t|
      ensures t[i].temporalMarker.Some?
      ensures strategy == Sequence ==> t[i].temporalMarker == Some(AtSequence(SequenceKey(s[i])))
    {
      assert t[i] == EventIntended(s[i]);
      assert HasMarkerFor(strategy, s[i]);
    }
    if strategy == Sequence {
      forall i, j | 0 <= i < j < |t|
        ensures t[i].temporalMarker.value.position <= t[j].temporalMarker.value.position
      {
        assert SequenceKey(s[i]) <= SequenceKey(s[j]);
      }
    }
  }

  /** The two timelines differ only where a sequence number is 0. */
  lemma TimelineAgrees(strategy: TemporalStrategy, entries: seq<LogEntry>)
    requires forall i :: 0 <= i < |entries| ==> entries[i].sequenceNumber != Some(0)
    ensures Timeline(strategy, entries) == TimelineIntended(strategy, entries)
  {
    var s := TimelineOrder(strategy, entries);
    forall i | 0 <= i < |s|
      ensures EventAsWritten(s[i]) == EventIntended(s[i])
    {
      assert s[i] in multiset(entries);
    }
  }

  // ---------------------------------------------------------------------------------------
  // Interactions
  // ---------------------------------------------------------------------------------------

  datatype InteractionType = Registration | Delivery | Request | Coordination

  datatype InteractionProfile = InteractionProfile(
    sourceAgent: string,
    targetAgent: string,
    interactionType: InteractionType,
    frequency: nat,
    evidence: seq<string>)

  /** The number of evidence entry ids an interaction keeps. */
  const EvidenceSize: nat := 5

  /** The number of leading characters of `s` that satisfy `p`. */
  function RunLength(s: string, p: char -> bool): (n: nat)
    ensures n <= |s|
    ensures forall i :: 0 <= i < n ==> p(s[i])
    ensures n < |s| ==> !p(s[n])
  {
    if |s| == 0 || !p(s[0]) then 0 else 1 + RunLength(s[1..], p)
  }

  /** What `Registered\s+(\w+)` captures in a match that starts at `s[0]`, if one does. */
  function RegisteredAt(s: string): (r: Option<string>)
    ensures r.Some? ==> |r.value| > 0 && forall c :: c in r.value ==> IsWordChar(c)
  {
    if !IsPrefix("Registered", s) then None
    else
      var rest := s[10..];
      var spaces := RunLength(rest, IsSpace);
      var word := rest[spaces..][..RunLength(rest[spaces..], IsWordChar)];
      if spaces == 0 || |word| == 0 then None else Some(word)
  }

  /** `re.search(r'Registered\s+(\w+)', s)`: the capture of the leftmost match. */
  function SearchRegistered(s: string): (r: Option<string>)
    ensures r.Some? ==> |r.value| > 0 && forall c :: c in r.value ==> IsWordChar(c)
    decreases |s|
  {
    if RegisteredAt(s).Some? then RegisteredAt(s)
    else if |s| == 0 then None
    else SearchRegistered(s[1..])
  }

  /** The metadata keys that may name the other agent, in the order they are tried. */
  const TargetKeys: seq<string> := ["target", "to", "agent", "assigned_to"]

  /** `_extract_target_agent`: the agent a `Registered <agent>` action names, else the first target key present (`JNull` for `None`). */
  function ExtractTargetAgent(action: string, metadata: map<string, Json>): Json {
    var registered := SearchRegistered(action);
    if registered.Some? then JStr(registered.value) else Lookup(metadata, TargetKeys)
  }

  /** The interaction type, by the first keyword family that occurs in the lowercased action. */
  function ClassifyInteraction(action: string): InteractionType {
    var a := Lower(action);
    if Contains(a, "register") then Registration
    else if Contains(a, "send") || Contains(a, "deliver") then Delivery
    else if Contains(a, "request") || Contains(a, "ask") then Request
    else Coordination
  }

  function EntryTarget(e: LogEntry): Json {
    ExtractTargetAgent(e.action, e.metadata)
  }

  /**
   * The interaction key and evidence id an entry contributes, when its target is truthy.
   * A target that is not a string cannot become an `InteractionProfile`'s `target_agent`,
   * so such an entry contributes nothing here and makes `DetectInteractions` fail instead.
   */
  function InteractionWrite(e: LogEntry): Option<((string, string, InteractionType), string)> {
    var target := EntryTarget(e);
    if Truthy(target) && target.JStr? then Some(((e.agentId, target.s, ClassifyInteraction(e.action)), e.entryId))
    else None
  }

  /** Every truthy target is a string: pydantic rejects any other `target_agent`, and Python cannot hash a list or dict key. */
  predicate TargetsAreStrings(entries: seq<LogEntry>) {
    forall i :: 0 <= i < |entries| ==> Truthy(EntryTarget(entries[i])) ==> EntryTarget(entries[i]).JStr?
  }

  function InteractionTable(entries: seq<LogEntry>): (t: seq<Option<((string, string, InteractionType), string)>>)
    ensures |t| == |entries|
  {
    seq(|entries|, i requires 0 <= i < |entries| => InteractionWrite(entries[i]))
  }

  /** One item of the `interactions` dict, converted; its count is the length of its evidence list. */
  function ProfileOfGroup(g: ((string, string, InteractionType), seq<string>)): InteractionProfile {
    var (key, ids) := g;
    InteractionProfile(key.0, key.1, key.2, |ids|, ids[..if |ids| < EvidenceSize then |ids| else EvidenceSize])
  }

  function Interactions(entries: seq<LogEntry>): seq<InteractionProfile> {
    Map(ProfileOfGroup, Grouped(InteractionTable(entries)))
  }

  const TargetNotString := "target_agent is not a valid string"

  /**
   * `detect_interactions`: the profiles, or the error an entry with a truthy target that is not
   * a string raises (an unhashable key for a list or a mapping, a rejected `target_agent` otherwise).
   */
  method DetectInteractions(entries: seq<LogEntry>) returns (r: Result<seq<InteractionProfile>>)
    ensures r.Err? <==> !TargetsAreStrings(entries)
    ensures r.Err? ==> r.error == TargetNotString
    ensures r.Ok? ==> r.value == Interactions(entries)
  {
    for i := 0 to |entries|
      invariant forall j :: 0 <= j < i ==> Truthy(EntryTarget(entries[j])) ==> EntryTarget(entries[j]).JStr?
    {
      var target := EntryTarget(entries[i]);
      if Truthy(target) && !target.JStr? {
        return Err(TargetNotString);
      }
    }
    var interactions;
    var writes := InteractionTable(entries);
    var groups := GroupBy(writes);
    interactions := [];
    for k := 0 to |groups|
      invariant interactions == Map(ProfileOfGroup, groups[..k])
    {
      assert groups[..k + 1] == groups[..k] + [groups[k]];
      MapAppend(ProfileOfGroup, groups[..k], [groups[k]]);
      interactions := interactions + [ProfileOfGroup(groups[k])];
    }
    assert groups[..|groups|] == groups;
    r := Ok(interactions);
  }

  /** The keyword families are tried in priority order. */
  lemma ClassifyPriority(action: string)
    ensures var a := Lower(action);
      && (ClassifyInteraction(action) == Registration <==> Contains(a, "register"))
      && (ClassifyInteraction(action) == Delivery <==> !Contains(a, "register") && (Contains(a, "send") || Contains(a, "deliver")))
      && (ClassifyInteraction(action) == Request <==>
            !Contains(a, "register") && !Contains(a, "send") && !Contains(a, "deliver") &&
            (Contains(a, "request") || Contains(a, "ask")))
      && (ClassifyInteraction(action) == Coordination <==>
            !Contains(a, "register") && !Contains(a, "send") && !Contains(a, "deliver") &&
            !Contains(a, "request") && !Contains(a, "ask"))
  {
  }

  /** An action with a `Registered <agent>` match contains "Registered". */
  lemma {:induction false} SearchRegisteredContains(s: string)
    requires SearchRegistered(s).Some?
    ensures Contains(s, "Registered")
    decreases |s|
  {
    if RegisteredAt(s).None? {
      SearchRegisteredContains(s[1..]);
    }
  }

  /** Lowercasing maps an occurrence of `p` to an occurrence of its lowercase. */
  lemma {:induction false} LowerContains(s: string, p: string)
    requires Contains(s, p)
    ensures Contains(Lower(s), Lower(p))
    decreases |s|
  {
    if IsPrefix(p, s) {
      assert Lower(s)[..|p|] == Lower(p);
    } else {
      LowerContains(s[1..], p);
      assert Lower(s)[1..] == Lower(s[1..]);
    }
  }

  /** A substring of an occurrence also occurs. */
  lemma {:induction false} ContainsPrefixOf(s: string, p: string, q: string)
    requires Contains(s, p) && IsPrefix(q, p)
    ensures Contains(s, q)
    decreases |s|
  {
    if !IsPrefix(p, s) {
      ContainsPrefixOf(s[1..], p, q);
    } else {
      assert s[..|q|] == p[..|q|];
    }
  }

  /** An action that names a registered agent is classified as a registration. */
  lemma RegisteredIsRegistration(action: string)
    requires SearchRegistered(action).Some?
    ensures ClassifyInteraction(action) == Registration
  {
    SearchRegisteredContains(action);
    LowerContains(action, "Registered");
    assert Lower("Registered") == "registered";
    ContainsPrefixOf(Lower(action), "registered", "register");
  }

  /** `sum(p.frequency for p in interactions)`. */
  function SumFrequencies(ps: seq<InteractionProfile>): nat {
    if |ps| == 0 then 0 else SumFrequencies(ps[..|ps| - 1]) + ps[|ps| - 1].frequency
  }

  lemma {:induction false} SumFrequenciesOfGroups(gs: seq<((string, string, InteractionType), seq<string>)>)
    ensures SumFrequencies(Map(ProfileOfGroup, gs)) == SumSizes(gs)
  {
    if |gs| > 0 {
      var p := gs[..|gs| - 1];
      SumFrequenciesOfGroups(p);
      assert Map(ProfileOfGroup, gs)[..|gs| - 1] == Map(ProfileOfGroup, p);
    }
  }

  /**
   * Each interaction counts the entries with its source, target and type, and keeps the
   * ids of at most five of them, each the id of such an entry.
   */
  lemma InteractionFacts(entries: seq<LogEntry>, j: nat)
    requires j < |Interactions(entries)|
    ensures var p := Interactions(entries)[j];
      var t := InteractionTable(entries);
      && p.frequency == Count(Keys(t, |t|), (p.sourceAgent, p.targetAgent, p.interactionType)) > 0
      && |p.evidence| == (if p.frequency < EvidenceSize then p.frequency else EvidenceSize)
      && forall id :: id in p.evidence ==>
           exists i :: 0 <= i < |entries| && entries[i].entryId == id && entries[i].agentId == p.sourceAgent &&
                       EntryTarget(entries[i]) == JStr(p.targetAgent) && ClassifyInteraction(entries[i].action) == p.interactionType
  {
    var t := InteractionTable(entries);
    var g := Grouped(t)[j];
    var p := Interactions(entries)[j];
    assert p == ProfileOfGroup(g);
    GroupedMembers(t, j);
    forall id | id in p.evidence
      ensures exists i :: 0 <= i < |entries| && entries[i].entryId == id && entries[i].agentId == p.sourceAgent &&
                          EntryTarget(entries[i]) == JStr(p.targetAgent) && ClassifyInteraction(entries[i].action) == p.interactionType
    {
      assert id in g.1;
      var i :| 0 <= i < |t| && t[i] == Some((g.0, id));
      assert InteractionWrite(entries[i]) == Some((g.0, id));
    }
  }

  /** No two interactions share a source, target and type. */
  lemma InteractionKeysDistinct(entries: seq<LogEntry>)
    ensures var ps := Interactions(entries);
      forall i, j :: 0 <= i < j < |ps| ==>
        (ps[i].sourceAgent, ps[i].targetAgent, ps[i].interactionType) != (ps[j].sourceAgent, ps[j].targetAgent, ps[j].interactionType)
  {
    var t := InteractionTable(entries);
    var ps := Interactions(entries);
    GroupedKeys(t);
    forall i, j | 0 <= i < j < |ps|
      ensures (ps[i].sourceAgent, ps[i].targetAgent, ps[i].interactionType) != (ps[j].sourceAgent, ps[j].targetAgent, ps[j].interactionType)
    {
      assert ps[i] == ProfileOfGroup(Grouped(t)[i]) && ps[j] == ProfileOfGroup(Grouped(t)[j]);
    }
  }

  /** Every entry with a truthy string target is counted under its own source, target and type. */
  lemma InteractionCoverage(entries: seq<LogEntry>, i: nat)
    requires i < |entries| && Truthy(EntryTarget(entries[i])) && EntryTarget(entries[i]).JStr?
    ensures var ps := Interactions(entries);
      exists j :: 0 <= j < |ps| && ps[j].sourceAgent == entries[i].agentId && ps[j].targetAgent == EntryTarget(entries[i]).s &&
                  ps[j].interactionType == ClassifyInteraction(entries[i].action)
  {
    var t := InteractionTable(entries);
    var e := entries[i];
    var key := (e.agentId, EntryTarget(e).s, ClassifyInteraction(e.action));
    assert t[i] == Some((key, e.entryId));
    KeysMember(t, |t|);
    assert t[i].Some? && t[i].value.0 == key;
    assert key in Keys(t, |t|);
    GroupedKeys(t);
    var j :| 0 <= j < |Grouped(t)| && Grouped(t)[j].0 == key;
    assert Interactions(entries)[j] == ProfileOfGroup(Grouped(t)[j]);
  }

  /** The frequencies add up to the number of entries that contribute an interaction. */
  lemma InteractionTotal(entries: seq<LogEntry>)
    ensures SumFrequencies(Interactions(entries)) == |Keys(InteractionTable(entries), |entries|)|
  {
    SumFrequenciesOfGroups(Grouped(InteractionTable(entries)));
    GroupedTotal(InteractionTable(entries));
  }

  // ---------------------------------------------------------------------------------------
  // The system profile
  // ---------------------------------------------------------------------------------------

  /** What the profiler is constructed with: the loaded artifacts. */
  datatype ProfilerInputs = ProfilerInputs(
    norms: seq<Norm>,
    entries: seq<LogEntry>,
    strategy: TemporalStrategy,
    roleMapping: map<string, NormMatcher.RoleMapping>,
    results: seq<ComplianceResult>)

  datatype SystemProfile = SystemProfile(
    totalAgents: nat,
    agents: seq<AgentProfile>,
    totalRoles: nat,
    roles: seq<(string, seq<string>)>,
    totalNorms: nat,
    normsByType: seq<(NormType, nat)>,
    normsByRole: seq<(string, seq<string>)>,
    totalMissions: nat,
    missions: seq<MissionProfile>,
    totalEvents: nat,
    temporalStrategy: TemporalStrategy,
    executionTimeline: seq<TimelineEvent>,
    complianceSummary: seq<(ComplianceStatus, nat)>,
    interactions: seq<InteractionProfile>)

  /** An agent profile with a truthy inferred role is listed under that role. */
  function RoleWrite(p: AgentProfile): Option<(string, string)> {
    if Present(p.inferredRole) then Some((p.inferredRole.value, p.agentId)) else None
  }

  /** A norm with a truthy role is listed under that role. */
  function NormRoleWrite(n: Norm): Option<(string, string)> {
    if Present(n.role) then Some((n.role.value, n.normId)) else None
  }

  /** `norms_by_role`: the ids of the norms with a truthy role, grouped by role. */
  function NormsByRole(norms: seq<Norm>): seq<(string, seq<string>)> {
    Grouped(Map(NormRoleWrite, norms))
  }

  function NormTypeOfNorm(n: Norm): NormType {
    n.normType
  }

  function ResultStatus(r: ComplianceResult): ComplianceStatus {
    r.status
  }

  /** The profile `build_profile` assembles, with `agents` the enumeration of the log's agents. */
  function Profile(inputs: ProfilerInputs, agents: seq<string>): SystemProfile {
    var agentProfiles := AgentProfiles(inputs.entries, inputs.roleMapping, inputs.results, agents);
    var roles := Grouped(Map(RoleWrite, agentProfiles));
    var missions := MissionProfiles(inputs.norms, inputs.results);
    SystemProfile(|agentProfiles|, agentProfiles, |roles|, roles,
                  |inputs.norms|, Counter(Map(NormTypeOfNorm, inputs.norms)), NormsByRole(inputs.norms),
                  |missions|, missions, |inputs.entries|, inputs.strategy, Timeline(inputs.strategy, inputs.entries),
                  Counter(Map(ResultStatus, inputs.results)), Interactions(inputs.entries))
  }

  /** `build_profile`: the profile, or the error `detect_interactions` raises. */
  method BuildProfile(inputs: ProfilerInputs, agents: seq<string>) returns (r: Result<SystemProfile>)
    requires EnumeratesAgents(agents, inputs.entries)
    requires |inputs.entries| <= 1 || ConsistentWith(inputs.strategy, inputs.entries)
    ensures r.Err? <==> !TargetsAreStrings(inputs.entries)
    ensures r.Ok? ==> r.value == Profile(inputs, agents)
  {
    var agentProfiles := BuildAgentProfiles(inputs.entries, inputs.roleMapping, inputs.results, agents);
    var roles := GroupBy(Map(RoleWrite, agentProfiles));
    var normsByType := Counter(Map(NormTypeOfNorm, inputs.norms));
    var normsByRole := GroupBy(Map(NormRoleWrite, inputs.norms));
    var missions := BuildMissionProfiles(inputs.norms, inputs.results);
    var timeline := BuildExecutionTimeline(inputs.strategy, inputs.entries);
    var interactions := DetectInteractions(inputs.entries);
    if interactions.Err? {
      return Err(interactions.error);
    }
    var complianceSummary := Counter(Map(ResultStatus, inputs.results));
    r := Ok(SystemProfile(|agentProfiles|, agentProfiles, |roles|, roles,
                          |inputs.norms|, normsByType, normsByRole,
                          |missions|, missions, |inputs.entries|, inputs.strategy, timeline,
                          complianceSummary, interactions.value));
  }

  /** The totals are the sizes of what they total; the histograms add up to the norms and the results. */
  lemma ProfileTotals(inputs: ProfilerInputs, agents: seq<string>)
    requires EnumeratesAgents(agents, inputs.entries)
    ensures var p := Profile(inputs, agents);
      && p.totalAgents == |p.agents| == |AgentIdSet(inputs.entries)|
      && p.totalRoles == |p.roles|
      && p.totalNorms == |inputs.norms| == Total(p.normsByType)
      && p.totalMissions == |p.missions| == |MissionNames(inputs.norms)|
      && p.totalEvents == |p.executionTimeline| == |inputs.entries|
      && Total(p.complianceSummary) == |inputs.results|
      && (forall i :: 0 <= i < |p.complianceSummary| ==>
            p.complianceSummary[i].1 == Count(Map(ResultStatus, inputs.results), p.complianceSummary[i].0) > 0)
  {
    AgentProfilesFacts(inputs.entries, inputs.roleMapping, inputs.results, agents);
    CounterFacts(Map(NormTypeOfNorm, inputs.norms));
    CounterFacts(Map(ResultStatus, inputs.results));
    TimelinePermutes(inputs.strategy, inputs.entries);
  }

  /** Agent `i` is listed under its truthy inferred role. */
  function AgentRoleTable(roleMapping: map<string, NormMatcher.RoleMapping>, agents: seq<string>): (t: seq<Option<(string, string)>>)
    ensures |t| == |agents|
  {
    seq(|agents|, i requires 0 <= i < |agents| =>
      if Present(RoleOf(roleMapping, agents[i])) then Some((RoleOf(roleMapping, agents[i]).value, agents[i])) else None)
  }

  /** The roles of the profile group the agents by their truthy inferred role. */
  lemma ProfileRoles(inputs: ProfilerInputs, agents: seq<string>)
    ensures Profile(inputs, agents).roles == Roles(inputs.roleMapping, agents)
  {
    var ps := AgentProfiles(inputs.entries, inputs.roleMapping, inputs.results, agents);
    forall i | 0 <= i < |agents|
      ensures RoleWrite(ps[i]) == AgentRoleTable(inputs.roleMapping, agents)[i]
    {
      assert ps[i] == AgentProfileOf(inputs.entries, inputs.roleMapping, inputs.results, agents[i]);
    }
    assert Map(RoleWrite, ps) == AgentRoleTable(inputs.roleMapping, agents);
  }

  /** `roles`: the agents with a truthy inferred role, grouped by that role. */
  function Roles(roleMapping: map<string, NormMatcher.RoleMapping>, agents: seq<string>): seq<(string, seq<string>)> {
    Grouped(AgentRoleTable(roleMapping, agents))
  }

  /** Agent `a` is listed under role `j` exactly when the role is `a`'s truthy inferred role. */
  lemma RoleMembers(roleMapping: map<string, NormMatcher.RoleMapping>, agents: seq<string>, j: nat, a: string)
    requires j < |Roles(roleMapping, agents)|
    ensures a in Roles(roleMapping, agents)[j].1 <==>
      a in agents && RoleOf(roleMapping, a) == Some(Roles(roleMapping, agents)[j].0) && Roles(roleMapping, agents)[j].0 != ""
  {
    var w := AgentRoleTable(roleMapping, agents);
    var role := Grouped(w)[j];
    GroupedMembers(w, j);
    if a in role.1 {
      var i :| 0 <= i < |w| && w[i] == Some((role.0, a));
      assert agents[i] == a && Present(RoleOf(roleMapping, a));
    }
    if a in agents && RoleOf(roleMapping, a) == Some(role.0) && role.0 != "" {
      var i :| 0 <= i < |agents| && agents[i] == a;
      assert w[i] == Some((role.0, a));
    }
  }

  /** No role is listed twice, and every agent with a truthy inferred role is listed under it. */
  lemma RolesFacts(roleMapping: map<string, NormMatcher.RoleMapping>, agents: seq<string>)
    ensures var roles := Roles(roleMapping, agents);
      && (forall i, j :: 0 <= i < j < |roles| ==> roles[i].0 != roles[j].0)
      && (forall a :: a in agents && Present(RoleOf(roleMapping, a)) ==>
            exists j :: 0 <= j < |roles| && roles[j].0 == RoleOf(roleMapping, a).value && a in roles[j].1)
  {
    var w := AgentRoleTable(roleMapping, agents);
    var roles := Roles(roleMapping, agents);
    GroupedKeys(w);
    forall a | a in agents && Present(RoleOf(roleMapping, a))
      ensures exists j :: 0 <= j < |roles| && roles[j].0 == RoleOf(roleMapping, a).value && a in roles[j].1
    {
      var i :| 0 <= i < |agents| && agents[i] == a;
      GroupedCovers(w, i);
    }
  }

  /** Each role of `norms_by_role` lists the ids of the norms with that role, and every truthy role of a norm is listed once. */
  lemma NormsByRoleFacts(norms: seq<Norm>)
    ensures var byRole := NormsByRole(norms);
      && (forall i, j :: 0 <= i < j < |byRole| ==> byRole[i].0 != byRole[j].0)
      && (forall j, normId :: 0 <= j < |byRole| ==>
            (normId in byRole[j].1 <==>
               exists i :: 0 <= i < |norms| && norms[i].normId == normId && norms[i].role == Some(byRole[j].0) && byRole[j].0 != ""))
      && (forall i :: 0 <= i < |norms| && Present(norms[i].role) ==>
            exists j :: 0 <= j < |byRole| && byRole[j].0 == norms[i].role.value && norms[i].normId in byRole[j].1)
  {
    var w := Map(NormRoleWrite, norms);
    var byRole := Grouped(w);
    GroupedKeys(w);
    forall j, normId | 0 <= j < |byRole|
      ensures normId in byRole[j].1 <==>
        exists i :: 0 <= i < |norms| && norms[i].normId == normId && norms[i].role == Some(byRole[j].0) && byRole[j].0 != ""
    {
      GroupedMembers(w, j);
      if exists i :: 0 <= i < |norms| && norms[i].normId == normId && norms[i].role == Some(byRole[j].0) && byRole[j].0 != "" {
        var i :| 0 <= i < |norms| && norms[i].normId == normId && norms[i].role == Some(byRole[j].0) && byRole[j].0 != "";
        assert w[i] == Some((byRole[j].0, normId));
      }
    }
    forall i | 0 <= i < |norms| && Present(norms[i].role)
      ensures exists j :: 0 <= j < |byRole| && byRole[j].0 == norms[i].role.value && norms[i].normId in byRole[j].1
    {
      assert w[i] == Some((norms[i].role.value, norms[i].normId));
      GroupedCovers(w, i);
    }
  }
}
