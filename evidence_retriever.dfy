/**
 * The evidence retriever of the retrieval phase: for a question in natural language it
 * names the agents, roles and missions the question mentions, classifies the question into
 * one of six kinds, and gathers from the parsed norms, the parsed log, the compliance
 * results and the system profile the facts an explanation of that kind needs.
 *
 * The retriever reads its artifacts once and never changes them, so they are one value,
 * `Artifacts`; the JSON dictionaries of the profile are the profiler's own sequences
 * (`SystemProfiler.SystemProfile`), looked up by key with `Collections.FindFirst`.
 */
module EvidenceRetriever {
  import opened Wrappers
  import opened Text
  import opened Seqs
  import opened Schemas
  import opened Collections
  import NormMatcher
  import ComplianceChecker
  import opened SystemProfiler

  datatype Artifacts = Artifacts(
    norms: seq<Norm>,
    entries: seq<LogEntry>,
    results: seq<ComplianceResult>,
    profile: SystemProfile)

  function ProfileId(p: AgentProfile): string {
    p.agentId
  }

  function MissionNameOf(m: MissionProfile): string {
    m.missionName
  }

  function GroupName(g: (string, seq<string>)): string {
    g.0
  }

  function NormIdOf(n: Norm): string {
    n.normId
  }

  function EntryIdOf(e: LogEntry): string {
    e.entryId
  }

  function ResultAgentId(r: ComplianceResult): string {
    r.agentId
  }

  function ResultNormId(r: ComplianceResult): string {
    r.normId
  }

  function EvidenceEntryId(ev: ComplianceChecker.Evidence): string {
    ev.entryId
  }

  function AgentKeys(p: SystemProfile): seq<string> {
    Map(ProfileId, p.agents)
  }

  function RoleKeys(p: SystemProfile): seq<string> {
    Map(GroupName, p.roles)
  }

  function MissionKeys(p: SystemProfile): seq<string> {
    Map(MissionNameOf, p.missions)
  }

  // ---------------------------------------------------------------------------------------
  // Entities named in a question
  // ---------------------------------------------------------------------------------------

  /** `_normalize_text` is the norm matcher's normalisation, written out a second time in the source. */
  function NormalizeText(s: string): string {
    NormMatcher.NormalizeString(s)
  }

  /** A normalised text holds only lower-case word characters and inner whitespace, and normalising it again changes nothing. */
  lemma NormalizeTextFacts(s: string)
    ensures var r := NormalizeText(s);
      && (forall c :: c in r ==> !IsUpper(c) && (IsWordChar(c) || IsSpace(c)))
      && (r == [] || (!IsSpace(r[0]) && !IsSpace(r[|r| - 1])))
      && NormalizeText(r) == r
  {
    NormMatcher.NormalizeStringChars(s);
    NormMatcher.NormalizeIdempotent(s);
  }

  /** A collection name is mentioned when its normalised form is a substring of the normalised question. */
  predicate Mentions(name: string, queryNorm: string) {
    Contains(queryNorm, NormalizeText(name))
  }

  /**
   * What `_extract_entities` returns. The norm ids are those the norm-id pattern finds in the
   * lower-cased question, supplied by the caller; the `actions` list the source always leaves
   * empty is not kept.
   */
  datatype Entities = Entities(
    agents: seq<string>,
    roles: seq<string>,
    missions: seq<string>,
    norms: seq<string>,
    keywords: seq<string>)

  function Extracted(art: Artifacts, query: string, normMatches: seq<string>): Entities {
    var qn := NormalizeText(query);
    Entities(Filter(AgentKeys(art.profile), qn, Mentions), Filter(RoleKeys(art.profile), qn, Mentions),
             Filter(MissionKeys(art.profile), qn, Mentions), normMatches, Words(qn))
  }

  /** `_extract_entities`. */
  method ExtractEntities(art: Artifacts, query: string, normMatches: seq<string>) returns (entities: Entities)
    ensures entities == Extracted(art, query, normMatches)
  {
    var qn := NormalizeText(query);
    var agents := FilterLoop(AgentKeys(art.profile), qn, Mentions);
    var roles := FilterLoop(RoleKeys(art.profile), qn, Mentions);
    var missions := FilterLoop(MissionKeys(art.profile), qn, Mentions);
    entities := Entities(agents, roles, missions, normMatches, Words(qn));
  }

  /**
   * An agent, role or mission is extracted exactly when it is in the profile and mentioned;
   * extraction keeps distinct names distinct.
   */
  lemma ExtractedFacts(art: Artifacts, query: string, normMatches: seq<string>)
    ensures var e := Extracted(art, query, normMatches); var qn := NormalizeText(query);
      && (forall a :: a in e.agents <==> a in AgentKeys(art.profile) && Contains(qn, NormalizeText(a)))
      && (forall r :: r in e.roles <==> r in RoleKeys(art.profile) && Contains(qn, NormalizeText(r)))
      && (forall m :: m in e.missions <==> m in MissionKeys(art.profile) && Contains(qn, NormalizeText(m)))
      && e.norms == normMatches
      && (NoDup(AgentKeys(art.profile)) ==> NoDup(e.agents))
      && (NoDup(RoleKeys(art.profile)) ==> NoDup(e.roles))
      && (NoDup(MissionKeys(art.profile)) ==> NoDup(e.missions))
  {
    var qn := NormalizeText(query);
    FilterMember(AgentKeys(art.profile), qn, Mentions);
    FilterMember(RoleKeys(art.profile), qn, Mentions);
    FilterMember(MissionKeys(art.profile), qn, Mentions);
    if NoDup(AgentKeys(art.profile)) {
      FilterNoDup(AgentKeys(art.profile), qn, Mentions);
    }
    if NoDup(RoleKeys(art.profile)) {
      FilterNoDup(RoleKeys(art.profile), qn, Mentions);
    }
    if NoDup(MissionKeys(art.profile)) {
      FilterNoDup(MissionKeys(art.profile), qn, Mentions);
    }
  }

  /** A name made only of punctuation normalises to the empty string and so is mentioned by every question. */
  lemma PunctuationNameAlwaysMentioned(name: string, query: string)
    requires forall c :: c in name ==> !IsWordChar(LowerChar(c)) && !IsSpace(LowerChar(c))
    ensures Mentions(name, NormalizeText(query))
  {
    if name != "" {
      var low := Lower(name);
      assert forall i :: 0 <= i < |low| ==> low[i] == LowerChar(name[i]);
      assert forall c :: c in low ==> !IsWordChar(c) && !IsSpace(c) by {
        forall c | c in low ensures !IsWordChar(c) && !IsSpace(c) {
          var i :| 0 <= i < |low| && low[i] == c;
          assert name[i] in name;
        }
      }
      KeepWordOrSpaceNone(low);
      StripFacts(KeepWordOrSpace(low));
    }
    ContainsEmpty(NormalizeText(query));
  }

  // ---------------------------------------------------------------------------------------
  // Classifying a question
  // ---------------------------------------------------------------------------------------

  datatype QueryType = AgentQuery | NormQuery | MissionQuery | ComplianceQuery | TimelineQuery | OverviewQuery

  const ComplianceKeywords: seq<string> := ["violat", "fulfill", "comply", "complian", "satisfy", "follow"]
  const TimelineKeywords: seq<string> := ["when", "first", "last", "before", "after", "sequence", "order", "timeline"]
  const OverviewKeywords: seq<string> := ["overview", "summary", "all", "list", "what are", "how many"]

  /** `any(kw in s for kw in keywords)`. */
  predicate MentionsAny(s: string, keywords: seq<string>) {
    exists k :: k in keywords && Contains(s, k)
  }

  predicate NormCue(queryLower: string, e: Entities) {
    e.norms != [] || Contains(queryLower, "norm") || Contains(queryLower, "rule")
  }

  predicate MissionCue(queryLower: string, e: Entities) {
    e.missions != [] || Contains(queryLower, "mission") || Contains(queryLower, "goal")
  }

  /**
   * `_classify_query`: the first test that holds decides. The overview keywords and the
   * second test for named agents cannot change the outcome, since what follows them is
   * `overview` too and named agents were already sent to `agent`; so a question is an
   * overview question exactly when none of the five earlier tests holds.
   */
  function ClassifyQuery(query: string, e: Entities): (t: QueryType)
    ensures var ql := Lower(query);
      && (t == ComplianceQuery <==> MentionsAny(ql, ComplianceKeywords))
      && (t == TimelineQuery <==> !MentionsAny(ql, ComplianceKeywords) && MentionsAny(ql, TimelineKeywords))
      && (t == AgentQuery <==> !MentionsAny(ql, ComplianceKeywords) && !MentionsAny(ql, TimelineKeywords) && e.agents != [])
      && (t == NormQuery <==>
            !MentionsAny(ql, ComplianceKeywords) && !MentionsAny(ql, TimelineKeywords) && e.agents == [] && NormCue(ql, e))
      && (t == MissionQuery <==>
            !MentionsAny(ql, ComplianceKeywords) && !MentionsAny(ql, TimelineKeywords) && e.agents == [] &&
            !NormCue(ql, e) && MissionCue(ql, e))
      && (t == OverviewQuery <==>
            !MentionsAny(ql, ComplianceKeywords) && !MentionsAny(ql, TimelineKeywords) && e.agents == [] &&
            !NormCue(ql, e) && !MissionCue(ql, e))
  {
    var ql := Lower(query);
    if MentionsAny(ql, ComplianceKeywords) then ComplianceQuery
    else if MentionsAny(ql, TimelineKeywords) then TimelineQuery
    else if e.agents != [] then AgentQuery
    else if NormCue(ql, e) then NormQuery
    else if MissionCue(ql, e) then MissionQuery
    else if MentionsAny(ql, OverviewKeywords) then OverviewQuery
    else if e.agents != [] then AgentQuery
    else OverviewQuery
  }

  // ---------------------------------------------------------------------------------------
  // Evidence
  // ---------------------------------------------------------------------------------------

  /** The system totals an overview answer shows. */
  datatype Overview = Overview(
    totalAgents: nat,
    totalNorms: nat,
    totalMissions: nat,
    totalEvents: nat,
    roles: seq<(string, seq<string>)>,
    normsByType: seq<(NormType, nat)>,
    complianceSummary: seq<(ComplianceStatus, nat)>)

  /** The evidence dictionary a `_retrieve_*_evidence` function returns; a key it does not set is empty. */
  datatype Evidence = Evidence(
    agents: seq<AgentProfile>,
    norms: seq<Norm>,
    missions: seq<MissionProfile>,
    logEntries: seq<LogEntry>,
    compliance: seq<ComplianceResult>,
    interactions: seq<InteractionProfile>,
    overview: Option<Overview>)

  predicate Applicable(r: ComplianceResult) {
    r.status != ComplianceChecker.NotApplicable
  }

  // Agent questions -----------------------------------------------------------------------

  /** `profile['roles'].get(role, [])`. */
  function RoleMembersOf(roles: seq<(string, seq<string>)>, role: string): seq<string> {
    var g := FindFirst(roles, GroupName, role);
    if g.Some? then g.value.1 else []
  }

  /** The agents listed under the named roles, role after role. */
  function RoleAgents(roles: seq<(string, seq<string>)>, named: seq<string>): seq<string> {
    if |named| == 0 then [] else RoleAgents(roles, named[..|named| - 1]) + RoleMembersOf(roles, named[|named| - 1])
  }

  /** The agents an agent question is about: those it names, or else those of the roles it names. */
  function AgentTargets(art: Artifacts, e: Entities): seq<string> {
    if e.agents == [] && e.roles != [] then RoleAgents(art.profile.roles, e.roles) else e.agents
  }

  predicate EntryOf(x: LogEntry, agents: seq<string>) {
    x.agentId in agents
  }

  predicate ApplicableResultOf(r: ComplianceResult, agents: seq<string>) {
    r.agentId in agents && Applicable(r)
  }

  predicate InteractionOf(x: InteractionProfile, agents: seq<string>) {
    x.sourceAgent in agents || x.targetAgent in agents
  }

  function AgentEvidence(art: Artifacts, e: Entities): Evidence {
    var targets := AgentTargets(art, e);
    Evidence(Lookups(art.profile.agents, ProfileId, targets), [], [], Filter(art.entries, targets, EntryOf),
             Filter(art.results, targets, ApplicableResultOf), Filter(art.profile.interactions, targets, InteractionOf), None)
  }

  /** `_retrieve_agent_evidence`. */
  method RetrieveAgentEvidence(art: Artifacts, e: Entities) returns (ev: Evidence)
    ensures ev == AgentEvidence(art, e)
  {
    var targets := e.agents;
    if targets == [] && e.roles != [] {
      for k := 0 to |e.roles|
        invariant targets == RoleAgents(art.profile.roles, e.roles[..k])
      {
        assert e.roles[..k + 1][..k] == e.roles[..k];
        targets := targets + RoleMembersOf(art.profile.roles, e.roles[k]);
      }
      assert e.roles[..|e.roles|] == e.roles;
    }
    assert targets == AgentTargets(art, e);
    var agents := LookupLoop(art.profile.agents, ProfileId, targets);
    var entries := FilterLoop(art.entries, targets, EntryOf);
    var compliance := FilterLoop(art.results, targets, ApplicableResultOf);
    var interactions := FilterLoop(art.profile.interactions, targets, InteractionOf);
    ev := Evidence(agents, [], [], entries, compliance, interactions, None);
  }

  /** An agent is listed under the named roles exactly when one of them lists it. */
  lemma {:induction false} RoleAgentsMember(roles: seq<(string, seq<string>)>, named: seq<string>)
    ensures forall a :: a in RoleAgents(roles, named) <==> exists r :: r in named && a in RoleMembersOf(roles, r)
  {
    if |named| > 0 {
      RoleAgentsMember(roles, named[..|named| - 1]);
      assert named == named[..|named| - 1] + [named[|named| - 1]];
    }
  }

  /**
   * An agent question's evidence: the profiles of the agents it is about, their log entries,
   * their applicable compliance results and the interactions they take part in.
   */
  lemma AgentEvidenceFacts(art: Artifacts, e: Entities)
    ensures var ev := AgentEvidence(art, e); var targets := AgentTargets(art, e);
      && (e.agents != [] ==> targets == e.agents)
      && (e.agents == [] ==> forall a :: a in targets <==> exists r :: r in e.roles && a in RoleMembersOf(art.profile.roles, r))
      && (forall p :: p in ev.agents ==> p in art.profile.agents && p.agentId in targets)
      && (forall x :: x in ev.logEntries <==> x in art.entries && x.agentId in targets)
      && (forall r :: r in ev.compliance <==> r in art.results && r.agentId in targets && Applicable(r))
      && (forall x :: x in ev.interactions <==> x in art.profile.interactions && (x.sourceAgent in targets || x.targetAgent in targets))
  {
    var targets := AgentTargets(art, e);
    RoleAgentsMember(art.profile.roles, e.roles);
    LookupsMember(art.profile.agents, ProfileId, targets);
    FilterMember(art.entries, targets, EntryOf);
    FilterMember(art.results, targets, ApplicableResultOf);
    FilterMember(art.profile.interactions, targets, InteractionOf);
  }

  // Norm questions ------------------------------------------------------------------------

  predicate NormOfRoles(n: Norm, roles: seq<string>) {
    n.role.Some? && n.role.value in roles
  }

  predicate NormOfMissions(n: Norm, missions: seq<string>) {
    n.mission.Some? && n.mission.value in missions
  }

  /** The norm ids a norm question is about: those it names, or else those of the norms of the roles and missions it names. */
  function NormTargets(art: Artifacts, e: Entities): seq<string> {
    if e.norms != [] then e.norms
    else Map(NormIdOf, Filter(art.norms, e.roles, NormOfRoles)) + Map(NormIdOf, Filter(art.norms, e.missions, NormOfMissions))
  }

  /** `norm_id in target_norm_ids or not target_norm_ids`. */
  predicate Targeted(normId: string, ids: seq<string>) {
    normId in ids || ids == []
  }

  predicate NormTargeted(n: Norm, ids: seq<string>) {
    Targeted(n.normId, ids)
  }

  predicate ApplicableResultTargeted(r: ComplianceResult, ids: seq<string>) {
    Targeted(r.normId, ids) && Applicable(r)
  }

  function NormEvidence(art: Artifacts, e: Entities): Evidence {
    var ids := NormTargets(art, e);
    var compliance := Filter(art.results, ids, ApplicableResultTargeted);
    Evidence(Dedup(Lookups(art.profile.agents, ProfileId, Map(ResultAgentId, compliance))), Filter(art.norms, ids, NormTargeted),
             [], [], compliance, [], None)
  }

  /** The ids of the norms that `keep` selects, in norm order. */
  method NormIdsOf(norms: seq<Norm>, p: seq<string>, keep: (Norm, seq<string>) -> bool) returns (ids: seq<string>)
    ensures ids == Map(NormIdOf, Filter(norms, p, keep))
  {
    ids := [];
    for i := 0 to |norms|
      invariant ids == Map(NormIdOf, Filter(norms[..i], p, keep))
    {
      FilterSnoc(norms[..i], norms[i], p, keep);
      assert norms[..i + 1] == norms[..i] + [norms[i]];
      MapAppend(NormIdOf, Filter(norms[..i], p, keep), if keep(norms[i], p) then [norms[i]] else []);
      if keep(norms[i], p) {
        ids := ids + [norms[i].normId];
      }
    }
    assert norms[..|norms|] == norms;
  }

  /** `_retrieve_norm_evidence`. */
  method RetrieveNormEvidence(art: Artifacts, e: Entities) returns (ev: Evidence)
    ensures ev == NormEvidence(art, e)
  {
    var ids := e.norms;
    if ids == [] {
      if e.roles != [] {
        var ofRoles := NormIdsOf(art.norms, e.roles, NormOfRoles);
        ids := ids + ofRoles;
      } else {
        FilterExtremes(art.norms, e.roles, NormOfRoles);
      }
      if e.missions != [] {
        var ofMissions := NormIdsOf(art.norms, e.missions, NormOfMissions);
        ids := ids + ofMissions;
      } else {
        FilterExtremes(art.norms, e.missions, NormOfMissions);
      }
    }
    assert ids == NormTargets(art, e);
    var norms := FilterLoop(art.norms, ids, NormTargeted);
    var compliance, agents := TargetedResults(art, ids);
    ev := Evidence(agents, norms, [], [], compliance, [], None);
  }

  /** The loop over the results of a norm question: keep the targeted applicable ones, and each of their known agents once. */
  method TargetedResults(art: Artifacts, ids: seq<string>) returns (compliance: seq<ComplianceResult>, agents: seq<AgentProfile>)
    ensures compliance == Filter(art.results, ids, ApplicableResultTargeted)
    ensures agents == Dedup(Lookups(art.profile.agents, ProfileId, Map(ResultAgentId, compliance)))
  {
    var rs := art.results;
    compliance := [];
    agents := [];
    for i := 0 to |rs|
      invariant compliance == Filter(rs[..i], ids, ApplicableResultTargeted)
      invariant agents == Dedup(Lookups(art.profile.agents, ProfileId, Map(ResultAgentId, compliance)))
    {
      var r := rs[i];
      PrefixStep([], rs, i);
      FilterSnoc(rs[..i], r, ids, ApplicableResultTargeted);
      if Targeted(r.normId, ids) {
        if Applicable(r) {
          MapSnoc(ResultAgentId, compliance, r);
          agents := AddKnown(art.profile.agents, ProfileId, Map(ResultAgentId, compliance), r.agentId, agents);
          compliance := compliance + [r];
        }
      }
    }
    assert rs[..|rs|] == rs;
  }

  /**
   * A norm question's evidence: the targeted norms, the targeted applicable results and,
   * once each, the profiles of their agents. With nothing targeted, every norm and every
   * applicable result is evidence.
   */
  lemma NormEvidenceFacts(art: Artifacts, e: Entities)
    ensures var ev := NormEvidence(art, e); var ids := NormTargets(art, e);
      && (e.norms != [] ==> ids == e.norms)
      && (e.norms == [] ==> forall id :: id in ids <==>
            exists n :: n in art.norms && n.normId == id && (NormOfRoles(n, e.roles) || NormOfMissions(n, e.missions)))
      && (forall n :: n in ev.norms <==> n in art.norms && Targeted(n.normId, ids))
      && (forall r :: r in ev.compliance <==> r in art.results && Targeted(r.normId, ids) && Applicable(r))
      && (ids == [] ==> ev.norms == art.norms)
      && NoDup(Map(ProfileId, ev.agents))
      && (forall p :: p in ev.agents ==> p in art.profile.agents && exists r :: r in ev.compliance && r.agentId == p.agentId)
  {
    var ids := NormTargets(art, e);
    NormSelection(art.norms, art.results, ids);
    if e.norms == [] {
      assert ids == Map(NormIdOf, Filter(art.norms, e.roles, NormOfRoles)) + Map(NormIdOf, Filter(art.norms, e.missions, NormOfMissions));
      DerivedTargets(art.norms, e.roles, e.missions);
    }
    AgentsOnce(art.profile.agents, Filter(art.results, ids, ApplicableResultTargeted));
  }

  /** The norms and the results a list of targets selects. */
  lemma NormSelection(norms: seq<Norm>, results: seq<ComplianceResult>, ids: seq<string>)
    ensures forall n :: n in Filter(norms, ids, NormTargeted) <==> n in norms && Targeted(n.normId, ids)
    ensures forall r :: r in Filter(results, ids, ApplicableResultTargeted) <==> r in results && Targeted(r.normId, ids) && Applicable(r)
    ensures ids == [] ==> Filter(norms, ids, NormTargeted) == norms
  {
    FilterMember(norms, ids, NormTargeted);
    FilterMember(results, ids, ApplicableResultTargeted);
    FilterExtremes(norms, ids, NormTargeted);
  }

  /** Without named norms, the targets are exactly the ids of the norms of the named roles or missions. */
  lemma DerivedTargets(norms: seq<Norm>, roles: seq<string>, missions: seq<string>)
    ensures var ids := Map(NormIdOf, Filter(norms, roles, NormOfRoles)) + Map(NormIdOf, Filter(norms, missions, NormOfMissions));
      forall id :: id in ids <==> exists n :: n in norms && n.normId == id && (NormOfRoles(n, roles) || NormOfMissions(n, missions))
  {
    var ids := Map(NormIdOf, Filter(norms, roles, NormOfRoles)) + Map(NormIdOf, Filter(norms, missions, NormOfMissions));
    forall id
      ensures id in ids <==> exists n :: n in norms && n.normId == id && (NormOfRoles(n, roles) || NormOfMissions(n, missions))
    {
      SelectedId(norms, roles, NormOfRoles, id);
      SelectedId(norms, missions, NormOfMissions, id);
    }
  }

  /** An id is among those of the selected norms exactly when a selected norm carries it. */
  lemma SelectedId(norms: seq<Norm>, p: seq<string>, keep: (Norm, seq<string>) -> bool, id: string)
    ensures id in Map(NormIdOf, Filter(norms, p, keep)) <==> exists n :: n in norms && n.normId == id && keep(n, p)
  {
    var sel := Filter(norms, p, keep);
    FilterMember(norms, p, keep);
    if id in Map(NormIdOf, sel) {
      var k :| 0 <= k < |sel| && Map(NormIdOf, sel)[k] == id;
      assert sel[k] in sel;
    }
    if exists n :: n in norms && n.normId == id && keep(n, p) {
      var n :| n in norms && n.normId == id && keep(n, p);
      var k :| 0 <= k < |sel| && sel[k] == n;
      assert Map(NormIdOf, sel)[k] == id;
    }
  }

  /**
   * The profiles gathered for a list of results: each known agent once, the first time one of
   * its results comes by.
   */
  lemma AgentsOnce(ps: seq<AgentProfile>, rs: seq<ComplianceResult>)
    ensures var agents := Dedup(Lookups(ps, ProfileId, Map(ResultAgentId, rs)));
      && NoDup(Map(ProfileId, agents))
      && (forall p :: p in agents ==> p in ps && exists r :: r in rs && r.agentId == p.agentId)
      && (forall r :: r in rs && (exists i :: 0 <= i < |ps| && ps[i].agentId == r.agentId) ==>
            r.agentId in Map(ProfileId, agents))
  {
    DedupKeysDistinct(ps, ProfileId, Map(ResultAgentId, rs));
    AgentsOfResults(ps, rs);
    ResultAgentsFound(ps, rs);
  }

  /** Each agent gathered for results is a known profile of the agent of one of them. */
  lemma AgentsOfResults(ps: seq<AgentProfile>, rs: seq<ComplianceResult>)
    ensures forall p :: p in Dedup(Lookups(ps, ProfileId, Map(ResultAgentId, rs))) ==>
      p in ps && exists r :: r in rs && r.agentId == p.agentId
  {
    var ids := Map(ResultAgentId, rs);
    var agents := Dedup(Lookups(ps, ProfileId, ids));
    LookupsMember(ps, ProfileId, ids);
    forall p | p in agents
      ensures p in ps && exists r :: r in rs && r.agentId == p.agentId
    {
      var k :| 0 <= k < |ids| && ids[k] == p.agentId;
      assert rs[k] in rs;
    }
  }

  /** The agent of every result that has a known profile is gathered. */
  lemma ResultAgentsFound(ps: seq<AgentProfile>, rs: seq<ComplianceResult>)
    ensures forall r :: r in rs && (exists i :: 0 <= i < |ps| && ps[i].agentId == r.agentId) ==>
      r.agentId in Map(ProfileId, Dedup(Lookups(ps, ProfileId, Map(ResultAgentId, rs))))
  {
    var ids := Map(ResultAgentId, rs);
    var agents := Dedup(Lookups(ps, ProfileId, ids));
    LookupsMember(ps, ProfileId, ids);
    forall r | r in rs && (exists i :: 0 <= i < |ps| && ps[i].agentId == r.agentId)
      ensures r.agentId in Map(ProfileId, agents)
    {
      var k :| 0 <= k < |rs| && rs[k] == r;
      assert ids[k] == r.agentId;
      var p := FindFirst(ps, ProfileId, r.agentId).value;
      assert p in agents;
      var m :| 0 <= m < |agents| && agents[m] == p;
      assert Map(ProfileId, agents)[m] == r.agentId;
    }
  }

  /** Looked-up items are the items of their keys, so distinct items have distinct keys. */
  lemma DedupKeysDistinct<T(!new)>(xs: seq<T>, key: T -> string, ks: seq<string>)
    ensures NoDup(Map(key, Dedup(Lookups(xs, key, ks))))
  {
    var d := Dedup(Lookups(xs, key, ks));
    LookupsMember(xs, key, ks);
    forall i, j | 0 <= i < j < |d|
      ensures Map(key, d)[i] != Map(key, d)[j]
    {
      assert d[i] in Lookups(xs, key, ks) && d[j] in Lookups(xs, key, ks);
      assert FindFirst(xs, key, key(d[i])) == Some(d[i]) && FindFirst(xs, key, key(d[j])) == Some(d[j]);
    }
  }

  // Mission questions ---------------------------------------------------------------------

  /** The missions a mission question is about: those it names, or else every mission. */
  function MissionTargets(art: Artifacts, e: Entities): seq<string> {
    if e.missions != [] then e.missions else MissionKeys(art.profile)
  }

  /** The agents listed to the missions, mission after mission. */
  function AssignedAgents(ms: seq<MissionProfile>): seq<string> {
    if |ms| == 0 then [] else AssignedAgents(ms[..|ms| - 1]) + ms[|ms| - 1].agentsAssigned
  }

  function MissionEvidence(art: Artifacts, e: Entities): Evidence {
    var targets := MissionTargets(art, e);
    var missions := Lookups(art.profile.missions, MissionNameOf, targets);
    var norms := Filter(art.norms, targets, NormOfMissions);
    Evidence(Dedup(Lookups(art.profile.agents, ProfileId, AssignedAgents(missions))), norms, missions, [],
             Filter(art.results, Map(NormIdOf, norms), ResultOfNorms), [], None)
  }

  predicate ResultOfNorms(r: ComplianceResult, normIds: seq<string>) {
    r.normId in normIds && Applicable(r)
  }

  /** `_retrieve_mission_evidence`. */
  method RetrieveMissionEvidence(art: Artifacts, e: Entities) returns (ev: Evidence)
    ensures ev == MissionEvidence(art, e)
  {
    var targets := e.missions;
    if targets == [] {
      targets := MissionKeys(art.profile);
    }
    var missions := LookupLoop(art.profile.missions, MissionNameOf, targets);
    var norms := FilterLoop(art.norms, targets, NormOfMissions);
    var agents := CollectAssignedAgents(art.profile.agents, art.profile.missions, targets);
    var compliance := FilterLoop(art.results, Map(NormIdOf, norms), ResultOfNorms);
    ev := Evidence(agents, norms, missions, [], compliance, [], None);
  }

  /** The nested loop over the targeted missions and their listed agents, adding each known agent once. */
  method CollectAssignedAgents(ps: seq<AgentProfile>, ms: seq<MissionProfile>, targets: seq<string>) returns (agents: seq<AgentProfile>)
    ensures agents == Dedup(Lookups(ps, ProfileId, AssignedAgents(Lookups(ms, MissionNameOf, targets))))
  {
    agents := [];
    for k := 0 to |targets|
      invariant agents == Dedup(Lookups(ps, ProfileId, AssignedAgents(Lookups(ms, MissionNameOf, targets[..k]))))
    {
      agents := CollectMissionAgents(ps, ms, targets, k, agents);
    }
    assert targets[..|targets|] == targets;
  }

  /** One targeted mission of that loop: its listed agents are added, each known agent once. */
  method CollectMissionAgents(ps: seq<AgentProfile>, ms: seq<MissionProfile>, targets: seq<string>, k: nat,
                              agents0: seq<AgentProfile>) returns (agents: seq<AgentProfile>)
    requires k < |targets|
    requires agents0 == Dedup(Lookups(ps, ProfileId, AssignedAgents(Lookups(ms, MissionNameOf, targets[..k]))))
    ensures agents == Dedup(Lookups(ps, ProfileId, AssignedAgents(Lookups(ms, MissionNameOf, targets[..k + 1]))))
  {
    var before, target := targets[..k], targets[k];
    assert targets[..k + 1] == before + [target];
    ghost var l := Lookups(ms, MissionNameOf, before);
    LookupsSnoc(ms, MissionNameOf, before, target);
    agents := agents0;
    var found := FindFirst(ms, MissionNameOf, target);
    if found.Some? {
      assert (l + [found.value])[..|l|] == l;
      assert AssignedAgents(l + [found.value]) == AssignedAgents(l) + found.value.agentsAssigned;
      agents := DedupLookupLoop(ps, ProfileId, AssignedAgents(l), found.value.agentsAssigned, agents);
    } else {
      assert l + [] == l;
    }
  }

  /** Every agent listed to a mission is listed after the missions before it. */
  lemma {:induction false} AssignedAgentsMember(ms: seq<MissionProfile>)
    ensures forall a :: a in AssignedAgents(ms) <==> exists m :: m in ms && a in m.agentsAssigned
  {
    if |ms| > 0 {
      AssignedAgentsMember(ms[..|ms| - 1]);
      assert ms == ms[..|ms| - 1] + [ms[|ms| - 1]];
    }
  }

  /**
   * A mission question's evidence: the profiles of the targeted missions, the norms that name
   * them, each known agent listed to them once, and the applicable results of their norms.
   */
  lemma MissionEvidenceFacts(art: Artifacts, e: Entities)
    ensures var ev := MissionEvidence(art, e); var targets := MissionTargets(art, e);
      && (e.missions == [] ==> targets == MissionKeys(art.profile))
      && (forall m :: m in ev.missions ==> m in art.profile.missions && m.missionName in targets)
      && (forall n :: n in ev.norms <==> n in art.norms && NormOfMissions(n, targets))
      && NoDup(Map(ProfileId, ev.agents))
      && (forall p :: p in ev.agents ==> p in art.profile.agents && exists m :: m in ev.missions && p.agentId in m.agentsAssigned)
      && (forall r :: r in ev.compliance <==>
            r in art.results && Applicable(r) && exists n :: n in ev.norms && n.normId == r.normId)
  {
    var targets := MissionTargets(art, e);
    var missions := Lookups(art.profile.missions, MissionNameOf, targets);
    var norms := Filter(art.norms, targets, NormOfMissions);
    LookupsMember(art.profile.missions, MissionNameOf, targets);
    FilterMember(art.norms, targets, NormOfMissions);
    MissionAgents(art.profile.agents, missions);
    ResultsOfNorms(art.results, norms);
  }

  /** The profiles gathered for missions: each known agent once, each listed to one of the missions. */
  lemma MissionAgents(agents: seq<AgentProfile>, missions: seq<MissionProfile>)
    ensures var ps := Dedup(Lookups(agents, ProfileId, AssignedAgents(missions)));
      && NoDup(Map(ProfileId, ps))
      && (forall p :: p in ps ==> p in agents && exists m :: m in missions && p.agentId in m.agentsAssigned)
  {
    var listed := AssignedAgents(missions);
    AssignedAgentsMember(missions);
    LookupsMember(agents, ProfileId, listed);
    DedupKeysDistinct(agents, ProfileId, listed);
  }

  /** The results of a list of norms are the applicable results that carry the id of one of them. */
  lemma ResultsOfNorms(results: seq<ComplianceResult>, norms: seq<Norm>)
    ensures forall r :: r in Filter(results, Map(NormIdOf, norms), ResultOfNorms) <==>
      r in results && Applicable(r) && exists n :: n in norms && n.normId == r.normId
  {
    FilterMember(results, Map(NormIdOf, norms), ResultOfNorms);
    forall r | r in results && Applicable(r) && exists n :: n in norms && n.normId == r.normId
      ensures r.normId in Map(NormIdOf, norms)
    {
      var n :| n in norms && n.normId == r.normId;
      var k :| 0 <= k < |norms| && norms[k] == n;
      assert Map(NormIdOf, norms)[k] == r.normId;
    }
  }

  // Compliance questions ------------------------------------------------------------------

  /** The status a compliance question asks about, if it asks about one. */
  function TargetStatus(queryLower: string): Option<ComplianceStatus> {
    if Contains(queryLower, "violat") then Some(ComplianceChecker.Violated)
    else if Contains(queryLower, "fulfill") || Contains(queryLower, "satisfy") || Contains(queryLower, "comply") then
      Some(ComplianceChecker.Fulfilled)
    else None
  }

  datatype ComplianceFilter = ComplianceFilter(status: Option<ComplianceStatus>, agents: seq<string>, norms: seq<string>)

  /** The results a compliance question keeps: applicable, of the asked status, of the named agents and norms. */
  predicate Kept(r: ComplianceResult, f: ComplianceFilter) {
    && Applicable(r)
    && (f.status.None? || r.status == f.status.value)
    && (f.agents == [] || r.agentId in f.agents)
    && (f.norms == [] || r.normId in f.norms)
  }

  function FilterOf(query: string, e: Entities): ComplianceFilter {
    ComplianceFilter(TargetStatus(Lower(query)), e.agents, e.norms)
  }

  /** The entry ids of the evidence of the results, result after result. */
  function EvidenceIds(rs: seq<ComplianceResult>): seq<string> {
    if |rs| == 0 then [] else EvidenceIds(rs[..|rs| - 1]) + Map(EvidenceEntryId, rs[|rs| - 1].evidence)
  }

  function ComplianceEvidence(art: Artifacts, e: Entities, query: string): Evidence {
    var kept := Filter(art.results, FilterOf(query, e), Kept);
    Evidence(Dedup(Lookups(art.profile.agents, ProfileId, Map(ResultAgentId, kept))),
             Dedup(Lookups(art.norms, NormIdOf, Map(ResultNormId, kept))), [],
             Dedup(Lookups(art.entries, EntryIdOf, EvidenceIds(kept))), kept, [], None)
  }

  /** The state of the loop over the results after it has kept `kept`. */
  predicate Gathered(art: Artifacts, kept: seq<ComplianceResult>, norms: seq<Norm>, agents: seq<AgentProfile>, entries: seq<LogEntry>) {
    && norms == Dedup(Lookups(art.norms, NormIdOf, Map(ResultNormId, kept)))
    && agents == Dedup(Lookups(art.profile.agents, ProfileId, Map(ResultAgentId, kept)))
    && entries == Dedup(Lookups(art.entries, EntryIdOf, EvidenceIds(kept)))
  }

  /** `_retrieve_compliance_evidence`. */
  method RetrieveComplianceEvidence(art: Artifacts, e: Entities, query: string) returns (ev: Evidence)
    ensures ev == ComplianceEvidence(art, e, query)
  {
    var queryLower := Lower(query);
    var targetStatus: Option<ComplianceStatus> := None;
    if Contains(queryLower, "violat") {
      targetStatus := Some(ComplianceChecker.Violated);
    } else if Contains(queryLower, "fulfill") || Contains(queryLower, "satisfy") || Contains(queryLower, "comply") {
      targetStatus := Some(ComplianceChecker.Fulfilled);
    }
    var f := ComplianceFilter(targetStatus, e.agents, e.norms);
    assert f == FilterOf(query, e);
    var compliance, norms, agents, entries := GatherResults(art, f);
    ev := Evidence(agents, norms, [], entries, compliance, [], None);
  }

  /** The loop of `_retrieve_compliance_evidence` over the results: keep those that pass the filter and gather what they name. */
  method GatherResults(art: Artifacts, f: ComplianceFilter)
    returns (compliance: seq<ComplianceResult>, norms: seq<Norm>, agents: seq<AgentProfile>, entries: seq<LogEntry>)
    ensures compliance == Filter(art.results, f, Kept)
    ensures Gathered(art, compliance, norms, agents, entries)
  {
    compliance, norms, agents, entries := [], [], [], [];
    for i := 0 to |art.results|
      invariant compliance == Filter(art.results[..i], f, Kept)
      invariant Gathered(art, compliance, norms, agents, entries)
    {
      var r := art.results[i];
      FilterSnoc(art.results[..i], r, f, Kept);
      assert art.results[..i + 1] == art.results[..i] + [r];
      if Kept(r, f) {
        norms, agents, entries := KeepResult(art, compliance, norms, agents, entries, r);
        compliance := compliance + [r];
      }
    }
    assert art.results[..|art.results|] == art.results;
  }

  /** The body of the loop for a kept result: add its norm, its agent and its evidence entries, each unless already there. */
  method KeepResult(art: Artifacts, kept: seq<ComplianceResult>, norms0: seq<Norm>, agents0: seq<AgentProfile>,
                    entries0: seq<LogEntry>, r: ComplianceResult)
    returns (norms: seq<Norm>, agents: seq<AgentProfile>, entries: seq<LogEntry>)
    requires Gathered(art, kept, norms0, agents0, entries0)
    ensures Gathered(art, kept + [r], norms, agents, entries)
  {
    KeptSnoc(kept, r);
    norms, agents, entries := norms0, agents0, entries0;
    DedupLookupsItemSnoc(art.norms, NormIdOf, Map(ResultNormId, kept), r.normId);
    var norm := FindFirst(art.norms, NormIdOf, r.normId);
    if norm.Some? && norm.value !in norms {
      norms := norms + [norm.value];
    }
    agents := AddKnown(art.profile.agents, ProfileId, Map(ResultAgentId, kept), r.agentId, agents);
    entries := AddLogEntries(art.entries, EvidenceIds(kept), Map(EvidenceEntryId, r.evidence), entries);
  }

  /** Keeping one more result adds its norm id, its agent id and its evidence's entry ids at the end. */
  lemma KeptSnoc(kept: seq<ComplianceResult>, r: ComplianceResult)
    ensures Map(ResultNormId, kept + [r]) == Map(ResultNormId, kept) + [r.normId]
    ensures Map(ResultAgentId, kept + [r]) == Map(ResultAgentId, kept) + [r.agentId]
    ensures EvidenceIds(kept + [r]) == EvidenceIds(kept) + Map(EvidenceEntryId, r.evidence)
  {
    assert (kept + [r])[..|kept|] == kept;
    MapSnoc(ResultNormId, kept, r);
    MapSnoc(ResultAgentId, kept, r);
  }

  /** The loop over a result's evidence: add the first log entry with each entry id, unless it is already there. */
  method AddLogEntries(xs: seq<LogEntry>, ghost before: seq<string>, ids: seq<string>, entries0: seq<LogEntry>) returns (entries: seq<LogEntry>)
    requires entries0 == Dedup(Lookups(xs, EntryIdOf, before))
    ensures entries == Dedup(Lookups(xs, EntryIdOf, before + ids))
  {
    entries := entries0;
    assert before + ids[..0] == before;
    for j := 0 to |ids|
      invariant entries == Dedup(Lookups(xs, EntryIdOf, before + ids[..j]))
    {
      PrefixStep(before, ids, j);
      DedupLookupsItemSnoc(xs, EntryIdOf, before + ids[..j], ids[j]);
      var entry := FindFirst(xs, EntryIdOf, ids[j]);
      if entry.Some? && entry.value !in entries {
        entries := entries + [entry.value];
      }
    }
    assert ids[..|ids|] == ids;
  }

  /** Every evidence entry id of every result is listed. */
  lemma {:induction false} EvidenceIdsMember(rs: seq<ComplianceResult>)
    ensures forall id :: id in EvidenceIds(rs) <==> exists r, ev :: r in rs && ev in r.evidence && ev.entryId == id
  {
    if |rs| > 0 {
      var init := rs[..|rs| - 1];
      var last := rs[|rs| - 1];
      EvidenceIdsMember(init);
      assert rs == init + [last];
      forall id
        ensures id in Map(EvidenceEntryId, last.evidence) <==> exists ev :: ev in last.evidence && ev.entryId == id
      {
        if id in Map(EvidenceEntryId, last.evidence) {
          var k :| 0 <= k < |last.evidence| && Map(EvidenceEntryId, last.evidence)[k] == id;
          assert last.evidence[k] in last.evidence;
        }
        if exists ev :: ev in last.evidence && ev.entryId == id {
          var ev :| ev in last.evidence && ev.entryId == id;
          var k :| 0 <= k < |last.evidence| && last.evidence[k] == ev;
          assert Map(EvidenceEntryId, last.evidence)[k] == id;
        }
      }
    }
  }

  /**
   * A compliance question's evidence: exactly the applicable results that pass its status,
   * agent and norm filters; and, each once, the first norm with the id of a kept result, the
   * profile of a kept result's agent and the first log entry with the id of a kept result's
   * evidence.
   */
  lemma ComplianceEvidenceFacts(art: Artifacts, e: Entities, query: string)
    ensures var ev := ComplianceEvidence(art, e, query); var ql := Lower(query);
      && (forall r :: r in ev.compliance <==> r in art.results && Kept(r, FilterOf(query, e)))
      && (forall r :: r in ev.compliance ==> Applicable(r))
      && (Contains(ql, "violat") ==> forall r :: r in ev.compliance ==> r.status == ComplianceChecker.Violated)
      && (!Contains(ql, "violat") && (Contains(ql, "fulfill") || Contains(ql, "satisfy") || Contains(ql, "comply")) ==>
            forall r :: r in ev.compliance ==> r.status == ComplianceChecker.Fulfilled)
      && NoDup(ev.norms)
      && (forall n :: n in ev.norms ==>
            (n in art.norms && FindFirst(art.norms, NormIdOf, n.normId) == Some(n) &&
             exists r :: r in ev.compliance && r.normId == n.normId))
      && NoDup(Map(ProfileId, ev.agents))
      && (forall p :: p in ev.agents ==> p in art.profile.agents && exists r :: r in ev.compliance && r.agentId == p.agentId)
      && NoDup(ev.logEntries)
      && (forall x :: x in ev.logEntries ==>
            (x in art.entries && exists r, d :: r in ev.compliance && d in r.evidence && d.entryId == x.entryId))
  {
    var ev := ComplianceEvidence(art, e, query);
    var f := FilterOf(query, e);
    var kept := Filter(art.results, f, Kept);
    assert ev.compliance == kept;
    KeptResults(art.results, e, query);
    assert forall n :: n in ev.norms ==>
             (n in art.norms && FindFirst(art.norms, NormIdOf, n.normId) == Some(n) &&
              exists r :: r in kept && r.normId == n.normId) by {
      KeptNorms(art.norms, kept);
    }
    assert NoDup(Map(ProfileId, ev.agents)) &&
           forall p :: p in ev.agents ==> p in art.profile.agents && exists r :: r in kept && r.agentId == p.agentId by {
      AgentsOnce(art.profile.agents, kept);
    }
    assert forall x :: x in ev.logEntries ==>
             (x in art.entries && exists r, d :: r in kept && d in r.evidence && d.entryId == x.entryId) by {
      KeptEntries(art.entries, kept);
    }
  }

  /** The results a compliance question keeps: exactly the applicable ones that pass its status, agent and norm filters. */
  lemma KeptResults(results: seq<ComplianceResult>, e: Entities, query: string)
    ensures var kept := Filter(results, FilterOf(query, e), Kept); var ql := Lower(query);
      && (forall r :: r in kept <==> r in results && Kept(r, FilterOf(query, e)))
      && (forall r :: r in kept ==> Applicable(r))
      && (Contains(ql, "violat") ==> forall r :: r in kept ==> r.status == ComplianceChecker.Violated)
      && (!Contains(ql, "violat") && (Contains(ql, "fulfill") || Contains(ql, "satisfy") || Contains(ql, "comply")) ==>
            forall r :: r in kept ==> r.status == ComplianceChecker.Fulfilled)
  {
    FilterMember(results, FilterOf(query, e), Kept);
  }

  /** The norms gathered for kept results: each once, the first norm of its id, and each the norm of a kept result. */
  lemma KeptNorms(norms: seq<Norm>, kept: seq<ComplianceResult>)
    ensures var ns := Dedup(Lookups(norms, NormIdOf, Map(ResultNormId, kept)));
      forall n :: n in ns ==>
        (n in norms && FindFirst(norms, NormIdOf, n.normId) == Some(n) && exists r :: r in kept && r.normId == n.normId)
  {
    var normIds := Map(ResultNormId, kept);
    LookupsMember(norms, NormIdOf, normIds);
    forall n | n in Lookups(norms, NormIdOf, normIds)
      ensures exists r :: r in kept && r.normId == n.normId
    {
      var k :| 0 <= k < |normIds| && normIds[k] == n.normId;
      assert kept[k] in kept;
    }
  }

  /** The log entries gathered for kept results are entries cited as evidence by one of them. */
  lemma KeptEntries(entries: seq<LogEntry>, kept: seq<ComplianceResult>)
    ensures forall x :: x in Dedup(Lookups(entries, EntryIdOf, EvidenceIds(kept))) ==>
      (x in entries && exists r, d :: r in kept && d in r.evidence && d.entryId == x.entryId)
  {
    LookupsMember(entries, EntryIdOf, EvidenceIds(kept));
    EvidenceIdsMember(kept);
  }

  // Timeline questions --------------------------------------------------------------------

  /** The number of log entries a timeline answer shows when it names no agent. */
  const TimelineLimit: nat := 100

  function TimelineEntries(art: Artifacts, e: Entities): seq<LogEntry> {
    if e.agents != [] then Filter(art.entries, e.agents, EntryOf)
    else art.entries[..Collections.Min([TimelineLimit, |art.entries|])]
  }

  /** With `order` the order in which the set of the shown entries' agents yields them. */
  function TimelineEvidence(art: Artifacts, e: Entities, order: seq<string>): Evidence {
    Evidence(Lookups(art.profile.agents, ProfileId, order), [], [], TimelineEntries(art, e), [], [], None)
  }

  /** `_retrieve_timeline_evidence`. */
  method RetrieveTimelineEvidence(art: Artifacts, e: Entities, order: seq<string>) returns (ev: Evidence)
    requires EnumeratesAgents(order, TimelineEntries(art, e))
    ensures ev == TimelineEvidence(art, e, order)
  {
    var entries;
    if e.agents != [] {
      entries := FilterLoop(art.entries, e.agents, EntryOf);
    } else {
      entries := art.entries[..Collections.Min([TimelineLimit, |art.entries|])];
    }
    var agents := LookupLoop(art.profile.agents, ProfileId, order);
    ev := Evidence(agents, [], [], entries, [], [], None);
  }

  /** An enumeration of the agents of some entries lists exactly the agents that have an entry. */
  lemma EnumeratedAgent(order: seq<string>, entries: seq<LogEntry>, a: string)
    requires EnumeratesAgents(order, entries)
    ensures a in order <==> exists x :: x in entries && x.agentId == a
  {
    assert a in order <==> a in (set b | b in order);
    assert a in AgentIdSet(entries) <==> a in AgentIds(entries);
    if a in AgentIds(entries) {
      var k :| 0 <= k < |entries| && AgentIds(entries)[k] == a;
      assert entries[k] in entries;
    }
    if exists x :: x in entries && x.agentId == a {
      var x :| x in entries && x.agentId == a;
      var k :| 0 <= k < |entries| && entries[k] == x;
      assert AgentIds(entries)[k] == a;
    }
  }

  /**
   * A timeline question's evidence: the entries of the named agents, or else the first
   * hundred entries of the log; and the profile of every known agent among them, once.
   */
  lemma TimelineEvidenceFacts(art: Artifacts, e: Entities, order: seq<string>)
    requires EnumeratesAgents(order, TimelineEntries(art, e))
    ensures var ev := TimelineEvidence(art, e, order);
      && (e.agents != [] ==> forall x :: x in ev.logEntries <==> x in art.entries && x.agentId in e.agents)
      && (e.agents == [] ==>
            (|ev.logEntries| <= TimelineLimit && ev.logEntries <= art.entries &&
             (|art.entries| <= TimelineLimit ==> ev.logEntries == art.entries)))
      && NoDup(Map(ProfileId, ev.agents))
      && (forall p :: p in ev.agents ==> p in art.profile.agents && exists x :: x in ev.logEntries && x.agentId == p.agentId)
      && (forall x :: x in ev.logEntries && (exists i :: 0 <= i < |art.profile.agents| && art.profile.agents[i].agentId == x.agentId) ==>
            x.agentId in Map(ProfileId, ev.agents))
  {
    var ev := TimelineEvidence(art, e, order);
    var ps := art.profile.agents;
    FilterMember(art.entries, e.agents, EntryOf);
    LookupsMember(ps, ProfileId, order);
    LookupsOfDistinct(ps, ProfileId, order);
    forall p | p in ev.agents
      ensures exists x :: x in ev.logEntries && x.agentId == p.agentId
    {
      EnumeratedAgent(order, ev.logEntries, p.agentId);
    }
    forall x | x in ev.logEntries && (exists i :: 0 <= i < |ps| && ps[i].agentId == x.agentId)
      ensures x.agentId in Map(ProfileId, ev.agents)
    {
      EnumeratedAgent(order, ev.logEntries, x.agentId);
      var p := FindFirst(ps, ProfileId, x.agentId).value;
      assert p in ev.agents;
      var m :| 0 <= m < |ev.agents| && ev.agents[m] == p;
      assert Map(ProfileId, ev.agents)[m] == x.agentId;
    }
  }

  /** Looking up distinct keys gives items with distinct keys. */
  lemma {:induction false} LookupsOfDistinct<T(!new)>(xs: seq<T>, key: T -> string, ks: seq<string>)
    requires NoDup(ks)
    ensures NoDup(Map(key, Lookups(xs, key, ks)))
  {
    if |ks| > 0 {
      var init := ks[..|ks| - 1];
      assert NoDup(init) by {
        forall i, j | 0 <= i < j < |init| ensures init[i] != init[j] {
          assert init[i] == ks[i] && init[j] == ks[j];
        }
      }
      LookupsOfDistinct(xs, key, init);
      LookupsMember(xs, key, init);
      var l := Lookups(xs, key, init);
      var found := FindFirst(xs, key, ks[|ks| - 1]);
      if found.Some? {
        var i :| IsFirst(xs, key, ks[|ks| - 1], i) && xs[i] == found.value;
        assert ks[|ks| - 1] !in init;
        forall m | 0 <= m < |l| ensures key(l[m]) != ks[|ks| - 1] {
          assert l[m] in l;
        }
        assert Map(key, l + [found.value]) == Map(key, l) + [ks[|ks| - 1]];
      }
    }
  }

  // Overview questions --------------------------------------------------------------------

  /** The number of agent profiles an overview answer shows. */
  const OverviewAgentLimit: nat := 10

  /** `_retrieve_overview_evidence`. */
  function OverviewEvidence(art: Artifacts): (ev: Evidence)
    ensures |ev.agents| == Collections.Min([OverviewAgentLimit, |art.profile.agents|])
    ensures ev.agents <= art.profile.agents
    ensures ev.norms == art.norms && ev.missions == art.profile.missions && ev.overview.Some?
  {
    var p := art.profile;
    Evidence(p.agents[..Collections.Min([OverviewAgentLimit, |p.agents|])], art.norms, p.missions, [], [], [],
             Some(Overview(p.totalAgents, p.totalNorms, p.totalMissions, p.totalEvents, p.roles, p.normsByType, p.complianceSummary)))
  }

  // Answering a question ------------------------------------------------------------------

  /**
   * `EvidencePacket` without the strategy text. `relevant_interactions` is filled only for
   * agent questions and `system_overview` only for overview questions.
   */
  datatype EvidencePacket = EvidencePacket(
    query: string,
    queryType: QueryType,
    relevantAgents: seq<AgentProfile>,
    relevantNorms: seq<Norm>,
    relevantMissions: seq<MissionProfile>,
    relevantLogEntries: seq<LogEntry>,
    relevantCompliance: seq<ComplianceResult>,
    relevantInteractions: seq<InteractionProfile>,
    systemOverview: Option<Overview>,
    totalItemsRetrieved: nat)

  function EvidenceFor(art: Artifacts, query: string, t: QueryType, e: Entities, order: seq<string>): Evidence {
    match t
    case AgentQuery => AgentEvidence(art, e)
    case NormQuery => NormEvidence(art, e)
    case MissionQuery => MissionEvidence(art, e)
    case ComplianceQuery => ComplianceEvidence(art, e, query)
    case TimelineQuery => TimelineEvidence(art, e, order)
    case OverviewQuery => OverviewEvidence(art)
  }

  function Packet(query: string, t: QueryType, ev: Evidence): EvidencePacket {
    EvidencePacket(query, t, ev.agents, ev.norms, ev.missions, ev.logEntries, ev.compliance, ev.interactions, ev.overview,
                   |ev.agents| + |ev.norms| + |ev.missions| + |ev.logEntries| + |ev.compliance| + |ev.interactions|)
  }

  /** What `retrieve` answers, with `normMatches` the norm ids found in the question and `order` the timeline's set order. */
  function Retrieval(art: Artifacts, query: string, normMatches: seq<string>, order: seq<string>): EvidencePacket {
    var e := Extracted(art, query, normMatches);
    var t := ClassifyQuery(query, e);
    Packet(query, t, EvidenceFor(art, query, t, e, order))
  }

  /** The set order is needed only for a timeline question. */
  predicate OrderFits(art: Artifacts, query: string, normMatches: seq<string>, order: seq<string>) {
    var e := Extracted(art, query, normMatches);
    ClassifyQuery(query, e) == TimelineQuery ==> EnumeratesAgents(order, TimelineEntries(art, e))
  }

  /** `retrieve`. */
  method Retrieve(art: Artifacts, query: string, normMatches: seq<string>, order: seq<string>) returns (packet: EvidencePacket)
    requires OrderFits(art, query, normMatches, order)
    ensures packet == Retrieval(art, query, normMatches, order)
  {
    var entities := ExtractEntities(art, query, normMatches);
    var queryType := ClassifyQuery(query, entities);
    var ev := RetrieveEvidence(art, query, queryType, entities, order);
    packet := EvidencePacket(query, queryType, ev.agents, ev.norms, ev.missions, ev.logEntries, ev.compliance,
                             ev.interactions, ev.overview, 0);
    packet := packet.(totalItemsRetrieved := |packet.relevantAgents| + |packet.relevantNorms| + |packet.relevantMissions| +
                                             |packet.relevantLogEntries| + |packet.relevantCompliance| + |packet.relevantInteractions|);
  }

  /** The dispatch of `retrieve` on the kind of question. */
  method RetrieveEvidence(art: Artifacts, query: string, t: QueryType, e: Entities, order: seq<string>) returns (ev: Evidence)
    requires t == TimelineQuery ==> EnumeratesAgents(order, TimelineEntries(art, e))
    ensures ev == EvidenceFor(art, query, t, e, order)
  {
    match t {
      case AgentQuery => ev := RetrieveAgentEvidence(art, e);
      case NormQuery => ev := RetrieveNormEvidence(art, e);
      case MissionQuery => ev := RetrieveMissionEvidence(art, e);
      case ComplianceQuery => ev := RetrieveComplianceEvidence(art, e, query);
      case TimelineQuery => ev := RetrieveTimelineEvidence(art, e, order);
      case OverviewQuery => ev := OverviewEvidence(art);
    }
  }

  /**
   * Whatever the question, the packet's kind is the classification of the question, its
   * count is the number of items retrieved, only an overview carries the system totals,
   * every item comes from the artifacts, and no compliance result in it is `not_applicable`.
   */
  lemma RetrievalFacts(art: Artifacts, query: string, normMatches: seq<string>, order: seq<string>)
    ensures var p := Retrieval(art, query, normMatches, order);
      && p.queryType == ClassifyQuery(query, Extracted(art, query, normMatches))
      && p.totalItemsRetrieved == |p.relevantAgents| + |p.relevantNorms| + |p.relevantMissions| +
                                  |p.relevantLogEntries| + |p.relevantCompliance| + |p.relevantInteractions|
      && (p.systemOverview.Some? <==> p.queryType == OverviewQuery)
      && (p.relevantInteractions != [] ==> p.queryType == AgentQuery)
      && (forall x :: x in p.relevantAgents ==> x in art.profile.agents)
      && (forall x :: x in p.relevantNorms ==> x in art.norms)
      && (forall x :: x in p.relevantMissions ==> x in art.profile.missions)
      && (forall x :: x in p.relevantLogEntries ==> x in art.entries)
      && (forall x :: x in p.relevantCompliance ==> x in art.results && Applicable(x))
      && (forall x :: x in p.relevantInteractions ==> x in art.profile.interactions)
  {
    var e := Extracted(art, query, normMatches);
    var t := ClassifyQuery(query, e);
    match t {
      case AgentQuery =>
        AgentEvidenceFacts(art, e);
      case NormQuery =>
        NormEvidenceFacts(art, e);
      case MissionQuery =>
        MissionEvidenceFacts(art, e);
        var targets := MissionTargets(art, e);
        FilterMember(art.norms, targets, NormOfMissions);
      case ComplianceQuery =>
        ComplianceEvidenceFacts(art, e, query);
        var kept := Filter(art.results, FilterOf(query, e), Kept);
        LookupsMember(art.norms, NormIdOf, Map(ResultNormId, kept));
      case TimelineQuery =>
        var ev := TimelineEvidence(art, e, order);
        FilterMember(art.entries, e.agents, EntryOf);
        LookupsMember(art.profile.agents, ProfileId, order);
        assert forall x :: x in art.entries[..Collections.Min([TimelineLimit, |art.entries|])] ==> x in art.entries;
      case OverviewQuery =>
        var ev := OverviewEvidence(art);
        assert forall x :: x in ev.agents ==> x in art.profile.agents;
    }
  }
}
