/**
 * Role inference and norm applicability (`NormMatcher`): an agent id is bound to one of the
 * roles the norms mention by a tiered string match, and a norm applies to an agent when it
 * names no role or when the role inferred for the agent is the norm's role.
 */
module NormMatcher {
  import opened Wrappers
  import opened Text
  import opened Seqs
  import opened Schemas

  /** `_normalize_string`: lower-case, delete every character that is neither `\w` nor whitespace, strip. */
  function NormalizeString(s: string): string {
    if s == "" then "" else Strip(KeepWordOrSpace(Lower(s)))
  }

  /**
   * A normalised string holds only lower-case word characters and whitespace, with no
   * whitespace at either end. (Stated as a lemma rather than on the function so that
   * matching proofs do not pay for these quantifiers.)
   */
  lemma NormalizeStringChars(s: string)
    ensures var r := NormalizeString(s);
            (forall c :: c in r ==> !IsUpper(c) && (IsWordChar(c) || IsSpace(c))) &&
            (r == [] || (!IsSpace(r[0]) && !IsSpace(r[|r| - 1])))
  {
    if s != "" {
      var low := Lower(s);
      assert forall c :: c in low ==> !IsUpper(c);
      KeepWordOrSpaceFacts(low);
      StripFacts(KeepWordOrSpace(low));
    }
  }

  /** Normalising twice is normalising once. */
  lemma NormalizeIdempotent(s: string)
    ensures NormalizeString(NormalizeString(s)) == NormalizeString(s)
  {
    var r := NormalizeString(s);
    if r != "" {
      assert Lower(r) == r by {
        NormalizeStringChars(s);
        assert forall i :: 0 <= i < |r| ==> r[i] in r;
      }
      assert KeepWordOrSpace(r) == r by {
        NormalizeStringChars(s);
        KeepWordOrSpaceFacts(r);
      }
      assert Strip(r) == r by {
        NormalizeStringChars(s);
        StripFacts(r);
      }
    }
  }

  datatype RoleTier = Exact | Substring | SubstringReverse | Partial

  /** The `(matches, confidence)` pair of `_fuzzy_role_match`. */
  datatype RoleMatch = Hit(tier: RoleTier) | NoRole | NoMatch

  /** Some string of `parts` occurs in `s` (Python's `any(part in s for part in parts)`). */
  predicate AnyPartIn(parts: seq<string>, s: string) {
    |parts| > 0 && (Contains(s, parts[0]) || AnyPartIn(parts[1..], s))
  }

  lemma {:induction false} AnyPartInExists(parts: seq<string>, s: string)
    ensures AnyPartIn(parts, s) <==> exists p :: p in parts && Contains(s, p)
  {
    if |parts| > 0 {
      AnyPartInExists(parts[1..], s);
      if Contains(s, parts[0]) {
        assert parts[0] in parts;
      }
      if exists p :: p in parts && Contains(s, p) {
        var p :| p in parts && Contains(s, p);
        if p != parts[0] {
          assert p in parts[1..];
        }
      }
    }
  }

  /** Some whitespace-separated token of the normalised role occurs in the normalised agent id. */
  predicate SomePartIn(roleNorm: string, agentNorm: string) {
    AnyPartIn(Words(roleNorm), agentNorm)
  }

  /** The tiers of `_fuzzy_role_match`, tried in order on already normalised strings. */
  function MatchNormalized(agentNorm: string, roleNorm: string): RoleMatch {
    if agentNorm == roleNorm then Hit(Exact)
    else if Contains(agentNorm, roleNorm) then Hit(Substring)
    else if Contains(roleNorm, agentNorm) then Hit(SubstringReverse)
    else if SomePartIn(roleNorm, agentNorm) then Hit(Partial)
    else NoMatch
  }

  /** `_fuzzy_role_match`: exact, then role in agent, then agent in role, then a role token in agent. */
  function FuzzyRoleMatch(agentId: string, role: string): RoleMatch {
    if role == "" then NoRole else MatchNormalized(NormalizeString(agentId), NormalizeString(role))
  }

  /** A role matches exactly when one normalised string contains the other or contains a role token. */
  lemma FuzzyRoleMatchHits(agentId: string, role: string)
    requires role != ""
    ensures var a, r := NormalizeString(agentId), NormalizeString(role);
            FuzzyRoleMatch(agentId, role).Hit? <==> Contains(a, r) || Contains(r, a) || SomePartIn(r, a)
    ensures var a, r := NormalizeString(agentId), NormalizeString(role);
            FuzzyRoleMatch(agentId, role) == Hit(Exact) <==> a == r
  {
    var a, r := NormalizeString(agentId), NormalizeString(role);
    if a == r {
      ContainsItself(a);
    }
  }

  /** An agent id that normalises to nothing lies inside every role: it always matches, at worst reversed. */
  lemma EmptyAgentMatchesEveryRole(agentId: string, role: string)
    requires role != "" && NormalizeString(agentId) == ""
    ensures FuzzyRoleMatch(agentId, role) == Hit(Exact) || FuzzyRoleMatch(agentId, role) == Hit(SubstringReverse)
  {
    ContainsEmpty(NormalizeString(role));
  }

  /** Matching only sees the normalised agent id (case, brackets and other punctuation are irrelevant). */
  lemma FuzzyRoleMatchNormalized(agentId: string, role: string)
    ensures FuzzyRoleMatch(NormalizeString(agentId), role) == FuzzyRoleMatch(agentId, role)
  {
    NormalizeIdempotent(agentId);
  }

  datatype Best = Best(role: string, tier: RoleTier)

  /** What norm `n` offers the tie-break for this agent: its role and the tier it matched with. */
  function Candidate(n: Norm, agentId: string): (c: Option<Best>)
    ensures c.Some? ==> Present(n.role) && c.value.role == n.role.value && FuzzyRoleMatch(agentId, n.role.value) == Hit(c.value.tier)
    ensures c.None? ==> !Present(n.role) || !FuzzyRoleMatch(agentId, n.role.value).Hit?
  {
    if !Present(n.role) then None
    else
      match FuzzyRoleMatch(agentId, n.role.value)
      case Hit(t) => Some(Best(n.role.value, t))
      case _ => None
  }

  function Candidates(norms: seq<Norm>, agentId: string): (cs: seq<Option<Best>>)
    ensures |cs| == |norms|
    ensures forall i :: 0 <= i < |norms| ==> cs[i] == Candidate(norms[i], agentId)
  {
    seq(|norms|, i requires 0 <= i < |norms| => Candidate(norms[i], agentId))
  }

  predicate IsSubstringTier(t: RoleTier) {
    t == Substring || t == SubstringReverse
  }

  /** One iteration of the loop in `infer_agent_role`, updating `best_match`/`best_confidence`. */
  function Step(best: Option<Best>, c: Option<Best>): Option<Best> {
    match c
    case None => best
    case Some(b) =>
      if b.tier == Exact || best.None? then c
      else if IsSubstringTier(b.tier) && best.value.tier == Partial then c
      else best
  }

  /** The loop state after the given candidates. */
  function BestOver(cs: seq<Option<Best>>): Option<Best> {
    if |cs| == 0 then None else Step(BestOver(cs[..|cs| - 1]), cs[|cs| - 1])
  }

  datatype Confidence = Tier(tier: RoleTier) | UnknownRole

  /** `AgentRoleMapping` without its explanatory text. */
  datatype RoleMapping = RoleMapping(agentId: string, inferredRole: Option<string>, confidence: Confidence)

  /** The mapping `infer_agent_role` returns. */
  function InferRole(norms: seq<Norm>, agentId: string): RoleMapping {
    match BestOver(Candidates(norms, agentId))
    case None => RoleMapping(agentId, None, UnknownRole)
    case Some(b) => RoleMapping(agentId, Some(b.role), Tier(b.tier))
  }

  /** The body of the loop in `infer_agent_role` up to the tie-break: skip a norm without role, else match it. */
  method MatchCandidate(n: Norm, agentId: string) returns (found: Option<Best>)
    ensures found == Candidate(n, agentId)
  {
    found := None;
    if Present(n.role) {
      var r := FuzzyRoleMatch(agentId, n.role.value);
      if r.Hit? {
        found := Some(Best(n.role.value, r.tier));
      }
    }
  }

  /** `infer_agent_role`: scan the norms' roles, keeping the best match found so far. */
  method InferAgentRole(norms: seq<Norm>, agentId: string) returns (m: RoleMapping)
    ensures m == InferRole(norms, agentId)
  {
    ghost var cs := Candidates(norms, agentId);
    var best: Option<Best> := None;
    var i := 0;
    while i < |norms|
      invariant 0 <= i <= |norms|
      invariant best == BestOver(cs[..i])
    {
      var found := MatchCandidate(norms[i], agentId);
      if found.Some? {
        var tier := found.value.tier;
        if tier == Exact || best.None? {
          best := found;
        } else if (tier == Substring || tier == SubstringReverse) && best.value.tier == Partial {
          best := found;
        }
      }
      assert cs[..i + 1][..i] == cs[..i];
      i := i + 1;
    }
    assert cs[..i] == cs;
    if best.Some? {
      m := RoleMapping(agentId, Some(best.value.role), Tier(best.value.tier));
    } else {
      m := RoleMapping(agentId, None, UnknownRole);
    }
  }

  /** The three classes the tie-break ranks: exact above the substring tiers above partial. */
  datatype TierClass = ExactClass | SubstringClass | PartialClass

  function ClassOf(t: RoleTier): TierClass {
    match t
    case Exact => ExactClass
    case Substring => SubstringClass
    case SubstringReverse => SubstringClass
    case Partial => PartialClass
  }

  predicate HitIn(cs: seq<Option<Best>>, i: int, k: TierClass) {
    0 <= i < |cs| && cs[i].Some? && ClassOf(cs[i].value.tier) == k
  }

  /** The first candidate of class `k`. */
  function FirstHit(cs: seq<Option<Best>>, k: TierClass): (r: Option<nat>)
    ensures r.None? <==> forall i :: 0 <= i < |cs| ==> !HitIn(cs, i, k)
    ensures r.Some? ==> HitIn(cs, r.value, k) && forall i :: 0 <= i < r.value ==> !HitIn(cs, i, k)
  {
    if |cs| == 0 then None
    else
      var p := cs[..|cs| - 1];
      assert forall i :: 0 <= i < |p| ==> (HitIn(p, i, k) <==> HitIn(cs, i, k));
      var prior := FirstHit(p, k);
      if prior.Some? then
        assert HitIn(cs, prior.value, k);
        prior
      else if HitIn(cs, |cs| - 1, k) then Some(|cs| - 1)
      else None
  }

  /** The last candidate of class `k`. */
  function LastHit(cs: seq<Option<Best>>, k: TierClass): (r: Option<nat>)
    ensures r.None? <==> forall i :: 0 <= i < |cs| ==> !HitIn(cs, i, k)
    ensures r.Some? ==> HitIn(cs, r.value, k) && forall i :: r.value < i < |cs| ==> !HitIn(cs, i, k)
  {
    if |cs| == 0 then None
    else if HitIn(cs, |cs| - 1, k) then Some(|cs| - 1)
    else
      var p := cs[..|cs| - 1];
      assert forall i :: 0 <= i < |p| ==> (HitIn(p, i, k) <==> HitIn(cs, i, k));
      var prior := LastHit(p, k);
      assert prior.Some? ==> HitIn(cs, prior.value, k);
      prior
  }

  /**
   * The outcome of the tie-break stated without the loop: the LAST exact match if there is
   * one, else the FIRST substring-tier match, else the FIRST partial match, else nothing.
   */
  function ExpectedBest(cs: seq<Option<Best>>): Option<Best> {
    var e := LastHit(cs, ExactClass);
    var s := FirstHit(cs, SubstringClass);
    var p := FirstHit(cs, PartialClass);
    if e.Some? then cs[e.value]
    else if s.Some? then cs[s.value]
    else if p.Some? then cs[p.value]
    else None
  }

  /** The loop of `infer_agent_role` computes exactly the documented tie-break. */
  lemma {:induction false} BestOverIsExpected(cs: seq<Option<Best>>)
    ensures BestOver(cs) == ExpectedBest(cs)
  {
    if |cs| > 0 {
      var p := cs[..|cs| - 1];
      BestOverIsExpected(p);
      assert forall i :: 0 <= i < |p| ==> p[i] == cs[i];
      assert forall i, k :: 0 <= i < |p| ==> (HitIn(p, i, k) <==> HitIn(cs, i, k));
    }
  }

  /** No role is inferred exactly when no norm's role matches; otherwise the role is one of the norms' roles. */
  lemma InferRoleFacts(norms: seq<Norm>, agentId: string)
    ensures var m := InferRole(norms, agentId);
            m.agentId == agentId &&
            (m.inferredRole.None? <==> forall i :: 0 <= i < |norms| ==> Candidate(norms[i], agentId).None?) &&
            (m.inferredRole.None? <==> m.confidence == UnknownRole)
    ensures var m := InferRole(norms, agentId);
            m.inferredRole.Some? ==> exists i :: 0 <= i < |norms| &&
                                       Candidate(norms[i], agentId) == Some(Best(m.inferredRole.value, m.confidence.tier))
  {
    var cs := Candidates(norms, agentId);
    BestOverIsExpected(cs);
    var e := LastHit(cs, ExactClass);
    var s := FirstHit(cs, SubstringClass);
    var p := FirstHit(cs, PartialClass);
    if e.None? && s.None? && p.None? {
      forall i | 0 <= i < |norms| ensures Candidate(norms[i], agentId).None? {
        assert !HitIn(cs, i, ExactClass) && !HitIn(cs, i, SubstringClass) && !HitIn(cs, i, PartialClass);
      }
    }
  }

  /** `NormApplicability` without its explanatory text. */
  datatype NormApplicability = NormApplicability(normId: string, agentId: string, applies: bool)

  /** The record `check_norm_applicability` returns; the role is inferred afresh on every call. */
  function Applicability(norms: seq<Norm>, normId: string, agentId: string): (r: NormApplicability)
    ensures r.normId == normId && r.agentId == agentId
  {
    match FindNorm(norms, normId)
    case None => NormApplicability(normId, agentId, false)
    case Some(n) =>
      if !Present(n.role) then NormApplicability(normId, agentId, true)
      else NormApplicability(normId, agentId, InferRole(norms, agentId).inferredRole == n.role)
  }

  /** A norm id that no norm carries never applies. */
  lemma ApplicabilityMissingNorm(norms: seq<Norm>, normId: string, agentId: string)
    requires forall i :: 0 <= i < |norms| ==> norms[i].normId != normId
    ensures !Applicability(norms, normId, agentId).applies
  {
    FindNormFacts(norms, normId);
  }

  /** A norm (the first with its id) that names no role applies to every agent. */
  lemma ApplicabilityWithoutRole(norms: seq<Norm>, normId: string, agentId: string, i: int)
    requires IsFirstWithId(norms, normId, i) && !Present(norms[i].role)
    ensures Applicability(norms, normId, agentId).applies
  {
    FindNormFirst(norms, normId, i);
  }

  /**
   * A norm (the first with its id) that names a role applies exactly when the tie-break
   * selects that role for the agent.
   */
  lemma ApplicabilityWithRole(norms: seq<Norm>, normId: string, agentId: string, i: int)
    requires IsFirstWithId(norms, normId, i) && Present(norms[i].role)
    ensures Applicability(norms, normId, agentId).applies <==>
              var e := ExpectedBest(Candidates(norms, agentId));
              e.Some? && e.value.role == norms[i].role.value
  {
    FindNormFirst(norms, normId, i);
    BestOverIsExpected(Candidates(norms, agentId));
  }

  /** A norm with a role applies to an agent only if that role matches the agent's id. */
  lemma ApplicableRoleMatches(norms: seq<Norm>, normId: string, agentId: string)
    requires Applicability(norms, normId, agentId).applies
    requires FindNorm(norms, normId).Some? && Present(FindNorm(norms, normId).value.role)
    ensures FuzzyRoleMatch(agentId, FindNorm(norms, normId).value.role.value).Hit?
  {
    InferRoleFacts(norms, agentId);
  }

  /** `check_norm_applicability`. */
  method CheckNormApplicability(norms: seq<Norm>, normId: string, agentId: string) returns (r: NormApplicability)
    ensures r == Applicability(norms, normId, agentId)
  {
    var norm := FindNorm(norms, normId);
    if norm.None? {
      return NormApplicability(normId, agentId, false);
    }
    var requiredRole := norm.value.role;
    if !Present(requiredRole) {
      return NormApplicability(normId, agentId, true);
    }
    var roleMapping := InferAgentRole(norms, agentId);
    r := NormApplicability(normId, agentId, roleMapping.inferredRole == requiredRole);
  }

  datatype ApplicableNorm = ApplicableNorm(norm: Norm, applicability: NormApplicability)

  /** The list `get_applicable_norms_for_agent` builds after iterating over `ns`. */
  function ApplicableAmong(norms: seq<Norm>, ns: seq<Norm>, agentId: string): seq<ApplicableNorm> {
    if |ns| == 0 then []
    else
      var n := ns[|ns| - 1];
      var a := Applicability(norms, n.normId, agentId);
      ApplicableAmong(norms, ns[..|ns| - 1], agentId) + (if a.applies then [ApplicableNorm(n, a)] else [])
  }

  /** Every listed norm applies, and a norm is listed exactly when it applies to the agent. */
  lemma {:induction false} ApplicableAmongFacts(norms: seq<Norm>, ns: seq<Norm>, agentId: string)
    ensures |ApplicableAmong(norms, ns, agentId)| <= |ns|
    ensures forall x :: x in ApplicableAmong(norms, ns, agentId) ==>
              x.norm in ns && x.applicability == Applicability(norms, x.norm.normId, agentId) && x.applicability.applies
    ensures forall n :: n in ns && Applicability(norms, n.normId, agentId).applies ==>
              ApplicableNorm(n, Applicability(norms, n.normId, agentId)) in ApplicableAmong(norms, ns, agentId)
  {
    if |ns| > 0 {
      var p := ns[..|ns| - 1];
      ApplicableAmongFacts(norms, p, agentId);
      assert ns == p + [ns[|ns| - 1]];
    }
  }

  /** `get_applicable_norms_for_agent`. */
  method GetApplicableNormsForAgent(norms: seq<Norm>, agentId: string) returns (applicable: seq<ApplicableNorm>)
    ensures applicable == ApplicableAmong(norms, norms, agentId)
  {
    applicable := [];
    var i := 0;
    while i < |norms|
      invariant 0 <= i <= |norms|
      invariant applicable == ApplicableAmong(norms, norms[..i], agentId)
    {
      var applicability := CheckNormApplicability(norms, norms[i].normId, agentId);
      if applicability.applies {
        applicable := applicable + [ApplicableNorm(norms[i], applicability)];
      }
      assert norms[..i + 1][..i] == norms[..i];
      i := i + 1;
    }
    assert norms[..i] == norms;
  }

  /** `build_role_mapping`: one entry per agent, each the inferred mapping. */
  method BuildRoleMapping(norms: seq<Norm>, agents: seq<string>) returns (roleMap: map<string, RoleMapping>)
    ensures roleMap.Keys == set a | a in agents
    ensures forall a :: a in roleMap ==> roleMap[a] == InferRole(norms, a)
    ensures NoDup(agents) ==> |roleMap| == |agents|
  {
    roleMap := map[];
    var i := 0;
    while i < |agents|
      invariant 0 <= i <= |agents|
      invariant roleMap.Keys == set a | a in agents[..i]
      invariant forall a :: a in roleMap ==> roleMap[a] == InferRole(norms, a)
    {
      var m := InferAgentRole(norms, agents[i]);
      roleMap := roleMap[agents[i] := m];
      assert agents[..i + 1] == agents[..i] + [agents[i]];
      i := i + 1;
    }
    assert agents[..i] == agents;
    if NoDup(agents) {
      NoDupCardinality(agents);
    }
  }

  /** Norm `n` against agent `a`, as one cell of the matrix. */
  function ApplicabilityOf(norms: seq<Norm>): (Norm, string) -> NormApplicability {
    (n: Norm, a: string) => Applicability(norms, n.normId, a)
  }

  /** The inner loop of `build_applicability_matrix`: one norm against every agent. */
  method ApplicabilityRow(norms: seq<Norm>, n: Norm, agents: seq<string>) returns (row: seq<NormApplicability>)
    ensures row == Row(n, agents, ApplicabilityOf(norms))
  {
    ghost var f := ApplicabilityOf(norms);
    row := [];
    var j := 0;
    while j < |agents|
      invariant 0 <= j <= |agents|
      invariant row == Row(n, agents[..j], f)
    {
      var applicability := CheckNormApplicability(norms, n.normId, agents[j]);
      row := row + [applicability];
      assert agents[..j + 1][..j] == agents[..j];
      j := j + 1;
    }
    assert agents[..j] == agents;
  }

  /** `build_applicability_matrix`: the norms x agents cross product, norm-major. */
  method BuildApplicabilityMatrix(norms: seq<Norm>, agents: seq<string>) returns (matrix: seq<NormApplicability>)
    ensures matrix == Grid(norms, agents, ApplicabilityOf(norms))
  {
    ghost var f := ApplicabilityOf(norms);
    matrix := [];
    var i := 0;
    while i < |norms|
      invariant 0 <= i <= |norms|
      invariant matrix == Grid(norms[..i], agents, f)
    {
      var row := ApplicabilityRow(norms, norms[i], agents);
      matrix := matrix + row;
      assert norms[..i + 1][..i] == norms[..i];
      i := i + 1;
    }
    assert norms[..i] == norms;
  }

  /** The matrix is dense and norm-major: record `Offset(i, |agents|) + j` (that is, `i * |agents| + j`) is norm `i` against agent `j`. */
  lemma MatrixShape(norms: seq<Norm>, agents: seq<string>)
    ensures |Grid(norms, agents, ApplicabilityOf(norms))| == Offset(|norms|, |agents|)
    ensures forall i, j {:trigger Offset(i, |agents|), agents[j]} :: 0 <= i < |norms| && 0 <= j < |agents| ==>
              Offset(i, |agents|) + j < |Grid(norms, agents, ApplicabilityOf(norms))| &&
              Grid(norms, agents, ApplicabilityOf(norms))[Offset(i, |agents|) + j] == Applicability(norms, norms[i].normId, agents[j])
  {
    var f := ApplicabilityOf(norms);
    GridLen(norms, agents, f);
    forall i, j {:trigger Offset(i, |agents|), agents[j]} | 0 <= i < |norms| && 0 <= j < |agents|
      ensures Offset(i, |agents|) + j < |Grid(norms, agents, f)| &&
              Grid(norms, agents, f)[Offset(i, |agents|) + j] == Applicability(norms, norms[i].normId, agents[j])
    {
      GridCell(norms, agents, f, i, j);
    }
  }

  /**
   * The matrix agrees with the role mapping: a norm naming a role applies to an agent exactly
   * when the mapping built for that agent inferred that role, so re-inferring on every call
   * gives the same answer as inferring once per agent.
   */
  lemma MatrixAgreesWithRoleMapping(norms: seq<Norm>, roleMap: map<string, RoleMapping>, normId: string, agentId: string)
    requires agentId in roleMap && roleMap[agentId] == InferRole(norms, agentId)
    requires FindNorm(norms, normId).Some?
    ensures Applicability(norms, normId, agentId).applies <==>
              !Present(FindNorm(norms, normId).value.role) ||
              roleMap[agentId].inferredRole == FindNorm(norms, normId).value.role
  {
  }
}
