/**
 * The JSON/YAML norm parser: a loaded document becomes `Norm` values. Field names are looked
 * up through alias lists, a missing id is derived from the norm's position, the norm type is
 * lower-cased and must be one of the three types, the remaining keys become metadata, and
 * norms that fail to validate are skipped.
 */
module ParseNorms {
  import opened Wrappers
  import opened Text
  import opened RawData
  import opened Seqs
  import opened Schemas

  const NormIdAliases: seq<string> := ["norm_id", "id", "norm_identifier", "normId"]
  const NormTypeAliases: seq<string> := ["norm_type", "type", "normType", "kind"]
  const RoleAliases: seq<string> := ["role", "agent_role", "agentRole"]
  const MissionAliases: seq<string> := ["mission", "goal", "objective"]
  const ConditionAliases: seq<string> := ["condition", "when", "if", "precondition"]
  const ActionAliases: seq<string> := ["action", "what", "behavior", "prescribed_action"]

  /** The keys that never reach a norm's metadata. */
  const MetadataExcluded: seq<string> :=
    ["norm_id", "id", "norm_type", "type", "role", "mission", "condition", "action", "when", "if", "what"]

  /** The alias list of a canonical field; a field without one is looked up under its own name. */
  function FieldAliases(field: string): (aliases: seq<string>)
    ensures |aliases| > 0 && aliases[0] == field
  {
    if field == "norm_id" then NormIdAliases
    else if field == "norm_type" then NormTypeAliases
    else if field == "role" then RoleAliases
    else if field == "mission" then MissionAliases
    else if field == "condition" then ConditionAliases
    else if field == "action" then ActionAliases
    else [field]
  }

  /** `NormParser._normalize_field_name`. */
  function NormalizeFieldName(raw: map<string, Json>, field: string): Json {
    Lookup(raw, FieldAliases(field))
  }

  /** Of two aliases present, the earlier in the priority list wins; with none present the field reads as `None`. */
  lemma FieldPriority(raw: map<string, Json>, field: string, i: nat)
    requires i < |FieldAliases(field)| && FieldAliases(field)[i] in raw
    requires forall k :: 0 <= k < i ==> FieldAliases(field)[k] !in raw
    ensures NormalizeFieldName(raw, field) == raw[FieldAliases(field)[i]]
  {
    LookupFirstPresent(raw, FieldAliases(field), i);
  }

  lemma FieldAbsent(raw: map<string, Json>, field: string)
    requires forall k :: 0 <= k < |FieldAliases(field)| ==> FieldAliases(field)[k] !in raw
    ensures NormalizeFieldName(raw, field) == JNull
  {
    LookupNonePresent(raw, FieldAliases(field));
  }

  /**
   * The norm type: a falsy value fails the record's validation, a truthy non-string has no
   * `lower`, and a string is lower-cased and must then be one of the three values.
   */
  function NormTypeField(v: Json): Result<NormType> {
    if !Truthy(v) then Err("norm_type is required")
    else if !v.JStr? then Err("norm_type is not a string")
    else match NormTypeOf(Lower(v.s))
      case Some(t) => Ok(t)
      case None => Err("Invalid norm_type")
  }

  /** A norm type is accepted exactly when it is a string whose lower-case form is one of the three values, which it then names. */
  lemma NormTypeFieldFacts(v: Json)
    ensures NormTypeField(v).Ok? <==> v.JStr? && Lower(v.s) in {"obligation", "prohibition", "permission"}
    ensures NormTypeField(v).Ok? ==> NormTypeValue(NormTypeField(v).value) == Lower(v.s)
  {
    if v.JStr? && Lower(v.s) in {"obligation", "prohibition", "permission"} {
      assert |Lower(v.s)| == |v.s|;
    }
  }

  /** Case does not matter. */
  lemma NormTypeIgnoresCase()
    ensures NormTypeField(JStr("Obligation")) == Ok(Obligation)
    ensures NormTypeField(JStr("PERMISSION")) == Ok(Permission)
    ensures NormTypeField(JStr("duty")).Err?
  {
    assert Lower("Obligation") == "obligation";
    assert Lower("PERMISSION") == "permission";
    assert Lower("duty") == "duty";
  }

  /** An optional string field: absent or null gives `None`, a string is kept as it is, anything else is rejected. */
  function OptString(v: Json): (r: Result<Option<string>>)
    ensures r.Ok? <==> v.JNull? || v.JStr?
    ensures v.JStr? ==> r == Ok(Some(v.s))
    ensures v.JNull? ==> r == Ok(None)
  {
    match v
    case JNull => Ok(None)
    case JStr(s) => Ok(Some(s))
    case _ => Err("value is not a valid string")
  }

  /** The id the norm names, or `norm_<index>` when that is missing or falsy. */
  function NormIdFor(f: map<string, Json>, index: nat): Result<string> {
    var v := NormalizeFieldName(f, "norm_id");
    if !Truthy(v) then Ok("norm_" + NatToString(index))
    else if v.JStr? then Ok(v.s)
    else Err("norm_id is not a valid string")
  }

  /** `_parse_single_norm` followed by the record model's validation; `Err` is the exception the loop catches. */
  function ParseSingleNorm(raw: Json, index: nat): Result<Norm> {
    if !raw.JDict? then Err("norm is not a mapping")
    else
      var f := raw.fields;
      var normId := NormIdFor(f, index);
      var normType := NormTypeField(NormalizeFieldName(f, "norm_type"));
      var role := OptString(NormalizeFieldName(f, "role"));
      var mission := OptString(NormalizeFieldName(f, "mission"));
      var condition := OptString(NormalizeFieldName(f, "condition"));
      var action := OptString(NormalizeFieldName(f, "action"));
      if normId.Err? then Err(normId.error)
      else if normType.Err? then Err(normType.error)
      else if role.Err? then Err(role.error)
      else if mission.Err? then Err(mission.error)
      else if condition.Err? then Err(condition.error)
      else if action.Err? then Err(action.error)
      else Ok(Norm(normId.value, normType.value, role.value, mission.value, condition.value, action.value,
                   Without(f, MetadataExcluded)))
  }

  /** What a successfully parsed norm holds: its fields under their aliases, a default id from its position, and the other keys as metadata. */
  lemma ParseSingleNormFacts(raw: Json, index: nat)
    requires ParseSingleNorm(raw, index).Ok?
    ensures raw.JDict?
    ensures Truthy(NormalizeFieldName(raw.fields, "norm_id")) ==>
      JStr(ParseSingleNorm(raw, index).value.normId) == NormalizeFieldName(raw.fields, "norm_id")
    ensures !Truthy(NormalizeFieldName(raw.fields, "norm_id")) ==> ParseSingleNorm(raw, index).value.normId == "norm_" + NatToString(index)
    ensures NormTypeValue(ParseSingleNorm(raw, index).value.normType) == Lower(NormalizeFieldName(raw.fields, "norm_type").s)
    ensures OptString(NormalizeFieldName(raw.fields, "role")) == Ok(ParseSingleNorm(raw, index).value.role)
    ensures OptString(NormalizeFieldName(raw.fields, "mission")) == Ok(ParseSingleNorm(raw, index).value.mission)
    ensures OptString(NormalizeFieldName(raw.fields, "condition")) == Ok(ParseSingleNorm(raw, index).value.condition)
    ensures OptString(NormalizeFieldName(raw.fields, "action")) == Ok(ParseSingleNorm(raw, index).value.action)
    ensures forall k :: k in ParseSingleNorm(raw, index).value.metadata <==> k in raw.fields && k !in MetadataExcluded
    ensures forall k :: k in ParseSingleNorm(raw, index).value.metadata ==> ParseSingleNorm(raw, index).value.metadata[k] == raw.fields[k]
  {
    NormTypeFieldFacts(NormalizeFieldName(raw.fields, "norm_type"));
  }

  /** Default ids of norms at different positions never collide. */
  lemma DefaultIdsDistinct(i: nat, j: nat)
    requires i != j
    ensures "norm_" + NatToString(i) != "norm_" + NatToString(j)
  {
    if "norm_" + NatToString(i) == "norm_" + NatToString(j) {
      assert NatToString(i) == ("norm_" + NatToString(i))[5..];
      NatToStringInjective(i, j);
    }
  }

  /** The input shapes of `parse`: a mapping with `norms`, any other mapping as a single norm, or a list. */
  function SelectRawNorms(doc: Json): Result<seq<Json>> {
    match doc
    case JDict(fields) =>
      if "norms" in fields then
        (if fields["norms"].JList? then Ok(fields["norms"].items) else Err("wrapped norms are not a list"))
      else Ok([doc])
    case JList(items) => Ok(items)
    case _ => Err("Norm file must contain a dict or list")
  }

  lemma InputShapes(fields: map<string, Json>, items: seq<Json>, doc: Json)
    ensures "norms" in fields && fields["norms"] == JList(items) ==> SelectRawNorms(JDict(fields)) == Ok(items)
    ensures "norms" !in fields ==> SelectRawNorms(JDict(fields)) == Ok([JDict(fields)])
    ensures SelectRawNorms(JList(items)) == Ok(items)
    ensures !doc.JDict? && !doc.JList? ==> SelectRawNorms(doc).Err?
  {
  }

  /** The outcome of `_parse_single_norm` on every record, by position. */
  function Attempts(raws: seq<Json>): (rs: seq<Result<Norm>>)
    ensures |rs| == |raws|
  {
    seq(|raws|, i requires 0 <= i < |raws| => ParseSingleNorm(raws[i], i))
  }

  /** The norms of the records that parse, in record order; failing records are skipped. */
  function ParseNormEntries(raws: seq<Json>): seq<Norm> {
    Oks(Attempts(raws), |raws|)
  }

  /**
   * Skipping keeps order: with `pos` the positions of the records that parse, the k-th norm
   * is the parse of record `pos[k]`, the positions strictly increase, and a record is among
   * them exactly when it parses.
   */
  lemma SkippingKeepsOrder(raws: seq<Json>)
    ensures var pos := OkPositions(Attempts(raws), |raws|);
      && |pos| == |ParseNormEntries(raws)| <= |raws|
      && (forall k :: 0 <= k < |pos| ==>
            pos[k] < |raws| && ParseSingleNorm(raws[pos[k]], pos[k]) == Ok(ParseNormEntries(raws)[k]))
      && (forall k, l :: 0 <= k < l < |pos| ==> pos[k] < pos[l])
      && (forall i :: 0 <= i < |raws| ==> (ParseSingleNorm(raws[i], i).Ok? <==> i in pos))
  {
    var rs := Attempts(raws);
    OksAt(rs, |raws|);
    OkPositionsOrdered(rs, |raws|);
    OkPositionsExact(rs, |raws|);
  }

  /** `NormParser.parse` on a loaded document. */
  function ParseSpec(doc: Json): Result<ParsedNorms> {
    match SelectRawNorms(doc)
    case Err(msg) => Err(msg)
    case Ok(raws) => Ok(MakeParsedNorms(ParseNormEntries(raws)))
  }

  method Parse(doc: Json) returns (r: Result<ParsedNorms>)
    ensures r == ParseSpec(doc)
  {
    var selected := SelectRawNorms(doc);
    if selected.Err? {
      return Err(selected.error);
    }
    var norms := ParseRecords(selected.value);
    r := Ok(MakeParsedNorms(norms));
  }

  /** The loop of `parse`: each record parsed in turn, the ones that fail skipped. */
  method ParseRecords(raws: seq<Json>) returns (norms: seq<Norm>)
    ensures norms == ParseNormEntries(raws)
  {
    norms := [];
    for idx := 0 to |raws|
      invariant norms == Oks(Attempts(raws), idx)
    {
      var norm := ParseSingleNorm(raws[idx], idx);
      assert Attempts(raws)[idx] == norm;
      if norm.Ok? {
        norms := norms + [norm.value];
      }
    }
  }

  /** Skipping never fails the whole parse: an accepted shape always yields a collection, of at most as many norms as records. */
  lemma ParseNeverFailsOnAcceptedShape(doc: Json)
    requires SelectRawNorms(doc).Ok?
    ensures ParseSpec(doc).Ok?
    ensures ParseSpec(doc).value.totalCount <= |SelectRawNorms(doc).value|
  {
    var raws := SelectRawNorms(doc).value;
    OksAt(Attempts(raws), |raws|);
  }

  /** Which reader `parse_norms` hands a file to, by its lower-cased suffix. */
  datatype NormFormat = XmlNorms | StructuredNorms | UnsupportedNorms

  function NormFormatFor(suffix: string): NormFormat {
    var s := Lower(suffix);
    if s == ".xml" then XmlNorms
    else if s == ".json" || s == ".yaml" || s == ".yml" then StructuredNorms
    else UnsupportedNorms
  }

  /** The loader `NormParser.parse` picks by suffix; any other suffix is rejected. */
  datatype Loader = JsonLoader | YamlLoader

  function LoaderFor(suffix: string): Result<Loader> {
    var s := Lower(suffix);
    if s == ".json" then Ok(JsonLoader)
    else if s == ".yaml" || s == ".yml" then Ok(YamlLoader)
    else Err("Unsupported norm file format")
  }

  /** The dispatch only hands the structured parser files it accepts, and hands it every file it accepts. */
  lemma DispatchMatchesLoader(suffix: string)
    ensures NormFormatFor(suffix) == StructuredNorms <==> LoaderFor(suffix).Ok?
    ensures NormFormatFor(suffix) == XmlNorms ==> LoaderFor(suffix).Err?
  {
  }
}
