/**
 * The canonical records every phase reads and writes: norms with their three-valued type,
 * log entries with an optional timestamp and sequence number, the process-wide temporal
 * strategy, and the two collections with their derived counts and validation.
 */
module Schemas {
  import opened Wrappers
  import opened RawData
  import opened Sorting

  datatype NormType = Obligation | Prohibition | Permission

  /** The string value the enumeration serialises to. */
  function NormTypeValue(t: NormType): string {
    match t
    case Obligation => "obligation"
    case Prohibition => "prohibition"
    case Permission => "permission"
  }

  /** Validation of a string into the enumeration: only the three values are accepted. */
  function NormTypeOf(s: string): (r: Option<NormType>)
    ensures r.Some? <==> s in {"obligation", "prohibition", "permission"}
    ensures r.Some? ==> NormTypeValue(r.value) == s
  {
    if s == "obligation" then Some(Obligation)
    else if s == "prohibition" then Some(Prohibition)
    else if s == "permission" then Some(Permission)
    else None
  }

  lemma NormTypeRoundTrip(t: NormType)
    ensures NormTypeOf(NormTypeValue(t)) == Some(t)
  {
  }

  datatype Norm = Norm(
    normId: string,
    normType: NormType,
    role: Option<string>,
    mission: Option<string>,
    condition: Option<string>,
    action: Option<string>,
    metadata: map<string, Json>)

  /** Python truthiness of an optional string field: present and non-empty. */
  predicate Present(s: Option<string>) {
    s.Some? && s.value != ""
  }

  datatype ParsedNorms = ParsedNorms(norms: seq<Norm>, totalCount: nat)

  /** Construction followed by `model_post_init`, which sets the count. */
  function MakeParsedNorms(norms: seq<Norm>): (p: ParsedNorms)
    ensures p.norms == norms && p.totalCount == |norms|
  {
    ParsedNorms(norms, |norms|)
  }

  /** Norm `i` is the first one whose id is `normId`. */
  predicate IsFirstWithId(norms: seq<Norm>, normId: string, i: int) {
    0 <= i < |norms| && norms[i].normId == normId && forall k :: 0 <= k < i ==> norms[k].normId != normId
  }

  /** `next((n for n in norms if n['norm_id'] == norm_id), None)`: the first norm with that id. */
  function FindNorm(norms: seq<Norm>, normId: string): Option<Norm> {
    if |norms| == 0 then None
    else
      var prior := FindNorm(norms[..|norms| - 1], normId);
      if prior.Some? then prior
      else if norms[|norms| - 1].normId == normId then Some(norms[|norms| - 1])
      else None
  }

  /** The search finds nothing exactly when no norm has the id, and otherwise the first norm that has it. */
  lemma {:induction false} FindNormFacts(norms: seq<Norm>, normId: string)
    ensures var r := FindNorm(norms, normId);
      && (r.None? <==> forall i :: 0 <= i < |norms| ==> norms[i].normId != normId)
      && (r.Some? ==> exists i :: IsFirstWithId(norms, normId, i) && norms[i] == r.value)
  {
    if |norms| > 0 {
      var init := norms[..|norms| - 1];
      FindNormFacts(init, normId);
      if FindNorm(init, normId).Some? {
        var i :| IsFirstWithId(init, normId, i) && init[i] == FindNorm(init, normId).value;
        assert IsFirstWithId(norms, normId, i);
      } else if norms[|norms| - 1].normId == normId {
        assert IsFirstWithId(norms, normId, |norms| - 1);
      }
    }
  }

  /** The norm found is the first with its id. */
  lemma FindNormFirst(norms: seq<Norm>, normId: string, i: int)
    requires IsFirstWithId(norms, normId, i)
    ensures FindNorm(norms, normId) == Some(norms[i])
  {
    FindNormFacts(norms, normId);
    assert FindNorm(norms, normId).Some?;
    var j :| IsFirstWithId(norms, normId, j) && norms[j] == FindNorm(norms, normId).value;
    assert norms[i].normId == normId && norms[j].normId == normId;
  }

  datatype TemporalStrategy = Timestamp | Sequence

  /** Timestamps are modelled as integers on a totally ordered time line. */
  datatype LogEntry = LogEntry(
    entryId: string,
    agentId: string,
    action: string,
    timestamp: Option<int>,
    sequenceNumber: Option<int>,
    metadata: map<string, Json>)

  datatype Marker = AtTime(time: int) | AtSequence(position: int)

  /** `get_temporal_marker`: the timestamp if there is one, else the sequence number, else an error. */
  function GetTemporalMarker(e: LogEntry): (r: Result<Marker>)
    ensures r.Err? <==> e.timestamp.None? && e.sequenceNumber.None?
    ensures e.timestamp.Some? ==> r == Ok(AtTime(e.timestamp.value))
    ensures e.timestamp.None? && e.sequenceNumber.Some? ==> r == Ok(AtSequence(e.sequenceNumber.value))
  {
    if e.timestamp.Some? then Ok(AtTime(e.timestamp.value))
    else if e.sequenceNumber.Some? then Ok(AtSequence(e.sequenceNumber.value))
    else Err("entry has neither timestamp nor sequence_number")
  }

  /** The marker the strategy makes authoritative is present. */
  predicate HasMarkerFor(strategy: TemporalStrategy, e: LogEntry) {
    match strategy
    case Timestamp => e.timestamp.Some?
    case Sequence => e.sequenceNumber.Some?
  }

  predicate ConsistentWith(strategy: TemporalStrategy, entries: seq<LogEntry>) {
    forall i :: 0 <= i < |entries| ==> HasMarkerFor(strategy, entries[i])
  }

  datatype ParsedLogs = ParsedLogs(entries: seq<LogEntry>, strategy: TemporalStrategy, totalCount: nat)

  /** Construction followed by `model_post_init`: the count is set and the strategy is checked against every entry. */
  function MakeParsedLogs(entries: seq<LogEntry>, strategy: TemporalStrategy): (r: Result<ParsedLogs>)
    ensures r.Ok? <==> ConsistentWith(strategy, entries)
    ensures r.Ok? ==> r.value.entries == entries && r.value.strategy == strategy && r.value.totalCount == |entries|
  {
    if ConsistentWith(strategy, entries) then Ok(ParsedLogs(entries, strategy, |entries|))
    else if strategy == Timestamp then Err("Temporal strategy is TIMESTAMP but some entries lack timestamps")
    else Err("Temporal strategy is SEQUENCE but some entries lack sequence numbers")
  }

  /** Sort keys; the fallback 0 is never used on a consistent collection. */
  function TimestampKey(e: LogEntry): int {
    if e.timestamp.Some? then e.timestamp.value else 0
  }

  function SequenceKey(e: LogEntry): int {
    if e.sequenceNumber.Some? then e.sequenceNumber.value else 0
  }

  function StrategyKey(strategy: TemporalStrategy): LogEntry -> int {
    if strategy == Timestamp then TimestampKey else SequenceKey
  }

  /** The marker the strategy orders by, for an entry that carries it. */
  function MarkerValue(strategy: TemporalStrategy, e: LogEntry): int
    requires HasMarkerFor(strategy, e)
  {
    if strategy == Timestamp then e.timestamp.value else e.sequenceNumber.value
  }

  /** Sorting keeps every entry's marker present. */
  lemma SortedKeepsMarkers(strategy: TemporalStrategy, entries: seq<LogEntry>, r: seq<LogEntry>)
    requires ConsistentWith(strategy, entries)
    requires multiset(r) == multiset(entries)
    ensures ConsistentWith(strategy, r)
  {
    forall i | 0 <= i < |r| ensures HasMarkerFor(strategy, r[i]) {
      assert r[i] in multiset(entries);
      var k :| 0 <= k < |entries| && entries[k] == r[i];
    }
  }

  /** `get_sorted_entries`: a permutation of the entries, non-decreasing in the strategy's marker. */
  function GetSortedEntries(p: ParsedLogs): (r: seq<LogEntry>)
    requires ConsistentWith(p.strategy, p.entries)
    ensures multiset(r) == multiset(p.entries)
    ensures ConsistentWith(p.strategy, r)
    ensures forall i, j :: 0 <= i < j < |r| ==> MarkerValue(p.strategy, r[i]) <= MarkerValue(p.strategy, r[j])
  {
    var key := StrategyKey(p.strategy);
    SortByCorrect(p.entries, key);
    var r := SortBy(p.entries, key);
    SortedKeepsMarkers(p.strategy, p.entries, r);
    r
  }
}
