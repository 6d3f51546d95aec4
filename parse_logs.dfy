/**
 * The structured execution-log parser: JSON documents and CSV tables of raw records become
 * `LogEntry` values. Field names are looked up through alias lists, the temporal strategy is
 * chosen by the share of records carrying a timestamp, missing ids and sequence numbers get
 * defaults from the record's position, the remaining keys become metadata, and records that
 * fail to validate are skipped.
 */
module ParseLogs {
  import opened Wrappers
  import opened Text
  import opened RawData
  import opened Seqs
  import opened Schemas

  const EntryIdAliases: seq<string> := ["entry_id", "id", "event_id", "log_id", "eventId"]
  const AgentIdAliases: seq<string> := ["agent_id", "agent", "agentId", "actor", "agent_name"]
  const ActionAliases: seq<string> := ["action", "event", "activity", "what", "behavior"]
  const TimestampAliases: seq<string> := ["timestamp", "time", "datetime", "when", "created_at"]
  const SequenceAliases: seq<string> := ["sequence_number", "sequence", "order", "index", "seq"]

  /** The keys that never reach an entry's metadata (a fixed list, not the alias lists). */
  const MetadataExcluded: seq<string> :=
    ["entry_id", "id", "event_id", "agent_id", "agent", "action", "event", "timestamp", "time", "sequence_number"]

  /** The alias list of a canonical field; a field without one is looked up under its own name. */
  function FieldAliases(field: string): (aliases: seq<string>)
    ensures |aliases| > 0 && aliases[0] == field
  {
    if field == "entry_id" then EntryIdAliases
    else if field == "agent_id" then AgentIdAliases
    else if field == "action" then ActionAliases
    else if field == "timestamp" then TimestampAliases
    else if field == "sequence_number" then SequenceAliases
    else [field]
  }

  /** `_normalize_field_name`. */
  function NormalizeFieldName(raw: map<string, Json>, field: string): Json {
    Lookup(raw, FieldAliases(field))
  }

  /** The canonical name always wins over its aliases, and a field with no alias present reads as `None`. */
  lemma CanonicalNameWins(raw: map<string, Json>, field: string)
    ensures field in raw ==> NormalizeFieldName(raw, field) == raw[field]
    ensures (forall a :: a in FieldAliases(field) ==> a !in raw) ==> NormalizeFieldName(raw, field) == JNull
  {
    var aliases := FieldAliases(field);
    if field in raw {
      LookupFirstPresent(raw, aliases, 0);
    }
    if forall a :: a in aliases ==> a !in raw {
      assert forall k :: 0 <= k < |aliases| ==> aliases[k] in aliases;
      LookupNonePresent(raw, aliases);
    }
  }

  /**
   * The keys of a record. An item that is not a mapping has none: a string or a list that no
   * timestamp alias occurs in reads as untimed, and the other items raise (`TimestampLookupRaises`).
   */
  function Fields(v: Json): map<string, Json> {
    if v.JDict? then v.fields else map[]
  }

  /**
   * `_normalize_field_name(item, 'timestamp')` raises on an item that is not a mapping: `in`
   * raises on a number, a boolean or null, and on a string (substring test) or a list (element
   * test) it finds an alias that is then used as an index, which raises.
   */
  predicate TimestampLookupRaises(v: Json) {
    match v
    case JDict(_) => false
    case JStr(s) => exists k :: 0 <= k < |TimestampAliases| && Contains(s, TimestampAliases[k])
    case JList(items) => exists k :: 0 <= k < |TimestampAliases| && JStr(TimestampAliases[k]) in items
    case _ => true
  }

  /** Some record makes the detection raise. */
  predicate UnreadableRecords(raws: seq<Json>) {
    exists i :: 0 <= i < |raws| && TimestampLookupRaises(raws[i])
  }

  /** The lookup raises on exactly the non-mappings that are scalars or that an alias occurs in. */
  lemma TimestampLookupRaisesFacts(v: Json)
    ensures v.JDict? ==> !TimestampLookupRaises(v)
    ensures v.JNull? || v.JBool? || v.JNum? ==> TimestampLookupRaises(v)
    ensures v.JStr? ==> (TimestampLookupRaises(v) <==> exists a :: a in TimestampAliases && Contains(v.s, a))
    ensures v.JList? ==> (TimestampLookupRaises(v) <==> exists a :: a in TimestampAliases && JStr(a) in v.items)
    ensures !TimestampLookupRaises(v) ==> (!v.JDict? ==> !HasTimestamp(v))
  {
    if v.JStr? && exists a :: a in TimestampAliases && Contains(v.s, a) {
      var a :| a in TimestampAliases && Contains(v.s, a);
      var k :| 0 <= k < |TimestampAliases| && TimestampAliases[k] == a;
    }
    if v.JList? && exists a :: a in TimestampAliases && JStr(a) in v.items {
      var a :| a in TimestampAliases && JStr(a) in v.items;
      var k :| 0 <= k < |TimestampAliases| && TimestampAliases[k] == a;
    }
    if !v.JDict? {
      LookupNonePresent(Fields(v), TimestampAliases);
    }
  }

  /** The record's timestamp alias holds something other than `None` and `""`. */
  predicate HasTimestamp(v: Json) {
    var ts := NormalizeFieldName(Fields(v), "timestamp");
    ts != JNull && ts != JStr("")
  }

  /** The number of records among the first `n` that carry a timestamp. */
  function TimestampCount(raws: seq<Json>, n: nat): (count: nat)
    requires n <= |raws|
    ensures count <= n
    ensures count == n <==> forall i :: 0 <= i < n ==> HasTimestamp(raws[i])
  {
    if n == 0 then 0 else TimestampCount(raws, n - 1) + (if HasTimestamp(raws[n - 1]) then 1 else 0)
  }

  /**
   * `_detect_temporal_strategy`: SEQUENCE for no records, otherwise TIMESTAMP exactly when at
   * least 80 % of the records carry a timestamp, written as the integer test 5·count ≥ 4·n.
   */
  function DetectStrategy(raws: seq<Json>): TemporalStrategy {
    if |raws| == 0 then Sequence
    else if 5 * TimestampCount(raws, |raws|) >= 4 * |raws| then Timestamp
    else Sequence
  }

  /** Every record timestamped gives TIMESTAMP; fewer than 80 % gives SEQUENCE; no record at all gives SEQUENCE. */
  lemma DetectStrategyFacts(raws: seq<Json>)
    ensures |raws| == 0 ==> DetectStrategy(raws) == Sequence
    ensures |raws| > 0 && (forall i :: 0 <= i < |raws| ==> HasTimestamp(raws[i])) ==> DetectStrategy(raws) == Timestamp
    ensures DetectStrategy(raws) == Timestamp ==> |raws| > 0 && 5 * TimestampCount(raws, |raws|) >= 4 * |raws|
    ensures (forall i :: 0 <= i < |raws| ==> !HasTimestamp(raws[i])) ==> DetectStrategy(raws) == Sequence
  {
    if forall i :: 0 <= i < |raws| ==> !HasTimestamp(raws[i]) {
      NoTimestampCount(raws, |raws|);
    }
  }

  lemma {:induction false} NoTimestampCount(raws: seq<Json>, n: nat)
    requires n <= |raws|
    requires forall i :: 0 <= i < n ==> !HasTimestamp(raws[i])
    ensures TimestampCount(raws, n) == 0
  {
    if n > 0 {
      NoTimestampCount(raws, n - 1);
    }
  }

  const UnreadableRecord := "record cannot be searched for a timestamp"

  /** `_detect_temporal_strategy` with its failure: the 80 % rule, unless some record makes the lookup raise. */
  function Detect(raws: seq<Json>): Result<TemporalStrategy> {
    if UnreadableRecords(raws) then Err(UnreadableRecord)
    else Ok(DetectStrategy(raws))
  }

  method DetectTemporalStrategy(raws: seq<Json>) returns (r: Result<TemporalStrategy>)
    ensures r.Err? <==> exists i :: 0 <= i < |raws| && TimestampLookupRaises(raws[i])
    ensures r.Err? ==> r.error == UnreadableRecord
    ensures r.Ok? ==> r.value == DetectStrategy(raws)
  {
    if |raws| == 0 {
      return Ok(Sequence);
    }
    var count := 0;
    for i := 0 to |raws|
      invariant count == TimestampCount(raws, i)
      invariant forall j :: 0 <= j < i ==> !TimestampLookupRaises(raws[j])
    {
      if TimestampLookupRaises(raws[i]) {
        return Err(UnreadableRecord);
      }
      var ts := NormalizeFieldName(Fields(raws[i]), "timestamp");
      if ts != JNull && ts != JStr("") {
        count := count + 1;
      }
    }
    r := Ok(if 5 * count >= 4 * |raws| then Timestamp else Sequence);
  }

  /**
   * The validation the record model applies to values it cannot take as they are: `time`
   * turns any non-null timestamp into a point in time (the date formats of the timestamp
   * validator and the library's own datetime coercion), `number` turns a non-null,
   * non-integer sequence value (such as a CSV string) into an integer. `None` means rejected.
   */
  datatype Coercions = Coercions(time: Json -> Option<int>, number: Json -> Option<int>)

  /** A required string field accepts only a string. */
  function AsString(v: Json): (r: Result<string>)
    ensures r.Ok? <==> v.JStr?
  {
    if v.JStr? then Ok(v.s) else Err("value is not a valid string")
  }

  function AsTime(v: Json, c: Coercions): (r: Result<Option<int>>)
    ensures v == JNull ==> r == Ok(None)
    ensures r.Ok? && v != JNull ==> r.value.Some?
  {
    if v == JNull then Ok(None)
    else match c.time(v)
      case Some(t) => Ok(Some(t))
      case None => Err("Could not parse timestamp")
  }

  function AsInt(v: Json, c: Coercions): (r: Result<Option<int>>)
    ensures v == JNull ==> r == Ok(None)
    ensures v.JNum? ==> r == Ok(Some(v.n))
    ensures r.Ok? && v != JNull ==> r.value.Some?
  {
    if v == JNull then Ok(None)
    else if v.JNum? then Ok(Some(v.n))
    else match c.number(v)
      case Some(k) => Ok(Some(k))
      case None => Err("value is not a valid integer")
  }

  /** The id the record names, or `entry_<index>` when that is missing or falsy. */
  function EntryIdFor(f: map<string, Json>, index: nat): Result<string> {
    var v := NormalizeFieldName(f, "entry_id");
    if Truthy(v) then AsString(v) else Ok("entry_" + NatToString(index))
  }

  /** Under SEQUENCE a missing sequence number becomes the record's position; under TIMESTAMP it is kept as given. */
  function SequenceFor(f: map<string, Json>, index: nat, strategy: TemporalStrategy, c: Coercions): Result<Option<int>> {
    var v := NormalizeFieldName(f, "sequence_number");
    if strategy == Sequence && v == JNull then Ok(Some(index)) else AsInt(v, c)
  }

  /** `_parse_single_log` followed by the record model's validation; `Err` is the exception the loop catches. */
  function ParseSingleLog(raw: Json, index: nat, strategy: TemporalStrategy, c: Coercions): Result<LogEntry> {
    if !raw.JDict? then Err("log entry is not a mapping")
    else
      var f := raw.fields;
      var entryId := EntryIdFor(f, index);
      var agentId := AsString(NormalizeFieldName(f, "agent_id"));
      var action := AsString(NormalizeFieldName(f, "action"));
      var timestamp := AsTime(NormalizeFieldName(f, "timestamp"), c);
      var sequenceNumber := SequenceFor(f, index, strategy, c);
      if entryId.Err? then Err(entryId.error)
      else if agentId.Err? then Err(agentId.error)
      else if action.Err? then Err(action.error)
      else if timestamp.Err? then Err(timestamp.error)
      else if sequenceNumber.Err? then Err(sequenceNumber.error)
      else Ok(LogEntry(entryId.value, agentId.value, action.value, timestamp.value, sequenceNumber.value,
                       Without(f, MetadataExcluded)))
  }

  /** What a successfully parsed record holds: its fields under their aliases, and defaults from its position. */
  lemma ParseSingleLogFacts(raw: Json, index: nat, strategy: TemporalStrategy, c: Coercions)
    requires ParseSingleLog(raw, index, strategy, c).Ok?
    ensures var e := ParseSingleLog(raw, index, strategy, c).value;
      && raw.JDict?
      && JStr(e.agentId) == NormalizeFieldName(raw.fields, "agent_id")
      && JStr(e.action) == NormalizeFieldName(raw.fields, "action")
      && (Truthy(NormalizeFieldName(raw.fields, "entry_id")) ==> JStr(e.entryId) == NormalizeFieldName(raw.fields, "entry_id"))
      && (!Truthy(NormalizeFieldName(raw.fields, "entry_id")) ==> e.entryId == "entry_" + NatToString(index))
      && (e.timestamp.None? <==> NormalizeFieldName(raw.fields, "timestamp") == JNull)
      && (strategy == Sequence ==> e.sequenceNumber.Some?)
      && (strategy == Sequence && NormalizeFieldName(raw.fields, "sequence_number") == JNull ==> e.sequenceNumber == Some(index))
      && (forall k :: k in e.metadata <==> k in raw.fields && k !in MetadataExcluded)
      && (forall k :: k in e.metadata ==> e.metadata[k] == raw.fields[k])
  {
  }

  /** Default ids of records at different positions never collide. */
  lemma DefaultIdsDistinct(i: nat, j: nat)
    requires i != j
    ensures "entry_" + NatToString(i) != "entry_" + NatToString(j)
  {
    if "entry_" + NatToString(i) == "entry_" + NatToString(j) {
      assert NatToString(i) == ("entry_" + NatToString(i))[6..];
      NatToStringInjective(i, j);
    }
  }

  /** The records of a loaded document, before parsing. */
  datatype LogSource = JsonDocument(doc: Json) | CsvTable(rows: seq<map<string, Json>>)

  /**
   * Wrapper-shape selection of `_parse_json` (a mapping with `logs`, else with `entries`,
   * else the mapping itself; a list as it is) and the rows of a CSV table.
   */
  function SelectRawLogs(src: LogSource): (r: Result<seq<Json>>)
    ensures src.CsvTable? ==> r.Ok? && |r.value| == |src.rows| && forall i :: 0 <= i < |src.rows| ==> r.value[i] == JDict(src.rows[i])
  {
    match src
    case CsvTable(rows) => Ok(seq(|rows|, i requires 0 <= i < |rows| => JDict(rows[i])))
    case JsonDocument(doc) =>
      match doc
      case JDict(fields) =>
        if "logs" in fields then ItemsOf(fields["logs"])
        else if "entries" in fields then ItemsOf(fields["entries"])
        else Ok([doc])
      case JList(items) => Ok(items)
      case _ => Err("Log file must contain a dict or list")
  }

  /** The records under a wrapper key must form a list. */
  function ItemsOf(v: Json): (r: Result<seq<Json>>)
    ensures r.Ok? <==> v.JList?
  {
    if v.JList? then Ok(v.items) else Err("wrapped log entries are not a list")
  }

  /** The three JSON shapes: `logs` beats `entries`, and a mapping with neither is a single record. */
  lemma WrapperShapes(fields: map<string, Json>, items: seq<Json>, others: seq<Json>)
    ensures "logs" in fields && fields["logs"] == JList(items) ==> SelectRawLogs(JsonDocument(JDict(fields))) == Ok(items)
    ensures "logs" !in fields && "entries" in fields && fields["entries"] == JList(items) ==> SelectRawLogs(JsonDocument(JDict(fields))) == Ok(items)
    ensures "logs" !in fields && "entries" !in fields ==> SelectRawLogs(JsonDocument(JDict(fields))) == Ok([JDict(fields)])
    ensures SelectRawLogs(JsonDocument(JList(others))) == Ok(others)
  {
  }

  /** The outcome of `_parse_single_log` on every record, by position. */
  function Attempts(raws: seq<Json>, strategy: TemporalStrategy, c: Coercions): (rs: seq<Result<LogEntry>>)
    ensures |rs| == |raws|
  {
    seq(|raws|, i requires 0 <= i < |raws| => ParseSingleLog(raws[i], i, strategy, c))
  }

  /** The entries of the records that parse, in record order; failing records are skipped. */
  function ParseEntries(raws: seq<Json>, strategy: TemporalStrategy, c: Coercions): seq<LogEntry> {
    Oks(Attempts(raws, strategy, c), |raws|)
  }

  /**
   * Skipping keeps order: with `pos` the positions of the records that parse, the k-th entry
   * is the parse of record `pos[k]`, the positions strictly increase, and a record is among
   * them exactly when it parses.
   */
  lemma SkippingKeepsOrder(raws: seq<Json>, strategy: TemporalStrategy, c: Coercions)
    ensures var pos := OkPositions(Attempts(raws, strategy, c), |raws|);
      && |pos| == |ParseEntries(raws, strategy, c)|
      && (forall k :: 0 <= k < |pos| ==>
            pos[k] < |raws| && ParseSingleLog(raws[pos[k]], pos[k], strategy, c) == Ok(ParseEntries(raws, strategy, c)[k]))
      && (forall k, l :: 0 <= k < l < |pos| ==> pos[k] < pos[l])
      && (forall i :: 0 <= i < |raws| ==> (ParseSingleLog(raws[i], i, strategy, c).Ok? <==> i in pos))
  {
    var rs := Attempts(raws, strategy, c);
    OksAt(rs, |raws|);
    OkPositionsOrdered(rs, |raws|);
    OkPositionsExact(rs, |raws|);
  }

  /** Every entry that survives carries the marker the strategy relies on, when every record's timestamp alias is present. */
  lemma EntriesMarked(raws: seq<Json>, strategy: TemporalStrategy, c: Coercions)
    requires strategy == Timestamp ==> forall i :: 0 <= i < |raws| ==> NormalizeFieldName(Fields(raws[i]), "timestamp") != JNull
    ensures ConsistentWith(strategy, ParseEntries(raws, strategy, c))
  {
    var rs := Attempts(raws, strategy, c);
    var es := ParseEntries(raws, strategy, c);
    OksAt(rs, |raws|);
    forall k | 0 <= k < |es|
      ensures HasMarkerFor(strategy, es[k])
    {
      var i := OkPositions(rs, |raws|)[k];
      ParseSingleLogFacts(raws[i], i, strategy, c);
    }
  }

  /** `LogParser.parse` on a loaded document, as written: detection, the skipping loop, then the collection's validation. */
  function ParseSpec(src: LogSource, c: Coercions): Result<ParsedLogs> {
    match SelectRawLogs(src)
    case Err(msg) => Err(msg)
    case Ok(raws) =>
      match Detect(raws)
      case Err(msg) => Err(msg)
      case Ok(strategy) => MakeParsedLogs(ParseEntries(raws, strategy, c), strategy)
  }

  method Parse(src: LogSource, c: Coercions) returns (r: Result<ParsedLogs>)
    ensures r == ParseSpec(src, c)
  {
    var selected := SelectRawLogs(src);
    if selected.Err? {
      return Err(selected.error);
    }
    var raws := selected.value;
    var detected := DetectTemporalStrategy(raws);
    if detected.Err? {
      return Err(detected.error);
    }
    var strategy := detected.value;
    var entries := ParseRecords(raws, strategy, c);
    r := MakeParsedLogs(entries, strategy);
  }

  /** The loop of `parse`: each record is parsed in turn, and one that fails is skipped. */
  method ParseRecords(raws: seq<Json>, strategy: TemporalStrategy, c: Coercions) returns (entries: seq<LogEntry>)
    ensures entries == ParseEntries(raws, strategy, c)
  {
    entries := [];
    for idx := 0 to |raws|
      invariant entries == Oks(Attempts(raws, strategy, c), idx)
    {
      var entry := ParseSingleLog(raws[idx], idx, strategy, c);
      assert Attempts(raws, strategy, c)[idx] == entry;
      if entry.Ok? {
        entries := entries + [entry.value];
      }
    }
  }

  /** Under SEQUENCE the collection's validation never fails: every surviving entry has a sequence number. */
  lemma SequenceParseSucceeds(src: LogSource, c: Coercions)
    requires SelectRawLogs(src).Ok? && Detect(SelectRawLogs(src).value) == Ok(Sequence)
    ensures ParseSpec(src, c).Ok?
    ensures ParseSpec(src, c).value.entries == ParseEntries(SelectRawLogs(src).value, Sequence, c)
  {
    var raws := SelectRawLogs(src).value;
    EntriesMarked(raws, Sequence, c);
  }

  /**
   * Detection runs outside the per-record guard: a record that makes the timestamp lookup raise
   * fails the whole parse, while a record that is merely not a mapping is skipped. A CSV row is
   * always a mapping, so a table never fails this way.
   */
  lemma UnreadableRecordFailsParse(src: LogSource, c: Coercions)
    requires SelectRawLogs(src).Ok?
    ensures UnreadableRecords(SelectRawLogs(src).value) ==> ParseSpec(src, c).Err?
    ensures !UnreadableRecords(SelectRawLogs(src).value) ==> Detect(SelectRawLogs(src).value) == Ok(DetectStrategy(SelectRawLogs(src).value))
    ensures src.CsvTable? ==> !UnreadableRecords(SelectRawLogs(src).value)
  {
  }

  /** The list `[1]` fails to parse. */
  lemma NumberRecordFailsParse(c: Coercions)
    ensures ParseSpec(JsonDocument(JList([JNum(1)])), c).Err?
  {
    assert TimestampLookupRaises([JNum(1)][0]);
  }

  /** A list holding the string `"a timestamp"` fails to parse: the alias occurs in the string. */
  lemma AliasInStringFailsParse(c: Coercions)
    ensures ParseSpec(JsonDocument(JList([JStr("a timestamp")])), c).Err?
  {
    assert "a timestamp"[2..][..|TimestampAliases[0]|] == TimestampAliases[0];
    assert Contains("a timestamp"[2..], TimestampAliases[0]);
    assert TimestampLookupRaises([JStr("a timestamp")][0]);
  }

  /** A list holding the string `"abc"` parses to an empty collection: the record is skipped. */
  lemma PlainStringRecordSkipped(c: Coercions)
    ensures ParseSpec(JsonDocument(JList([JStr("abc")])), c) == Ok(ParsedLogs([], Sequence, 0))
  {
    var raws := [JStr("abc")];
    forall k | 0 <= k < |TimestampAliases|
      ensures !Contains("abc", TimestampAliases[k])
    {
      if Contains("abc", TimestampAliases[k]) {
        ContainsShorter("abc", TimestampAliases[k]);
      }
    }
    assert !UnreadableRecords(raws);
    TimestampLookupRaisesFacts(raws[0]);
    assert DetectStrategy(raws) == Sequence;
    var rs := Attempts(raws, Sequence, c);
    assert rs[0].Err?;
    assert Oks(rs, 0) == [];
    assert ParseEntries(raws, Sequence, c) == [];
    assert Detect(raws) == Ok(Sequence);
  }

  /** A record of agent `a1` doing `move`, with and without a timestamp, and coercions that accept every time. */
  const TimedRecord: Json := JDict(map["entry_id" := JStr("e"), "agent_id" := JStr("a1"), "action" := JStr("move"), "timestamp" := JNum(1)])
  const UntimedRecord: Json := JDict(map["entry_id" := JStr("e"), "agent_id" := JStr("a1"), "action" := JStr("move")])
  const AnyTime: Coercions := Coercions(_ => Some(0), _ => None)

  lemma TimedRecordParses(i: nat)
    ensures HasTimestamp(TimedRecord)
    ensures ParseSingleLog(TimedRecord, i, Timestamp, AnyTime).Ok?
  {
    var f := TimedRecord.fields;
    LookupFirstPresent(f, TimestampAliases, 0);
    LookupFirstPresent(f, AgentIdAliases, 0);
    LookupFirstPresent(f, EntryIdAliases, 0);
    LookupFirstPresent(f, ActionAliases, 0);
    LookupNonePresent(f, SequenceAliases);
    assert EntryIdFor(f, i) == Ok("e");
    assert SequenceFor(f, i, Timestamp, AnyTime) == Ok(None);
    assert AsTime(JNum(1), AnyTime) == Ok(Some(0));
  }

  lemma UntimedRecordParses(i: nat)
    ensures !HasTimestamp(UntimedRecord)
    ensures ParseSingleLog(UntimedRecord, i, Timestamp, AnyTime).Ok?
    ensures ParseSingleLog(UntimedRecord, i, Timestamp, AnyTime).value.timestamp.None?
  {
    var f := UntimedRecord.fields;
    LookupNonePresent(f, TimestampAliases);
    LookupFirstPresent(f, AgentIdAliases, 0);
    LookupFirstPresent(f, EntryIdAliases, 0);
    LookupFirstPresent(f, ActionAliases, 0);
    LookupNonePresent(f, SequenceAliases);
    assert EntryIdFor(f, i) == Ok("e");
    assert SequenceFor(f, i, Timestamp, AnyTime) == Ok(None);
  }

  /**
   * As written, the 80 % rule picks TIMESTAMP for a log in which one record of five has no
   * timestamp, and the collection's validation then rejects the whole log although every
   * record parses on its own.
   */
  lemma EightyPercentRuleRejectsLog()
    ensures var raws := [TimedRecord, TimedRecord, TimedRecord, TimedRecord, UntimedRecord];
      && DetectStrategy(raws) == Timestamp
      && (forall i :: 0 <= i < 5 ==> ParseSingleLog(raws[i], i, Timestamp, AnyTime).Ok?)
      && ParseSpec(JsonDocument(JList(raws)), AnyTime).Err?
  {
    var raws := [TimedRecord, TimedRecord, TimedRecord, TimedRecord, UntimedRecord];
    forall i | 0 <= i < 4
      ensures HasTimestamp(raws[i]) && ParseSingleLog(raws[i], i, Timestamp, AnyTime).Ok?
    {
      TimedRecordParses(i);
    }
    UntimedRecordParses(4);
    assert TimestampCount(raws, 4) == 4;
    assert TimestampCount(raws, 5) == 4;
    var out := ParseEntries(raws, Timestamp, AnyTime);
    assert out[|out| - 1].timestamp.None?;
  }

  /** The detection the parser's own documentation describes: TIMESTAMP only when every record has a timestamp. */
  function DetectStrategyIntended(raws: seq<Json>): (strategy: TemporalStrategy)
    ensures strategy == Timestamp <==> |raws| > 0 && forall i :: 0 <= i < |raws| ==> HasTimestamp(raws[i])
  {
    if |raws| > 0 && TimestampCount(raws, |raws|) == |raws| then Timestamp else Sequence
  }

  function ParseIntended(src: LogSource, c: Coercions): Result<ParsedLogs> {
    match SelectRawLogs(src)
    case Err(msg) => Err(msg)
    case Ok(raws) =>
      if UnreadableRecords(raws) then Err(UnreadableRecord)
      else
        var strategy := DetectStrategyIntended(raws);
        MakeParsedLogs(ParseEntries(raws, strategy, c), strategy)
  }

  /**
   * With the intended detection, a document whose shape is accepted yields a collection
   * exactly when no record makes the timestamp lookup raise.
   */
  lemma IntendedParseSucceeds(src: LogSource, c: Coercions)
    requires SelectRawLogs(src).Ok?
    ensures ParseIntended(src, c).Ok? <==> !UnreadableRecords(SelectRawLogs(src).value)
    ensures ParseIntended(src, c).Ok? ==> ParseIntended(src, c).value.totalCount == |ParseIntended(src, c).value.entries|
  {
    var raws := SelectRawLogs(src).value;
    var strategy := DetectStrategyIntended(raws);
    if strategy == Timestamp {
      assert forall i :: 0 <= i < |raws| ==> HasTimestamp(raws[i]);
    }
    EntriesMarked(raws, strategy, c);
  }

  /** The two detections agree whenever the as-written one does not pick TIMESTAMP on an incomplete log. */
  lemma IntendedAgreesOnCompleteLogs(raws: seq<Json>)
    requires forall i :: 0 <= i < |raws| ==> HasTimestamp(raws[i])
    ensures DetectStrategyIntended(raws) == DetectStrategy(raws)
  {
  }

  /** Which parser `parse_logs` hands a file to, by its lower-cased suffix. */
  datatype LogFormat = TextLog | StructuredLog | UnsupportedLog

  function LogFormatFor(suffix: string): LogFormat {
    var s := Lower(suffix);
    if s == ".log" || s == ".txt" then TextLog
    else if s == ".json" || s == ".csv" then StructuredLog
    else UnsupportedLog
  }

  /** The loader `LogParser.parse` picks by suffix; any other suffix is rejected. */
  datatype Loader = JsonLoader | CsvLoader

  function LoaderFor(suffix: string): Result<Loader> {
    var s := Lower(suffix);
    if s == ".json" then Ok(JsonLoader)
    else if s == ".csv" then Ok(CsvLoader)
    else Err("Unsupported log file format")
  }

  /** The dispatch only hands the structured parser files it accepts, and hands it every file it accepts. */
  lemma DispatchMatchesLoader(suffix: string)
    ensures LogFormatFor(suffix) == StructuredLog <==> LoaderFor(suffix).Ok?
    ensures LogFormatFor(suffix) == TextLog ==> LoaderFor(suffix).Err?
  {
  }
}
