/**
 * The plain-text execution-log parser. Each line is stripped; blank lines and `#` comments are
 * skipped; the first of the line patterns that matches yields the agent, the action and the
 * optional context, timestamp and metadata groups; agent ids and actions are cleaned up.
 * The temporal strategy is chosen by the share of matched lines with a timestamp, and every
 * matched line becomes one entry named after its position.
 */
module ParseLogsText {
  import opened Wrappers
  import opened Text
  import opened RawData
  import opened Schemas

  /** `_normalize_agent_id`. */
  function NormalizeAgentId(s: string): string {
    if s == "" then "unknown"
    else
      var t := Strip(s);
      Strip(if |t| >= 2 && t[0] == '[' && t[|t| - 1] == ']' then t[1..|t| - 1] else t)
  }

  /** An empty id becomes `unknown`; any other id comes out with no whitespace at either end. */
  lemma NormalizeAgentIdStripped(s: string)
    ensures s == "" ==> NormalizeAgentId(s) == "unknown"
    ensures s != "" ==> var r := NormalizeAgentId(s); r == [] || (!IsSpace(r[0]) && !IsSpace(r[|r| - 1]))
  {
    if s != "" {
      var t := Strip(s);
      StripFacts(if |t| >= 2 && t[0] == '[' && t[|t| - 1] == ']' then t[1..|t| - 1] else t);
    }
  }

  /** A bracketed id loses one pair of brackets and the whitespace inside them. */
  lemma NormalizeAgentIdBracketed(s: string, x: string)
    requires s != "" && Strip(s) == "[" + x + "]"
    ensures NormalizeAgentId(s) == Strip(x)
  {
    var t := Strip(s);
    assert t[1..|t| - 1] == x;
  }

  /** Any other id is only stripped. */
  lemma NormalizeAgentIdPlain(s: string)
    requires s != ""
    requires var t := Strip(s); |t| < 2 || t[0] != '[' || t[|t| - 1] != ']'
    ensures NormalizeAgentId(s) == Strip(s)
  {
    StripFacts(s);
    StripFacts(Strip(s));
  }

  /** Only one pair of brackets goes, and a blank bracketed id becomes empty rather than `unknown`. */
  lemma NormalizeAgentIdExamples()
    ensures NormalizeAgentId("[[a]]") == "[a]"
    ensures NormalizeAgentId("[ ]") == ""
  {
    StripFacts("[[a]]");
    StripFacts("[a]");
    StripFacts("[ ]");
    assert "[ ]"[1..2] == " ";
    assert TrimLeft(" ") == "";
  }

  /** `_clean_action`. */
  function CleanAction(s: string): string {
    if s == "" then "unknown"
    else
      var t := Strip(s);
      if |t| > 0 && t[|t| - 1] == '.' then t[..|t| - 1] else t
  }

  /** A non-empty action is stripped and then loses at most one trailing period. */
  lemma CleanActionFacts(s: string)
    ensures s == "" ==> CleanAction(s) == "unknown"
    ensures s != "" ==> CleanAction(s) == Strip(s) || CleanAction(s) + "." == Strip(s)
    ensures s != "" && (Strip(s) == [] || Strip(s)[|Strip(s)| - 1] != '.') ==> CleanAction(s) == Strip(s)
  {
    if s != "" {
      var t := Strip(s);
      if |t| > 0 && t[|t| - 1] == '.' {
        assert t[..|t| - 1] + "." == t;
      }
    }
  }

  lemma CleanActionExample()
    ensures CleanAction("wait..") == "wait."
  {
    StripFacts("wait..");
  }

  /** The named groups of a line pattern: every pattern captures an agent and an action, some also a context, timestamp or metadata. */
  datatype Groups = Groups(agentId: string, action: string, context: Option<string>, timestamp: Option<string>, metadata: Option<string>)

  /** One line pattern applied at the start of a stripped line; the regular expressions themselves are not modelled. */
  type LinePattern = string -> Option<Groups>

  /** The groups of the first pattern, in list order, that matches. */
  function FirstMatch(line: string, patterns: seq<LinePattern>): Option<Groups> {
    if |patterns| == 0 then None
    else if patterns[0](line).Some? then patterns[0](line)
    else FirstMatch(line, patterns[1..])
  }

  /** The first pattern that matches decides, and a line no pattern matches gives nothing. */
  lemma {:induction false} FirstMatchWins(line: string, patterns: seq<LinePattern>)
    ensures FirstMatch(line, patterns).None? <==> forall i :: 0 <= i < |patterns| ==> patterns[i](line).None?
    ensures forall i :: 0 <= i < |patterns| && patterns[i](line).Some? && (forall k :: 0 <= k < i ==> patterns[k](line).None?) ==>
      FirstMatch(line, patterns) == patterns[i](line)
  {
    if |patterns| > 0 {
      FirstMatchWins(line, patterns[1..]);
      assert forall i :: 0 < i < |patterns| ==> patterns[i] == patterns[1..][i - 1];
    }
  }

  /** `_match_line`: blank and comment lines give nothing; otherwise the first match, with its agent id and action cleaned. */
  function MatchLine(line: string, patterns: seq<LinePattern>): Option<Groups> {
    var t := Strip(line);
    if t == "" || t[0] == '#' then None
    else match FirstMatch(t, patterns)
      case None => None
      case Some(g) => Some(g.(agentId := NormalizeAgentId(g.agentId), action := CleanAction(g.action)))
  }

  lemma MatchLineFacts(line: string, patterns: seq<LinePattern>)
    ensures Strip(line) == "" || Strip(line)[0] == '#' ==> MatchLine(line, patterns).None?
    ensures Strip(line) != "" && Strip(line)[0] != '#' ==>
      (MatchLine(line, patterns).Some? <==> exists i :: 0 <= i < |patterns| && patterns[i](Strip(line)).Some?)
    ensures MatchLine(line, patterns).Some? ==> var g := FirstMatch(Strip(line), patterns).value;
      MatchLine(line, patterns).value == g.(agentId := NormalizeAgentId(g.agentId), action := CleanAction(g.action))
  {
    FirstMatchWins(Strip(line), patterns);
  }

  /** A matched line with its 1-based line number. */
  datatype RawTextEntry = RawTextEntry(lineNum: nat, groups: Groups)

  /** The outcome of `_match_line` on every line of a file. */
  function LineMatches(lines: seq<string>, patterns: seq<LinePattern>): (ms: seq<Option<Groups>>)
    ensures |ms| == |lines|
  {
    seq(|lines|, i requires 0 <= i < |lines| => MatchLine(lines[i], patterns))
  }

  /** The matched lines among the first `n`, in file order, with their 1-based line numbers. */
  function MatchedLines(ms: seq<Option<Groups>>, n: nat): seq<RawTextEntry>
    requires n <= |ms|
  {
    if n == 0 then []
    else MatchedLines(ms, n - 1) + (if ms[n - 1].Some? then [RawTextEntry(n, ms[n - 1].value)] else [])
  }

  /** Each matched line keeps its own line number and groups, and the numbers strictly increase. */
  lemma {:induction false} MatchedLinesFacts(ms: seq<Option<Groups>>, n: nat)
    requires n <= |ms|
    ensures forall k :: 0 <= k < |MatchedLines(ms, n)| ==>
      1 <= MatchedLines(ms, n)[k].lineNum <= n && ms[MatchedLines(ms, n)[k].lineNum - 1] == Some(MatchedLines(ms, n)[k].groups)
    ensures forall k, l :: 0 <= k < l < |MatchedLines(ms, n)| ==> MatchedLines(ms, n)[k].lineNum < MatchedLines(ms, n)[l].lineNum
  {
    if n > 0 {
      MatchedLinesFacts(ms, n - 1);
    }
  }

  /** Every line that matches is present. */
  lemma {:induction false} MatchedLinesComplete(ms: seq<Option<Groups>>, n: nat, i: nat)
    requires i < n <= |ms| && ms[i].Some?
    ensures exists k :: 0 <= k < |MatchedLines(ms, n)| && MatchedLines(ms, n)[k].lineNum == i + 1
  {
    var raws := MatchedLines(ms, n);
    if i == n - 1 {
      assert raws[|raws| - 1].lineNum == i + 1;
    } else {
      MatchedLinesComplete(ms, n - 1, i);
      var prev := MatchedLines(ms, n - 1);
      var k :| 0 <= k < |prev| && prev[k].lineNum == i + 1;
      assert raws[k] == prev[k];
    }
  }

  /** `e.get('timestamp')` is truthy. */
  predicate HasTextTimestamp(r: RawTextEntry) {
    r.groups.timestamp.Some? && r.groups.timestamp.value != ""
  }

  function TextTimestampCount(raws: seq<RawTextEntry>, n: nat): (count: nat)
    requires n <= |raws|
    ensures count <= n
    ensures count == n <==> forall i :: 0 <= i < n ==> HasTextTimestamp(raws[i])
  {
    if n == 0 then 0 else TextTimestampCount(raws, n - 1) + (if HasTextTimestamp(raws[n - 1]) then 1 else 0)
  }

  /** `_detect_temporal_strategy`: TIMESTAMP exactly when at least 80 % of the matched lines have a timestamp (5·count ≥ 4·n). */
  function TextStrategy(raws: seq<RawTextEntry>): TemporalStrategy {
    if 5 * TextTimestampCount(raws, |raws|) >= 4 * |raws| then Timestamp else Sequence
  }

  /** Every line timestamped gives TIMESTAMP, and SEQUENCE means more than a fifth of the lines have none. */
  lemma TextStrategyFacts(raws: seq<RawTextEntry>)
    ensures (forall i :: 0 <= i < |raws| ==> HasTextTimestamp(raws[i])) ==> TextStrategy(raws) == Timestamp
    ensures TextStrategy(raws) == Sequence <==> 5 * (|raws| - TextTimestampCount(raws, |raws|)) > |raws|
    ensures TextStrategy(raws) == Sequence ==> exists i :: 0 <= i < |raws| && !HasTextTimestamp(raws[i])
  {
  }

  /**
   * The regular-expression searches of `_extract_metadata_from_action`, not modelled: `pairs`
   * gives the key=value pairs inside the parenthesised parts of an action, in order;
   * `operationColon` the word after `for operation:`; `operationEq` the word after `for op=`.
   */
  datatype Extractors = Extractors(
    pairs: string -> seq<(string, string)>,
    operationColon: string -> Option<string>,
    operationEq: string -> Option<string>)

  /** The first `n` pairs applied as successive dictionary updates. */
  function PairsMap(ps: seq<(string, string)>, n: nat): map<string, Json>
    requires n <= |ps|
  {
    if n == 0 then map[] else PairsMap(ps, n - 1)[ps[n - 1].0 := JStr(ps[n - 1].1)]
  }

  /** A key is present iff some pair names it. */
  lemma {:induction false} PairsMapKeys(ps: seq<(string, string)>, n: nat)
    requires n <= |ps|
    ensures forall k :: k in PairsMap(ps, n) <==> exists i :: 0 <= i < n && ps[i].0 == k
  {
    if n > 0 {
      PairsMapKeys(ps, n - 1);
    }
  }

  /** The value of a key is that of the last pair naming it. */
  lemma {:induction false} PairsMapLastWins(ps: seq<(string, string)>, n: nat, i: nat)
    requires i < n <= |ps|
    requires forall j :: i < j < n ==> ps[j].0 != ps[i].0
    ensures ps[i].0 in PairsMap(ps, n) && PairsMap(ps, n)[ps[i].0] == JStr(ps[i].1)
  {
    if i < n - 1 {
      PairsMapLastWins(ps, n - 1, i);
    }
  }

  /** The metadata embedded in an action: the pairs, then `for operation:`, then `for op=`, each later one overwriting. */
  function EmbeddedMetadata(action: string, x: Extractors): map<string, Json> {
    var ps := x.pairs(action);
    var m := PairsMap(ps, |ps|);
    var m1 := if x.operationColon(action).Some? then m["operation" := JStr(x.operationColon(action).value)] else m;
    if x.operationEq(action).Some? then m1["operation" := JStr(x.operationEq(action).value)] else m1
  }

  /** `for op=` wins over `for operation:`, which wins over a pair named `operation`. */
  lemma OperationPriority(action: string, x: Extractors)
    ensures x.operationEq(action).Some? ==> EmbeddedMetadata(action, x)["operation"] == JStr(x.operationEq(action).value)
    ensures x.operationEq(action).None? && x.operationColon(action).Some? ==>
      EmbeddedMetadata(action, x)["operation"] == JStr(x.operationColon(action).value)
    ensures x.operationEq(action).None? && x.operationColon(action).None? ==>
      EmbeddedMetadata(action, x) == PairsMap(x.pairs(action), |x.pairs(action)|)
  {
  }

  /** `_extract_metadata_from_action`: the action comes back unchanged, with the metadata found in it. */
  method ExtractMetadataFromAction(action: string, x: Extractors) returns (cleaned: string, metadata: map<string, Json>)
    ensures cleaned == action
    ensures metadata == EmbeddedMetadata(action, x)
  {
    var ps := x.pairs(action);
    metadata := map[];
    for i := 0 to |ps|
      invariant metadata == PairsMap(ps, i)
    {
      metadata := metadata[ps[i].0 := JStr(ps[i].1)];
    }
    var op := x.operationColon(action);
    if op.Some? {
      metadata := metadata["operation" := JStr(op.value)];
    }
    var op2 := x.operationEq(action);
    if op2.Some? {
      metadata := metadata["operation" := JStr(op2.value)];
    }
    cleaned := action;
  }

  /** Python truthiness of an optional group. */
  predicate Given(g: Option<string>) {
    g.Some? && g.value != ""
  }

  /** The metadata of an entry: the embedded pairs, then the metadata and context groups when given, then the line number. */
  function EntryMetadata(raw: RawTextEntry, x: Extractors): map<string, Json> {
    var m := EmbeddedMetadata(raw.groups.action, x);
    var m1 := if Given(raw.groups.metadata) then m["raw_metadata" := JStr(raw.groups.metadata.value)] else m;
    var m2 := if Given(raw.groups.context) then m1["context" := JStr(raw.groups.context.value)] else m1;
    m2["line_num" := JNum(raw.lineNum)]
  }

  /**
   * The entry of the matched line at position `idx`. `parseTime` is `_parse_timestamp` on a
   * non-empty timestamp group (stripping and the date formats); it gives `None` when no format fits.
   */
  function TextEntry(raw: RawTextEntry, idx: nat, strategy: TemporalStrategy, x: Extractors, parseTime: string -> Option<int>): LogEntry {
    LogEntry(
      "entry_" + NatToString(idx),
      raw.groups.agentId,
      raw.groups.action,
      if Given(raw.groups.timestamp) then parseTime(raw.groups.timestamp.value) else None,
      if strategy == Sequence then Some(idx) else None,
      EntryMetadata(raw, x))
  }

  function TextEntries(raws: seq<RawTextEntry>, strategy: TemporalStrategy, x: Extractors, parseTime: string -> Option<int>, n: nat): (entries: seq<LogEntry>)
    requires n <= |raws|
    ensures |entries| == n
  {
    if n == 0 then [] else TextEntries(raws, strategy, x, parseTime, n - 1) + [TextEntry(raws[n - 1], n - 1, strategy, x, parseTime)]
  }

  /** The k-th entry is built from the k-th matched line at position k. */
  lemma {:induction false} TextEntriesAt(raws: seq<RawTextEntry>, strategy: TemporalStrategy, x: Extractors, parseTime: string -> Option<int>, n: nat)
    requires n <= |raws|
    ensures forall k :: 0 <= k < n ==> TextEntries(raws, strategy, x, parseTime, n)[k] == TextEntry(raws[k], k, strategy, x, parseTime)
  {
    if n > 0 {
      TextEntriesAt(raws, strategy, x, parseTime, n - 1);
    }
  }

  /**
   * Every matched line becomes one entry: position, id, agent, action and line number agree
   * with the matched line, and under SEQUENCE the sequence number is the position, under
   * TIMESTAMP it is absent.
   */
  lemma TextEntriesFacts(raws: seq<RawTextEntry>, strategy: TemporalStrategy, x: Extractors, parseTime: string -> Option<int>)
    ensures var es := TextEntries(raws, strategy, x, parseTime, |raws|);
      forall k :: 0 <= k < |raws| ==>
        && es[k].entryId == "entry_" + NatToString(k)
        && es[k].agentId == raws[k].groups.agentId
        && es[k].action == raws[k].groups.action
        && es[k].sequenceNumber == (if strategy == Sequence then Some(k) else None)
        && (es[k].timestamp.Some? <==> Given(raws[k].groups.timestamp) && parseTime(raws[k].groups.timestamp.value).Some?)
        && "line_num" in es[k].metadata && es[k].metadata["line_num"] == JNum(raws[k].lineNum)
  {
    TextEntriesAt(raws, strategy, x, parseTime, |raws|);
  }

  /** Under SEQUENCE the sequence numbers strictly increase in output order, and entry ids are pairwise distinct. */
  lemma TextEntriesOrdered(raws: seq<RawTextEntry>, strategy: TemporalStrategy, x: Extractors, parseTime: string -> Option<int>)
    ensures var es := TextEntries(raws, strategy, x, parseTime, |raws|);
      && (strategy == Sequence ==> forall k, l :: 0 <= k < l < |es| ==>
            es[k].sequenceNumber.Some? && es[l].sequenceNumber.Some? && es[k].sequenceNumber.value < es[l].sequenceNumber.value)
      && (forall k, l :: 0 <= k < l < |es| ==> es[k].entryId != es[l].entryId)
  {
    var es := TextEntries(raws, strategy, x, parseTime, |raws|);
    TextEntriesAt(raws, strategy, x, parseTime, |raws|);
    forall k, l | 0 <= k < l < |es|
      ensures es[k].entryId != es[l].entryId
    {
      if es[k].entryId == es[l].entryId {
        assert NatToString(k) == es[k].entryId[6..];
        assert NatToString(l) == es[l].entryId[6..];
        NatToStringInjective(k, l);
      }
    }
  }

  /** `TextLogParser.parse` on the lines of a file. */
  function ParseTextSpec(lines: seq<string>, patterns: seq<LinePattern>, x: Extractors, parseTime: string -> Option<int>): Result<ParsedLogs> {
    var raws := MatchedLines(LineMatches(lines, patterns), |lines|);
    if |raws| == 0 then Err("No log entries could be parsed from file")
    else
      var strategy := TextStrategy(raws);
      MakeParsedLogs(TextEntries(raws, strategy, x, parseTime, |raws|), strategy)
  }

  /** The collection's validation accepts every SEQUENCE run, and a TIMESTAMP run exactly when every timestamp parsed. */
  lemma TextCollectionOutcome(raws: seq<RawTextEntry>, strategy: TemporalStrategy, x: Extractors, parseTime: string -> Option<int>)
    ensures strategy == Sequence ==> MakeParsedLogs(TextEntries(raws, strategy, x, parseTime, |raws|), strategy).Ok?
    ensures strategy == Timestamp ==>
      (MakeParsedLogs(TextEntries(raws, strategy, x, parseTime, |raws|), strategy).Ok? <==>
       forall k :: 0 <= k < |raws| ==> Given(raws[k].groups.timestamp) && parseTime(raws[k].groups.timestamp.value).Some?)
  {
    TextEntriesAt(raws, strategy, x, parseTime, |raws|);
  }

  /**
   * The parse fails exactly when no line matched, or when TIMESTAMP was chosen and some
   * matched line has no timestamp that parses; otherwise there is one entry per matched line.
   */
  lemma ParseTextOutcome(lines: seq<string>, patterns: seq<LinePattern>, x: Extractors, parseTime: string -> Option<int>, raws: seq<RawTextEntry>)
    requires raws == MatchedLines(LineMatches(lines, patterns), |lines|)
    ensures |raws| == 0 ==> ParseTextSpec(lines, patterns, x, parseTime).Err?
    ensures |raws| > 0 && TextStrategy(raws) == Sequence ==>
      ParseTextSpec(lines, patterns, x, parseTime).Ok? && |ParseTextSpec(lines, patterns, x, parseTime).value.entries| == |raws|
    ensures |raws| > 0 && TextStrategy(raws) == Timestamp ==>
      (ParseTextSpec(lines, patterns, x, parseTime).Ok? <==>
       forall k :: 0 <= k < |raws| ==> Given(raws[k].groups.timestamp) && parseTime(raws[k].groups.timestamp.value).Some?)
  {
    TextCollectionOutcome(raws, TextStrategy(raws), x, parseTime);
  }

  method ParseText(lines: seq<string>, patterns: seq<LinePattern>, x: Extractors, parseTime: string -> Option<int>) returns (r: Result<ParsedLogs>)
    ensures r == ParseTextSpec(lines, patterns, x, parseTime)
  {
    var raws := MatchLines(lines, patterns);
    if |raws| == 0 {
      return Err("No log entries could be parsed from file");
    }
    var strategy := TextStrategy(raws);
    var entries: seq<LogEntry> := [];
    for idx := 0 to |raws|
      invariant entries == TextEntries(raws, strategy, x, parseTime, idx)
    {
      var entry := BuildTextEntry(raws[idx], idx, strategy, x, parseTime);
      entries := entries + [entry];
    }
    r := MakeParsedLogs(entries, strategy);
  }

  /** The first loop of `parse`: the lines some pattern matches, with their 1-based line numbers. */
  method MatchLines(lines: seq<string>, patterns: seq<LinePattern>) returns (raws: seq<RawTextEntry>)
    ensures raws == MatchedLines(LineMatches(lines, patterns), |lines|)
  {
    raws := [];
    for lineNum := 0 to |lines|
      invariant raws == MatchedLines(LineMatches(lines, patterns), lineNum)
    {
      var matched := MatchLine(lines[lineNum], patterns);
      if matched.Some? {
        raws := raws + [RawTextEntry(lineNum + 1, matched.value)];
      }
    }
  }

  /** The body of the second loop of `parse`: the entry of the matched line at position `idx`. */
  method BuildTextEntry(raw: RawTextEntry, idx: nat, strategy: TemporalStrategy, x: Extractors, parseTime: string -> Option<int>)
    returns (entry: LogEntry)
    ensures entry == TextEntry(raw, idx, strategy, x, parseTime)
  {
    var timestamp := if Given(raw.groups.timestamp) then parseTime(raw.groups.timestamp.value) else None;
    var action, embedded := ExtractMetadataFromAction(raw.groups.action, x);
    var metadata := embedded;
    if Given(raw.groups.metadata) {
      metadata := metadata["raw_metadata" := JStr(raw.groups.metadata.value)];
    }
    if Given(raw.groups.context) {
      metadata := metadata["context" := JStr(raw.groups.context.value)];
    }
    metadata := metadata["line_num" := JNum(raw.lineNum)];
    var sequenceNumber := if strategy == Sequence then Some(idx) else None;
    entry := LogEntry("entry_" + NatToString(idx), raw.groups.agentId, action, timestamp, sequenceNumber, metadata);
  }
}
