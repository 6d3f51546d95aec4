# MAS-Explainability core, modelled in Dafny

MAS-Explainability explains the behaviour of a multi-agent system after the fact. Its
pipeline has four phases, and this project models each of them:

1. **Parsing.** Execution logs come as JSON, CSV or plain text. Norms come as JSON or YAML.
   Both are turned into validated records: `LogEntry`, `Norm`, `ParsedLogs` and `ParsedNorms`.
   - Field names are resolved through alias lists.
   - Missing ids get positional defaults.
   - Each log gets a temporal strategy: TIMESTAMP or SEQUENCE.
2. **Analysis.**
   - The norm matcher infers each agent's role from its id by fuzzy matching against the roles
     the norms name. From that it decides which norm applies to which agent.
   - The compliance checker judges every norm against every agent that appears in the log:
     obligations, prohibitions and permissions, with evidence taken from the agent's actions.
3. **Understanding.** The system profiler condenses everything into one profile:
   - per-agent profiles;
   - per-mission profiles;
   - a chronological timeline;
   - detected interactions between agents;
   - role and norm histograms.
4. **Retrieval.** The evidence retriever takes a question in natural language. It extracts the
   agents, roles, missions and norm ids the question mentions and classifies the question into
   one of six kinds. It then gathers the facts of that kind from the artifacts of the earlier
   phases.

One module per source file:

| Module | Source file |
|---|---|
| `Schemas` | `phase1_parsing/schemas.py` |
| `RawData` | raw JSON values and the alias lookup that both structured parsers share |
| `ParseLogs` | `phase1_parsing/parse_logs.py` |
| `ParseLogsText` | `phase1_parsing/parse_logs_text.py` |
| `ParseNorms` | `phase1_parsing/parse_norms.py` |
| `NormMatcher` | `phase2_analysis/norm_matcher.py` |
| `ComplianceChecker` | `phase2_analysis/compliance_checker.py` |
| `SystemProfiler` | `phase3_understanding/system_profiler.py` |
| `EvidenceRetriever` | `phase4_retrieval/evidence_retriever.py` |

Generic helpers live in `Wrappers`, `Text`, `Seqs`, `Collections` and `Sorting`:
- `Option` and `Result`;
- an ASCII model of Python's `lower`, `strip`, `split`, `\w` and `\s`, whose whitespace is the space, `\t` to `\r` and U+001C to U+001F;
- filters, lookups and de-duplication;
- a stable sort.

The source's loops are methods with loop invariants. Each such method is proved equal to a
specification function defined over a prefix of its input, and the source's promises are
proved as lemmas about those functions. The one class, `ComplianceChecker.Checker`, holds the
action index that `ComplianceChecker.__init__` builds in place. All other code works on values.

## Model

| member | source | states |
|---|---|---|
| Schemas.NormTypeOf | phase1_parsing/schemas.py:12-16 | Exactly the three strings "obligation", "prohibition" and "permission" validate into a norm type, and each names its type. |
| Schemas.NormTypeRoundTrip | phase1_parsing/schemas.py:12-16 | Validating a norm type's string value gives back that type. |
| Schemas.MakeParsedNorms | phase1_parsing/schemas.py:38-45 | The collection holds the norms given, and `model_post_init` sets `total_count` to their number. |
| Schemas.GetTemporalMarker | phase1_parsing/schemas.py:90-96 | Gives the timestamp if there is one, else the sequence number. Raises an error exactly when the entry has neither. |
| Schemas.MakeParsedLogs | phase1_parsing/schemas.py:99-115 | Construction succeeds exactly when every entry has the strategy's marker (a timestamp under TIMESTAMP, a sequence number under SEQUENCE). On success it keeps the entries and the strategy and sets `total_count`. |
| Schemas.GetSortedEntries | phase1_parsing/schemas.py:117-122 | The result is a permutation of the entries, non-decreasing in the strategy's marker, and still consistent with the strategy. |
| Schemas.SortedKeepsMarkers | phase1_parsing/schemas.py:117-122 | Any permutation of a consistent list of entries is consistent. |
| Schemas.FindNormFacts | phase2_analysis/compliance_checker.py:155 | `next((n for n in norms if n['norm_id'] == id), None)` is `None` exactly when no norm has the id. Otherwise it is the first norm with that id. |
| Schemas.FindNormFirst | phase2_analysis/compliance_checker.py:155 | The norm found is the first one carrying the id. |
| RawData.LookupFirstPresent | phase1_parsing/parse_logs.py:39-47 | The first alias present in the record decides the field's value. |
| RawData.LookupNonePresent | phase1_parsing/parse_logs.py:39-47 | With no alias present the field reads as `None`. |
| ParseLogs.FieldAliases | phase1_parsing/parse_logs.py:24-30 | Every field's alias list starts with the field's own name. |
| ParseLogs.CanonicalNameWins | phase1_parsing/parse_logs.py:39-47 | The canonical name wins over its aliases. A field with none of its aliases present reads as `None`. |
| ParseLogs.TimestampCount | phase1_parsing/parse_logs.py:66-72 | The count of timestamped records is at most the number of records. It equals that number exactly when every record has a timestamp. |
| ParseLogs.DetectStrategyFacts | phase1_parsing/parse_logs.py:49-77 | No records gives SEQUENCE. All records timestamped gives TIMESTAMP. TIMESTAMP implies at least 80 % of the records are timestamped. No timestamps gives SEQUENCE. |
| ParseLogs.DetectTemporalStrategy | phase1_parsing/parse_logs.py:39-77 | Fails exactly when some record makes the timestamp lookup raise; otherwise the counting loop computes the strategy of the 80 % rule. |
| ParseLogs.TimestampLookupRaisesFacts | phase1_parsing/parse_logs.py:39-47 | The timestamp lookup never raises on a mapping. It always raises on a number, a boolean or null. It raises on a string exactly when a timestamp alias occurs in it, and on a list exactly when an alias is an element. An item that does not raise and is not a mapping reads as untimed. |
| ParseLogs.AsString | phase1_parsing/schemas.py:60-62 | A required string field accepts exactly a string. |
| ParseLogs.AsTime | phase1_parsing/schemas.py:67-88 | `None` stays `None`. Any other accepted value becomes a timestamp. |
| ParseLogs.AsInt | phase1_parsing/schemas.py:64 | `None` stays `None`, and a number is kept. Any other accepted value becomes a number. |
| ParseLogs.ParseSingleLogFacts | phase1_parsing/parse_logs.py:79-116 | A parsed record has agent and action under their aliases. Its id is the record's truthy id, else `entry_<index>`. Under SEQUENCE a missing sequence number becomes the index. Every other key goes to metadata. |
| ParseLogs.DefaultIdsDistinct | phase1_parsing/parse_logs.py:92 | Default entry ids at different positions differ. |
| ParseLogs.SelectRawLogs | phase1_parsing/parse_logs.py:118-151 | A CSV table gives one record per row, in row order. |
| ParseLogs.ItemsOf | phase1_parsing/parse_logs.py:124-129 | The value under a wrapper key is accepted exactly when it is a list. |
| ParseLogs.WrapperShapes | phase1_parsing/parse_logs.py:123-136 | `logs` is preferred over `entries`. A mapping with neither key is a single record. A list is taken as it is. |
| ParseLogs.SkippingKeepsOrder | phase1_parsing/parse_logs.py:170-178 | The k-th entry is the parse of the k-th record that parses, at increasing positions. A record is dropped exactly when it fails to parse. |
| ParseLogs.EntriesMarked | phase1_parsing/parse_logs.py:98-100 | Under SEQUENCE every surviving entry carries a sequence number, and under TIMESTAMP a timestamp when every record has one. |
| ParseLogs.Parse | phase1_parsing/parse_logs.py:118-183 | `parse` computes the specification: select the records, detect the strategy (failing when a record makes the lookup raise), parse every record, skip failures, and validate the collection. |
| ParseLogs.UnreadableRecordFailsParse | phase1_parsing/parse_logs.py:118-183 | A record on which the timestamp lookup raises fails the whole parse, because detection runs outside the per-record guard. Otherwise detection gives the 80 % rule. A CSV table never fails this way. |
| ParseLogs.NumberRecordFailsParse | phase1_parsing/parse_logs.py:39-47 | The document `[1]` fails to parse. |
| ParseLogs.AliasInStringFailsParse | phase1_parsing/parse_logs.py:39-47 | A list holding the string `"a timestamp"` fails to parse. |
| ParseLogs.PlainStringRecordSkipped | phase1_parsing/parse_logs.py:39-47 | A list holding the string `"abc"` parses to an empty SEQUENCE collection: the record reads as untimed and is then skipped. |
| ParseLogs.ParseRecords | phase1_parsing/parse_logs.py:170-178 | The loop parses each record in turn and skips the ones that fail. |
| ParseLogs.SequenceParseSucceeds | phase1_parsing/parse_logs.py:153-183 | When detection succeeds with SEQUENCE on an accepted document, validating the collection never fails, and its entries are the records that parse. |
| ParseLogs.TimedRecordParses | phase1_parsing/parse_logs.py:79-116 | A concrete record with a timestamp parses under TIMESTAMP. |
| ParseLogs.UntimedRecordParses | phase1_parsing/parse_logs.py:79-116 | A concrete record without a timestamp also parses under TIMESTAMP, to an entry without a timestamp. |
| ParseLogs.EightyPercentRuleRejectsLog | phase1_parsing/parse_logs.py:73-77 | As written: four timestamped records and one untimed record give TIMESTAMP. Every record parses, yet the whole parse fails. |
| ParseLogs.DetectStrategyIntended | phase1_parsing/parse_logs.py:53-55 | Corrected detection: TIMESTAMP exactly when there are records and every one has a timestamp. |
| ParseLogs.IntendedParseSucceeds | phase1_parsing/parse_logs.py:153-183 | With the corrected detection, an accepted document yields a collection exactly when no record makes the timestamp lookup raise, and its count is its number of entries. |
| ParseLogs.IntendedAgreesOnCompleteLogs | phase1_parsing/parse_logs.py:73-77 | The two detections agree unless the 80 % rule picks TIMESTAMP for an incompletely timestamped log. |
| ParseLogs.DispatchMatchesLoader | phase1_parsing/parse_logs.py:186-209 | `parse_logs` sends a file to the structured parser exactly when that parser accepts its suffix. Text files never reach it. |
| ParseLogsText.NormalizeAgentIdStripped | phase1_parsing/parse_logs_text.py:121-131 | An empty id becomes `unknown`. Any other id comes out without surrounding whitespace. |
| ParseLogsText.NormalizeAgentIdBracketed | phase1_parsing/parse_logs_text.py:121-131 | A bracketed id loses one pair of brackets and is stripped. |
| ParseLogsText.NormalizeAgentIdPlain | phase1_parsing/parse_logs_text.py:121-131 | An unbracketed id is only stripped. |
| ParseLogsText.CleanActionFacts | phase1_parsing/parse_logs_text.py:133-144 | An empty action becomes `unknown`. Any other action is stripped and loses at most one trailing period, and only when it ends in one. |
| ParseLogsText.FirstMatchWins | phase1_parsing/parse_logs_text.py:154-167 | The first pattern that matches decides. A line that no pattern matches gives nothing. |
| ParseLogsText.MatchLineFacts | phase1_parsing/parse_logs_text.py:146-169 | Blank and `#` comment lines never match. Any other line matches exactly when some pattern matches its stripped form, and then it yields that pattern's groups. |
| ParseLogsText.MatchedLinesFacts | phase1_parsing/parse_logs_text.py:187-199 | Each matched line keeps its own 1-based line number and groups, and line numbers strictly increase. |
| ParseLogsText.MatchedLinesComplete | phase1_parsing/parse_logs_text.py:187-199 | Every line that matches is among the matched lines. |
| ParseLogsText.MatchLines | phase1_parsing/parse_logs_text.py:187-199 | The first loop of `parse` collects exactly the matched lines. |
| ParseLogsText.TextTimestampCount | phase1_parsing/parse_logs_text.py:171-178 | The count of timestamped lines is at most the number of lines. It equals that number exactly when all are timestamped. |
| ParseLogsText.TextStrategyFacts | phase1_parsing/parse_logs_text.py:171-178 | All lines timestamped gives TIMESTAMP. SEQUENCE holds exactly when more than a fifth of the lines lack a timestamp. |
| ParseLogsText.PairsMapKeys | phase1_parsing/parse_logs_text.py:100-105 | A metadata key is present exactly when some `key=value` pair names it. |
| ParseLogsText.PairsMapLastWins | phase1_parsing/parse_logs_text.py:100-105 | A key's value comes from the last pair that names it. |
| ParseLogsText.OperationPriority | phase1_parsing/parse_logs_text.py:107-117 | `for op=` wins over `for operation:`, which wins over a pair named `operation`. |
| ParseLogsText.ExtractMetadataFromAction | phase1_parsing/parse_logs_text.py:83-119 | The action comes back unchanged, together with the metadata embedded in it. |
| ParseLogsText.TextEntriesAt | phase1_parsing/parse_logs_text.py:204-241 | The k-th entry is built from the k-th matched line at position k. |
| ParseLogsText.TextEntriesFacts | phase1_parsing/parse_logs_text.py:204-241 | Each matched line becomes an entry with id `entry_<k>`, the line's agent, action and line number, a sequence number `k` exactly under SEQUENCE, and a timestamp exactly when one was captured and parsed. |
| ParseLogsText.TextEntriesOrdered | phase1_parsing/parse_logs_text.py:204-241 | Under SEQUENCE the sequence numbers strictly increase in output order. Entry ids are pairwise distinct. |
| ParseLogsText.BuildTextEntry | phase1_parsing/parse_logs_text.py:204-241 | The second loop's body builds the entry of one matched line. |
| ParseLogsText.TextCollectionOutcome | phase1_parsing/parse_logs_text.py:243-246 | Validating the collection accepts every SEQUENCE run. It accepts a TIMESTAMP run exactly when every matched line's timestamp parsed. |
| ParseLogsText.ParseTextOutcome | phase1_parsing/parse_logs_text.py:180-246 | The parse fails when no line matched, or when TIMESTAMP was chosen and some timestamp is missing or unparsable. Otherwise it yields one entry per matched line. |
| ParseLogsText.ParseText | phase1_parsing/parse_logs_text.py:180-246 | `parse` computes that specification. |
| ParseNorms.FieldAliases | phase1_parsing/parse_norms.py:22-29 | Every field's alias list starts with the field's own name. |
| ParseNorms.FieldPriority | phase1_parsing/parse_norms.py:38-55 | The first alias present in the priority list decides the field's value. |
| ParseNorms.FieldAbsent | phase1_parsing/parse_norms.py:38-55 | With no alias present the field reads as `None`. |
| ParseNorms.NormTypeFieldFacts | phase1_parsing/parse_norms.py:76-80 | A norm type is accepted exactly when it is a string whose lower-case form is one of the three values, which it then names. |
| ParseNorms.OptString | phase1_parsing/parse_norms.py:57-97 | An optional string field: absent or null gives `None`, and a string is kept. Anything else is rejected. |
| ParseNorms.ParseSingleNormFacts | phase1_parsing/parse_norms.py:57-97 | A parsed norm has its fields under their aliases and the truthy id, else `norm_<index>`. Its type is the lower-cased type field, and the remaining keys become metadata. |
| ParseNorms.DefaultIdsDistinct | phase1_parsing/parse_norms.py:69 | Default norm ids at different positions differ. |
| ParseNorms.InputShapes | phase1_parsing/parse_norms.py:118-129 | A mapping with `norms` gives that list. A mapping without it is a single norm. A list is taken as it is. Anything else is an error. |
| ParseNorms.SkippingKeepsOrder | phase1_parsing/parse_norms.py:131-141 | The k-th norm is the parse of the k-th record that parses, at increasing positions. A record is dropped exactly when it fails to parse. |
| ParseNorms.ParseRecords | phase1_parsing/parse_norms.py:131-141 | The loop parses each record in turn and skips the ones that fail. |
| ParseNorms.Parse | phase1_parsing/parse_norms.py:99-141 | `parse` computes the specification: select the records, parse them, skip failures, and count. |
| ParseNorms.ParseNeverFailsOnAcceptedShape | phase1_parsing/parse_norms.py:99-141 | An accepted shape always yields a collection, with no more norms than records. |
| ParseNorms.DispatchMatchesLoader | phase1_parsing/parse_norms.py:144-167 | `parse_norms` sends a file to the structured parser exactly when that parser accepts its suffix. XML files never reach it. |
| NormMatcher.NormalizeStringChars | phase2_analysis/norm_matcher.py:55-61 | A normalised string holds only lower-case word characters and whitespace, with none at either end. |
| NormMatcher.NormalizeIdempotent | phase2_analysis/norm_matcher.py:55-61 | Normalising twice is the same as normalising once. |
| NormMatcher.AnyPartInExists | phase2_analysis/norm_matcher.py:95-101 | `any(part in s for part in parts)` holds exactly when some part occurs in `s`. |
| NormMatcher.FuzzyRoleMatchHits | phase2_analysis/norm_matcher.py:63-103 | A role matches exactly when one normalised string contains the other or some role token occurs in the agent. The match is `exact` exactly when the normalised strings are equal. |
| NormMatcher.EmptyAgentMatchesEveryRole | phase2_analysis/norm_matcher.py:63-103 | An agent id that normalises to nothing matches every role, as `exact` or `substring_reverse`. |
| NormMatcher.FuzzyRoleMatchNormalized | phase2_analysis/norm_matcher.py:63-103 | Matching depends only on the normalised agent id. |
| NormMatcher.Candidate | phase2_analysis/norm_matcher.py:126-133 | A norm offers its role exactly when it has a truthy role that matches the agent, together with the tier that role matched with. |
| NormMatcher.MatchCandidate | phase2_analysis/norm_matcher.py:126-133 | The loop body up to the tie-break skips a norm without a role and otherwise matches it. |
| NormMatcher.InferAgentRole | phase2_analysis/norm_matcher.py:105-155 | `infer_agent_role` is the mapping the tie-break loop selects. |
| NormMatcher.FirstHit | phase2_analysis/norm_matcher.py:134-140 | The first candidate of a tier: none exactly when no candidate has the tier, and otherwise no earlier candidate has it. |
| NormMatcher.LastHit | phase2_analysis/norm_matcher.py:134-140 | The last candidate of a tier: none exactly when no candidate has the tier, and otherwise no later candidate has it. |
| NormMatcher.BestOverIsExpected | phase2_analysis/norm_matcher.py:126-140 | The loop's tie-break equals the closed form: the last exact match; else the first substring-family match; else the first partial match. |
| NormMatcher.InferRoleFacts | phase2_analysis/norm_matcher.py:105-155 | No role is inferred exactly when no norm's role matches, and the confidence is then `unknown`. Otherwise the role is a matching norm's role. |
| NormMatcher.Applicability | phase2_analysis/norm_matcher.py:157-207 | The applicability record names the norm and agent asked about. |
| NormMatcher.ApplicabilityMissingNorm | phase2_analysis/norm_matcher.py:169-177 | A norm id no norm carries never applies. |
| NormMatcher.ApplicabilityWithoutRole | phase2_analysis/norm_matcher.py:180-189 | A norm without a role applies to every agent. |
| NormMatcher.ApplicabilityWithRole | phase2_analysis/norm_matcher.py:191-207 | A norm with a role applies exactly when the tie-break infers that role for the agent. |
| NormMatcher.ApplicableRoleMatches | phase2_analysis/norm_matcher.py:191-207 | A norm with a role applies only if the role matches the agent's id. |
| NormMatcher.CheckNormApplicability | phase2_analysis/norm_matcher.py:157-207 | `check_norm_applicability` returns that record. |
| NormMatcher.ApplicableAmongFacts | phase2_analysis/norm_matcher.py:209-230 | Every listed norm applies, with its own record. A norm is listed exactly when it applies to the agent. |
| NormMatcher.GetApplicableNormsForAgent | phase2_analysis/norm_matcher.py:209-230 | The loop lists the applicable norms in norm order. |
| NormMatcher.BuildRoleMapping | phase2_analysis/norm_matcher.py:232-244 | There is one key per agent, each mapped to its inferred role. |
| NormMatcher.ApplicabilityRow | phase2_analysis/norm_matcher.py:255-259 | The inner loop produces one norm against every agent, in agent order. |
| NormMatcher.BuildApplicabilityMatrix | phase2_analysis/norm_matcher.py:246-260 | The matrix is the norm-major cross product of norms and agents. |
| NormMatcher.MatrixShape | phase2_analysis/norm_matcher.py:246-260 | The matrix has `|norms| * |agents|` records, and record `i * |agents| + j` is norm `i` against agent `j`. |
| NormMatcher.MatrixAgreesWithRoleMapping | phase2_analysis/norm_matcher.py:232-260 | A norm with a role applies to an agent exactly when the role mapping infers that role for the agent. |
| ComplianceChecker.AgentOrderFacts | phase2_analysis/compliance_checker.py:70-86 | The index's key order lists each agent of the log once. |
| ComplianceChecker.IndexKeys | phase2_analysis/compliance_checker.py:70-86 | The index's keys are the agents of the key order. |
| ComplianceChecker.IndexValues | phase2_analysis/compliance_checker.py:70-86 | Each agent's list holds all its actions in log order, and at least one. |
| ComplianceChecker.IndexValueAt | phase2_analysis/compliance_checker.py:174 | `agent_actions.get(agent, [])` gives the agent's actions in log order. |
| ComplianceChecker.IndexNonEmpty | phase2_analysis/compliance_checker.py:70-86 | No list in the index is empty. |
| ComplianceChecker.ActionIndexFacts | phase2_analysis/compliance_checker.py:70-86 | The index has one key per agent of the log, in first-appearance order without repeats. Each key maps to all of that agent's actions in log order. |
| ComplianceChecker.IndexEntry | phase2_analysis/compliance_checker.py:78-84 | One step of the loop: a new agent gets a list and a place in the order, then the action joins its list. |
| ComplianceChecker.Checker.constructor | phase2_analysis/compliance_checker.py:37-68 | Keeps the norms, entries and matrix, and builds the action index. |
| ComplianceChecker.Checker.BuildAgentActionIndex | phase2_analysis/compliance_checker.py:70-86 | `_build_agent_action_index` leaves the index and its key order as specified. |
| ComplianceChecker.MatchCharacterization | phase2_analysis/compliance_checker.py:96-134 | A non-empty target is matched exactly when one normalised string contains the other or half of its words occur in the action. The match is exact exactly when the strings are equal, and only the empty target gives `no_mission`. |
| ComplianceChecker.BlankTargetMatchesEverything | phase2_analysis/compliance_checker.py:88-134 | A target made only of `_`, `-` and spaces matches every action. |
| ComplianceChecker.MatchTableAt | phase2_analysis/compliance_checker.py:96-134 | Entry k of the match table is action k's match against the target. |
| ComplianceChecker.TableEvidenceFacts | phase2_analysis/compliance_checker.py:246-279 | There is evidence exactly when some action matched, at most one record per action, each from a matching action. |
| ComplianceChecker.ObligationTableEvidenceFacts | phase2_analysis/compliance_checker.py:193-243 | The same for the obligation loop, which matches each action against mission and action. |
| ComplianceChecker.TargetEvidenceFacts | phase2_analysis/compliance_checker.py:246-308 | Evidence against one target is non-empty exactly when some action hits it, and every record comes from a hitting action. |
| ComplianceChecker.ObligationEvidenceFacts | phase2_analysis/compliance_checker.py:193-243 | An obligation has evidence exactly when some action hits its mission or its action. |
| ComplianceChecker.MatchAt | phase2_analysis/compliance_checker.py:201-206 | The loop computes action i's match against a present target. |
| ComplianceChecker.ObligationLoop | phase2_analysis/compliance_checker.py:193-228 | The obligation loop collects exactly the obligation evidence. It is fulfilled exactly when there is some. |
| ComplianceChecker.TargetLoop | phase2_analysis/compliance_checker.py:246-300 | The prohibition and permission loops collect exactly the target evidence. The flag is set exactly when there is some. |
| ComplianceChecker.RecordMatch | phase2_analysis/compliance_checker.py:253-265 | A match sets the flag and appends its evidence record, keeping flag and evidence in step. |
| ComplianceChecker.FirstAppliesUniform | phase2_analysis/compliance_checker.py:136-141 | When all records for the pair agree, the lookup returns their value, or false when there is none. |
| ComplianceChecker.MatrixLookup | phase2_analysis/compliance_checker.py:136-141 | On the built matrix, `_is_norm_applicable` is the pair's applicability for the matrix's agents and false for any other. |
| ComplianceChecker.Checker.IsNormApplicable | phase2_analysis/compliance_checker.py:136-141 | `_is_norm_applicable` is the first matching record's flag. |
| ComplianceChecker.Check | phase2_analysis/compliance_checker.py:143-315 | The result as written names the norm and agent asked about. |
| ComplianceChecker.CheckIntended | phase2_analysis/compliance_checker.py:143-315 | The corrected result names the norm and agent asked about. |
| ComplianceChecker.ShortCircuits | phase2_analysis/compliance_checker.py:154-172 | An unknown norm gives `unknown`, then a non-applicable norm gives `not_applicable`, both without evidence. |
| ComplianceChecker.ApplicabilityGating | phase2_analysis/compliance_checker.py:165-172 | On the matrix built from the same norms, a norm that does not apply gives `not_applicable` or `unknown` and no evidence. |
| ComplianceChecker.ObligationVerdict | phase2_analysis/compliance_checker.py:193-243 | An obligation is fulfilled exactly when some action hits its mission or action. A violation carries no evidence. |
| ComplianceChecker.ProhibitionVerdict | phase2_analysis/compliance_checker.py:246-279 | A prohibition is violated exactly when some action hits it. Without a prohibited action it is fulfilled. |
| ComplianceChecker.PermissionVerdict | phase2_analysis/compliance_checker.py:282-308 | A permission is always fulfilled. Its evidence records the uses of the action, else of the mission. |
| ComplianceChecker.PermissionNonPunitive | phase2_analysis/compliance_checker.py:282-308 | The corrected check never reports a permission violated. |
| ComplianceChecker.ProhibitionMonotone | phase2_analysis/compliance_checker.py:246-279 | One more action never turns a violation into compliance. A hitting action makes an applicable prohibition violated. |
| ComplianceChecker.JudgeProhibitionMonotone | phase2_analysis/compliance_checker.py:246-279 | The same for the verdict on a given list of actions. |
| ComplianceChecker.ZeroActionPermissionViolated | phase2_analysis/compliance_checker.py:177-184 | As written, an applicable permission is violated for an agent without actions. The corrected check fulfils it. |
| ComplianceChecker.CheckAgreesWhenActive | phase2_analysis/compliance_checker.py:177-184 | For an agent with actions, the as-written and corrected checks agree. |
| ComplianceChecker.Checker.CheckCompliance | phase2_analysis/compliance_checker.py:143-315 | `check_compliance` returns the as-written result. |
| ComplianceChecker.Checker.CheckRow | phase2_analysis/compliance_checker.py:329-332 | One norm is checked against each indexed agent in turn. |
| ComplianceChecker.Checker.CheckAllCompliance | phase2_analysis/compliance_checker.py:317-334 | Every norm is checked against every indexed agent, norm-major. |
| ComplianceChecker.CheckAllSize | phase2_analysis/compliance_checker.py:317-334 | A full run makes one result per norm and indexed agent. |
| ComplianceChecker.CheckAllCell | phase2_analysis/compliance_checker.py:317-334 | Result `i * |agents| + j` judges norm i against indexed agent j. |
| ComplianceChecker.CheckAllIsIntended | phase2_analysis/compliance_checker.py:317-334 | Every verdict of a full run equals the corrected verdict. |
| ComplianceChecker.CheckAllPermissionNeverViolated | phase2_analysis/compliance_checker.py:317-334 | A full run never reports a permission violated. |
| SystemProfiler.AgentEntriesCount | phase3_understanding/system_profiler.py:134 | An agent's entries are as many as the agent's occurrences in the log. |
| SystemProfiler.AgentEntriesCountStep | phase3_understanding/system_profiler.py:134 | Each further log entry adds one to both the agent's entries and its count, or to neither. |
| SystemProfiler.AgentEntriesFacts | phase3_understanding/system_profiler.py:134 | An agent's entries are exactly its log entries, as many as it occurs. |
| SystemProfiler.UniqueActionsBound | phase3_understanding/system_profiler.py:137-138 | Distinct actions never outnumber actions, and an agent with an action has at least one distinct action. |
| SystemProfiler.AppearanceFacts | phase3_understanding/system_profiler.py:141-146 | First and last appearance are the least and greatest sequence numbers present, or `None` when there are none. |
| SystemProfiler.ApplicableNormsFacts | phase3_understanding/system_profiler.py:152-159 | The applicable norms are exactly the norms of the agent's results that are not `not_applicable`. |
| SystemProfiler.ComplianceStatusFacts | phase3_understanding/system_profiler.py:152-159 | Each recorded status comes from the agent's last applicable result for that norm. |
| SystemProfiler.ApplicableNormsFor | phase3_understanding/system_profiler.py:152-159 | The inner loop computes the applicable norms and their statuses. |
| SystemProfiler.AgentProfileFacts | phase3_understanding/system_profiler.py:133-174 | A profile counts the agent's actions, bounds its distinct actions, and caps the summary at ten. |
| SystemProfiler.ActionSummaryFacts | phase3_understanding/system_profiler.py:165-167 | The summary lists distinct actions of the agent, each with its number of occurrences, in non-increasing order. |
| SystemProfiler.BuildAgentProfile | phase3_understanding/system_profiler.py:133-174 | The loop body builds one agent's profile. |
| SystemProfiler.BuildAgentProfiles | phase3_understanding/system_profiler.py:125-176 | `build_agent_profiles` builds one profile per agent, in enumeration order. |
| SystemProfiler.AgentProfilesFacts | phase3_understanding/system_profiler.py:125-176 | Over an enumeration of the log's agents, there is one profile per agent, in that order, each with an action. |
| SystemProfiler.MissionOrderNames | phase3_understanding/system_profiler.py:183-203 | The dict's insertion order lists each mission named so far once, in order of first mention. |
| SystemProfiler.MissionOrderKeys | phase3_understanding/system_profiler.py:183-203 | The dict's keys and its insertion order agree. |
| SystemProfiler.MissionUnseen | phase3_understanding/system_profiler.py:183-203 | A mission not named yet has collected no roles and no norms. |
| SystemProfiler.NormStageKeys | phase3_understanding/system_profiler.py:183-203 | After i norms, a mission has an entry exactly when one of them names it. |
| SystemProfiler.NormStageValue | phase3_understanding/system_profiler.py:183-203 | After i norms, a mission's entry holds its distinct roles and norm ids among them. |
| SystemProfiler.NormStageHit | phase3_understanding/system_profiler.py:188-203 | A norm of the mission extends that mission's entry. |
| SystemProfiler.NormStageMiss | phase3_understanding/system_profiler.py:188-203 | A norm of another mission leaves the entry unchanged. |
| SystemProfiler.CollectMissionNorms | phase3_understanding/system_profiler.py:183-203 | The first loop builds the missions with their roles and norms, in first-mention order. |
| SystemProfiler.AssignedMissionKnown | phase3_understanding/system_profiler.py:206-221 | A result's mission is one of the missions the norms name. |
| SystemProfiler.ResultStageKeys | phase3_understanding/system_profiler.py:206-221 | The second loop adds no mission. |
| SystemProfiler.AssignmentSnoc | phase3_understanding/system_profiler.py:215-221 | A result recorded under a mission appends its agent once and sets its status. Any other result changes nothing there. |
| SystemProfiler.WithResultAssigns | phase3_understanding/system_profiler.py:215-221 | Recording one result extends a profile's assignments by it. |
| SystemProfiler.ResultStageValue | phase3_understanding/system_profiler.py:206-221 | After j results, a mission's entry holds its assignments among them. |
| SystemProfiler.NoAssignmentsYet | phase3_understanding/system_profiler.py:206-221 | Before any result, no agent is assigned. |
| SystemProfiler.ResultStageStepValue | phase3_understanding/system_profiler.py:206-221 | One result moves a mission's assignments one step. |
| SystemProfiler.StageKnowsMission | phase3_understanding/system_profiler.py:213-215 | A result's mission is already a key when the result is recorded. |
| SystemProfiler.RecordResult | phase3_understanding/system_profiler.py:207-221 | An applicable result with a mission puts its agent into the mission once and records its status. |
| SystemProfiler.RecordMissionResults | phase3_understanding/system_profiler.py:206-221 | The second loop records every applicable result under its norm's mission. |
| SystemProfiler.BuildMissionProfiles | phase3_understanding/system_profiler.py:178-223 | `build_mission_profiles` builds the missions in first-mention order. |
| SystemProfiler.AssignedMissionFacts | phase3_understanding/system_profiler.py:210-213 | A result goes under mission m exactly when it is applicable and the first norm with its id belongs to m. |
| SystemProfiler.MissionNamesFacts | phase3_understanding/system_profiler.py:183-203 | The missions are distinct and are exactly the norms' truthy missions. |
| SystemProfiler.MissionProfileFacts | phase3_understanding/system_profiler.py:183-203 | A mission's roles are the distinct truthy roles of its norms, and its norms are the ids of the norms that name it. |
| SystemProfiler.MissionAgentsFacts | phase3_understanding/system_profiler.py:206-221 | A mission's agents are the distinct agents of the results recorded under it. |
| SystemProfiler.FulfillmentFacts | phase3_understanding/system_profiler.py:206-221 | There is one status per assigned agent: the status of the last result recorded for that agent under the mission. |
| SystemProfiler.TimelineOrder | phase3_understanding/system_profiler.py:230-233 | The sorted entries are a permutation of the log, sorted by the strategy's marker. |
| SystemProfiler.BuildExecutionTimeline | phase3_understanding/system_profiler.py:225-244 | `build_execution_timeline` builds the records of the sorted entries. |
| SystemProfiler.TimelinePermutes | phase3_understanding/system_profiler.py:225-244 | There is one record per log entry: the entries' records, reordered, each built from the entry at its position. |
| SystemProfiler.TimelineDropsSequenceZero | phase3_understanding/system_profiler.py:240 | As written, an entry with sequence number 0 gets no marker. The corrected timeline gives it marker 0. |
| SystemProfiler.MarkerIntended | phase3_understanding/system_profiler.py:240 | Corrected marker: the sequence number if present, else the timestamp, and `None` only when both are absent. |
| SystemProfiler.TimelineIntendedMarkers | phase3_understanding/system_profiler.py:225-244 | In the corrected timeline of a consistent log, every record has a marker. Under SEQUENCE these are sequence numbers and never decrease. |
| SystemProfiler.TimelineAgrees | phase3_understanding/system_profiler.py:240 | The two timelines agree when no sequence number is 0. |
| SystemProfiler.RegisteredAt | phase3_understanding/system_profiler.py:114 | A capture of `Registered\s+(\w+)` is a non-empty run of word characters. |
| SystemProfiler.SearchRegistered | phase3_understanding/system_profiler.py:107-123 | The leftmost capture is a non-empty run of word characters. |
| SystemProfiler.SearchRegisteredContains | phase3_understanding/system_profiler.py:114 | An action with a `Registered <agent>` match contains "Registered". |
| SystemProfiler.RegisteredIsRegistration | phase3_understanding/system_profiler.py:260-268 | An action naming a registered agent is classified as a registration. |
| SystemProfiler.ClassifyPriority | phase3_understanding/system_profiler.py:260-268 | The keyword families are tried in order: register, then send or deliver, then request or ask, else coordination. |
| SystemProfiler.DetectInteractions | phase3_understanding/system_profiler.py:246-285 | `detect_interactions` fails exactly when some entry has a truthy target that is not a string. Otherwise it computes the grouped interactions. |
| SystemProfiler.InteractionFacts | phase3_understanding/system_profiler.py:246-285 | Each interaction counts its entries (source, target, type) and keeps at most five of their ids. |
| SystemProfiler.InteractionKeysDistinct | phase3_understanding/system_profiler.py:246-285 | No two interactions share source, target and type. |
| SystemProfiler.InteractionCoverage | phase3_understanding/system_profiler.py:246-285 | Every entry with a truthy string target is counted under its own key. |
| SystemProfiler.InteractionTotal | phase3_understanding/system_profiler.py:246-285 | Frequencies sum to the number of entries that contribute an interaction. |
| SystemProfiler.BuildProfile | phase3_understanding/system_profiler.py:287-343 | `build_profile` fails exactly when `detect_interactions` does. Otherwise it assembles the profile. |
| SystemProfiler.ProfileTotals | phase3_understanding/system_profiler.py:287-343 | The totals are the sizes of what they total. The type histogram adds up to the norms and the status histogram to the results. |
| SystemProfiler.ProfileRoles | phase3_understanding/system_profiler.py:297-300 | The profile's roles group the agents by truthy inferred role. |
| SystemProfiler.RoleMembers | phase3_understanding/system_profiler.py:297-300 | An agent is listed under a role exactly when that is its truthy inferred role. |
| SystemProfiler.RolesFacts | phase3_understanding/system_profiler.py:297-300 | No role is listed twice, and every agent with a truthy role is listed under it. |
| SystemProfiler.NormsByRoleFacts | phase3_understanding/system_profiler.py:305-309 | Each role lists the ids of its norms, and each truthy role of a norm is listed once. |
| EvidenceRetriever.NormalizeTextFacts | phase4_retrieval/evidence_retriever.py:65-67 | Normalised text holds only lower-case word characters and inner whitespace, and is a fixed point. |
| EvidenceRetriever.ExtractEntities | phase4_retrieval/evidence_retriever.py:69-110 | `_extract_entities` computes the extracted entities. |
| EvidenceRetriever.ExtractedFacts | phase4_retrieval/evidence_retriever.py:90-103 | An agent, role or mission is extracted exactly when it is in the profile and its normalised name occurs in the normalised question. Distinct names stay distinct. |
| EvidenceRetriever.PunctuationNameAlwaysMentioned | phase4_retrieval/evidence_retriever.py:92 | A name made only of punctuation counts as mentioned by every question. |
| EvidenceRetriever.ClassifyQuery | phase4_retrieval/evidence_retriever.py:112-152 | The question's kind, with each kind characterised in both directions: compliance keywords, then timeline keywords, then named agents, then norm cues, then mission cues, else overview. |
| EvidenceRetriever.RoleAgentsMember | phase4_retrieval/evidence_retriever.py:166-168 | An agent is among the named roles' agents exactly when one of those roles lists it. |
| EvidenceRetriever.RetrieveAgentEvidence | phase4_retrieval/evidence_retriever.py:154-190 | `_retrieve_agent_evidence` computes the agent evidence. |
| EvidenceRetriever.AgentEvidenceFacts | phase4_retrieval/evidence_retriever.py:154-190 | The targets are the named agents, else the named roles' agents. The evidence is exactly their profiles, their entries, their applicable results and the interactions they take part in. |
| EvidenceRetriever.NormIdsOf | phase4_retrieval/evidence_retriever.py:205-213 | The loop collects the ids of the selected norms, in norm order. |
| EvidenceRetriever.TargetedResults | phase4_retrieval/evidence_retriever.py:221-229 | The loop keeps the targeted applicable results, plus each of their known agents once. |
| EvidenceRetriever.RetrieveNormEvidence | phase4_retrieval/evidence_retriever.py:192-231 | `_retrieve_norm_evidence` computes the norm evidence. |
| EvidenceRetriever.NormEvidenceFacts | phase4_retrieval/evidence_retriever.py:192-231 | The targets are the named norm ids, else those of the named roles' and missions' norms. The evidence is exactly the targeted norms and applicable results, plus each result's agent once. With no target, every norm is evidence. |
| EvidenceRetriever.NormSelection | phase4_retrieval/evidence_retriever.py:215-224 | The targets select exactly the targeted norms and the targeted applicable results. |
| EvidenceRetriever.DerivedTargets | phase4_retrieval/evidence_retriever.py:203-213 | Without named norms, the targets are exactly the ids of the norms of the named roles or missions. |
| EvidenceRetriever.SelectedId | phase4_retrieval/evidence_retriever.py:205-213 | An id is collected exactly when a selected norm carries it. |
| EvidenceRetriever.AgentsOnce | phase4_retrieval/evidence_retriever.py:226-229 | The gathered profiles are distinct, each the agent of some result. Every result with a known agent contributes its agent. |
| EvidenceRetriever.AgentsOfResults | phase4_retrieval/evidence_retriever.py:226-229 | Each gathered profile is known and belongs to the agent of some result. |
| EvidenceRetriever.ResultAgentsFound | phase4_retrieval/evidence_retriever.py:226-229 | The agent of every result with a known profile is gathered. |
| EvidenceRetriever.RetrieveMissionEvidence | phase4_retrieval/evidence_retriever.py:233-269 | `_retrieve_mission_evidence` computes the mission evidence. |
| EvidenceRetriever.CollectAssignedAgents | phase4_retrieval/evidence_retriever.py:254-261 | The nested loop adds each known agent assigned to a targeted mission once. |
| EvidenceRetriever.CollectMissionAgents | phase4_retrieval/evidence_retriever.py:256-261 | One targeted mission's assigned agents are added, each known agent once. |
| EvidenceRetriever.AssignedAgentsMember | phase4_retrieval/evidence_retriever.py:258 | An agent is collected exactly when some mission lists it. |
| EvidenceRetriever.MissionEvidenceFacts | phase4_retrieval/evidence_retriever.py:233-269 | The targets are the named missions, else all missions. The evidence is their profiles, the norms naming them, their known agents once each, and the applicable results of those norms. |
| EvidenceRetriever.MissionAgents | phase4_retrieval/evidence_retriever.py:254-261 | The gathered profiles are distinct, each listed to one of the missions. |
| EvidenceRetriever.ResultsOfNorms | phase4_retrieval/evidence_retriever.py:263-267 | The results kept are exactly the applicable results carrying one of the norms' ids. |
| EvidenceRetriever.RetrieveComplianceEvidence | phase4_retrieval/evidence_retriever.py:271-324 | `_retrieve_compliance_evidence` computes the compliance evidence. |
| EvidenceRetriever.GatherResults | phase4_retrieval/evidence_retriever.py:289-322 | The loop keeps the results that pass the filters and gathers their norms, agents and entries. |
| EvidenceRetriever.KeepResult | phase4_retrieval/evidence_retriever.py:305-322 | A kept result adds its norm, its agent and its evidence entries, each only if not already there. |
| EvidenceRetriever.AddLogEntries | phase4_retrieval/evidence_retriever.py:318-322 | For each evidence id, the first log entry with that id is added unless already present. |
| EvidenceRetriever.EvidenceIdsMember | phase4_retrieval/evidence_retriever.py:318-319 | Every evidence entry id of every kept result is visited. |
| EvidenceRetriever.ComplianceEvidenceFacts | phase4_retrieval/evidence_retriever.py:271-324 | The evidence is exactly the applicable results passing the status, agent and norm filters. Each of their norms, agents and evidence entries is included once. |
| EvidenceRetriever.KeptResults | phase4_retrieval/evidence_retriever.py:282-305 | Results are kept exactly when they are applicable and pass the filters. A question about violations keeps only violations. |
| EvidenceRetriever.KeptNorms | phase4_retrieval/evidence_retriever.py:307-310 | Each gathered norm is the first norm with its id, and that id belongs to a kept result. |
| EvidenceRetriever.KeptEntries | phase4_retrieval/evidence_retriever.py:317-322 | Each gathered entry is cited as evidence by a kept result. |
| EvidenceRetriever.RetrieveTimelineEvidence | phase4_retrieval/evidence_retriever.py:326-351 | `_retrieve_timeline_evidence` computes the timeline evidence. |
| EvidenceRetriever.EnumeratedAgent | phase4_retrieval/evidence_retriever.py:346 | The set enumeration lists exactly the agents of the entries. |
| EvidenceRetriever.TimelineEvidenceFacts | phase4_retrieval/evidence_retriever.py:326-351 | The entries are the named agents' entries, else the first hundred of the log. The profiles are those of the known agents among the entries, once each. |
| EvidenceRetriever.OverviewEvidence | phase4_retrieval/evidence_retriever.py:353-370 | An overview gives the first ten agents, all norms and missions, and the system totals. |
| EvidenceRetriever.RetrieveEvidence | phase4_retrieval/evidence_retriever.py:388-411 | The dispatch picks the retrieval of the question's kind. |
| EvidenceRetriever.Retrieve | phase4_retrieval/evidence_retriever.py:372-437 | `retrieve` builds the packet from the extracted entities, the kind and the evidence. |
| EvidenceRetriever.RetrievalFacts | phase4_retrieval/evidence_retriever.py:372-437 | The packet's kind is the classification, and its count is the number of items. Only an overview has totals. Every item comes from the artifacts, and no result is `not_applicable`. |

## Left out

- File I/O is parameters. Opening, reading and decoding JSON, YAML and CSV files and checking that they exist are not modelled. The parsers start from the decoded document (`RawData.Json`) or the file's lines.
- Regular expressions are parameters. The text-log line patterns, the `key=value` and `operation` patterns, and the norm-id pattern `\b(n\d+|norm_?\d+)\b` are supplied by the caller as functions. `Registered\s+(\w+)` is written out in full.
- Timestamp parsing is a parameter. `strptime` in the `LogEntry` validator and in the text parser's `_parse_timestamp`, and pydantic's coercion of other timestamp and integer values, are supplied by the caller. Timestamps are integers.
- Set iteration order is a parameter. `set(...)` is iterated in `build_role_mapping`, `build_applicability_matrix`, `build_agent_profiles` and `_retrieve_timeline_evidence`. The model takes any duplicate-free enumeration of the set as a parameter.
- Pydantic validation is modelled only as far as the core relies on it:
  - required strings;
  - optional values;
  - the norm-type enumeration;
  - `model_post_init`.

  Other coercions (numbers given as strings, dict-valued metadata checks) are not modelled.
- The `reasoning`, `evidence` and `retrieval_strategy` strings are not modelled. The model keeps their structure: which entry, which action, which target and which kind.
- Warnings printed for skipped records are not modelled.
- Strings are ASCII. Python's `lower`, `\w`, `\s`, `strip` and `split` are modelled on ASCII, with whitespace the space, `\t` to `\r` and U+001C to U+001F. Unicode case folding and Unicode word characters are not.
- Float thresholds are integer comparisons. `count >= n * 0.8` is written as `5 * count >= 4 * n`, and `overlap >= words * 0.5` as `2 * overlap >= words`. These are the same comparisons for integer operands.
- ParseLogs.SelectRawLogs: a non-list under `logs` or `entries` is an error. The source would iterate over whatever value it finds.
- ParseNorms.InputShapes: a non-list under `norms` is an error, for the same reason.
- ParseLogsText.ParseText: the per-entry `try`/`except` is not modelled. In the source nothing inside it can raise: `_parse_timestamp` returns `None` instead of failing, and every field it passes to `LogEntry` is a string or `None`. So every matched line yields an entry, and a missing timestamp surfaces only at the collection's validation.
- The unknown-norm-type branch of `check_compliance` is not modelled. `NormType` has exactly three values, so that branch is unreachable.
- `parse_norms_xml.py` is not part of this model. The dispatch lemmas show that an XML file never reaches the structured norm parser.
- Phase 5 (explanation generation), `main.py` and `web_app.py` are not part of this model.
- SystemProfiler.BuildExecutionTimeline requires every entry to carry the strategy's marker when the log has two or more entries. Python cannot compare a missing marker with another key, so the source would fail there. This is what a constructed `ParsedLogs` guarantees.
- SystemProfiler.TimelineOrder: the timeline sort uses Python's stable `sorted`, and the model sorts stably on the same key. Timestamps are ordered as integers rather than as serialised strings.

## Findings

| source | as written | input that shows it | evidently intended | confidence | as-written member | corrected member |
|---|---|---|---|---|---|---|
| phase2_analysis/compliance_checker.py:177-184 | An agent without recorded actions is reported `violated` for every applicable norm, including permissions and prohibitions. | Norm `p1`, a permission applicable to agent `a1`, with no action logged for `a1`. | Permissions are never punitive, and a prohibition cannot be broken without acting. Only an obligation is violated by inaction. | not executed | ComplianceChecker.ZeroActionPermissionViolated | ComplianceChecker.PermissionNonPunitive |
| phase3_understanding/system_profiler.py:240 | `temporal_marker` is `sequence_number or timestamp`, so sequence number 0 (falsy) is replaced by the missing timestamp. | One SEQUENCE entry with sequence number 0 and no timestamp gets the marker `None`. | The entry's marker is 0. | not executed | SystemProfiler.TimelineDropsSequenceZero | SystemProfiler.TimelineIntendedMarkers |
| phase1_parsing/parse_logs.py:73-77 | TIMESTAMP is chosen when 80 % of the records have a timestamp, but `ParsedLogs` then demands a timestamp on every entry, so the whole parse fails. | Four records with a timestamp and one without. | TIMESTAMP only when every record has a timestamp, as the method's own documentation says, so that the parse succeeds. | not executed | ParseLogs.EightyPercentRuleRejectsLog | ParseLogs.IntendedParseSucceeds |
