# Qeet Logs: verified models

A Dafny 4.11 model of the parts of Qeet Logs whose behaviour is hardest to see from the code:
the LogQL++ query engine, the Loki translator, incident correlation, the ClickHouse writer, the
remap language, blast radius and the OpenAPI splitter, the forecast arithmetic, and three small
guards of the ingest gateway. `dafny verify dfyconfig.toml` checks everything.

Code that changes things step by step is a method or a class, proved equal to a specification
function; what the system promises is then proved of that function, or of every run of the steps.

| file | models |
|---|---|
| `Text.dfy` | characters, decimals, quoting, string order, fragments a scanner reads in any context |
| `Lexer.dfy`, `Ast.dfy`, `ParserSpec.dfy`, `ParserCursor.dfy`, `ParserLaws.dfy`, `ParserStatements.dfy`, `ParserSpelling.dfy` | `domains/query` front end: token loop, grammar, parser cursor, printing and round trips of WHERE trees and of whole statements, and how an accepted statement is spelled |
| `Compile.dfy`, `CompileLoops.dfy`, `CompileAccepts.dfy` | the compiler to SQL text, its loops, and which texts it accepts |
| `Sql.dfy`, `SqlSelect.dfy`, `SqlScanning.dfy`, `SqlReading.dfy` | an independent SQL reader, of conditions with row semantics and of whole statements, and what it makes of text fragments |
| `Meaning.dfy`, `CompileMeaning.dfy`, `CompileClauses.dfy`, `CompileTheorem.dfy` | the meaning of a WHERE tree, of the output list and of the closing clauses, and the theorem that ties a statement to the emitted text |
| `Matcher.dfy`, `MatcherLaws.dfy`, `MatcherAgreement.dfy`, `MatcherWitness.dfy` | the live-tail matcher, when it shows a record, its agreement with the compiled text, and a library and line that meet the hypotheses and show where the two part |
| `Loki.dfy`, `LokiTheorem.dfy` | `domains/grafana`: translation into LogQL++ and its reading back |
| `Topology.dfy`, `BlastRadius.dfy` | dependency graph and blast radius |
| `Alerting.dfy`, `AlertingBooks.dfy`, `AlertEngine.dfy` | incident table, its books over runs, and the engine |
| `DedupToken.dfy`, `Writer.dfy`, `WriterRuns.dfy`, `WriterExactly.dfy` | deduplication token; work queue, tables, acknowledgements; runs that lose or double messages, and exactly when there are such runs |
| `RemapSyntax.dfy`, `RemapPrinting.dfy`, `RemapRoundTrip.dfy`, `RemapPrograms.dfy`, `RemapPanics.dfy` | remap parser, canonical text, round trips, panics |
| `RemapJson.dfy`, `RemapRun.dfy`, `RemapLaws.dfy` | JSON paths, the remap interpreter, and what expressions and conditions mean |
| `OpenApi.dfy`, `OpenApiRefs.dfy`, `OpenApiPaths.dfy` | references and lookups, reference closure and self-contained files; split and merge of paths |
| `Forecast.dfy`, `RateLimit.dfy`, `RateLimitRuns.dfy`, `AuthCache.dfy`, `Luhn.dfy` | arithmetic and guards |

## What is proved

* **Compilation.** For every accepted input, the emitted SQL, scanned and read as one statement by a
  grammar of its own (AND over OR, parentheses, backslash-escaped literals), is the user's statement:
  its table, its output columns in order with their values, its grouping, order and limit, and a
  condition that holds of a row iff the row is the tenant's, satisfies the parsed predicate and
  contains the search tokens. Nothing is left over. The limit is the one asked for, or the default,
  and never above the cap. Which texts are accepted is an if and only if on the parsed statement.
* **Live tail.** For every TAIL text, the matcher accepts a record iff the SQL of the SELECT with the
  same predicate chooses its stored row. For every comparison, record and operator, the record is
  shown iff the field names a value whose printed form stands to the literal that way: numbers by
  size, times by instant, texts by first difference, levels by severity. Five places where the two part are stated with their exact
  condition and an input each: `==`, a missing JSON leaf, a present leaf that is not a string, a level
  literal outside lower case, an offset beyond 64-bit nanoseconds.
* **Parser.** Every well-formed SEARCH, TAIL and SELECT, printed, parses back to exactly that
  statement, in tokens and in text, and every accepted text is spelled clause by clause as its
  statement says. One spelling, `+ 0s`, is lost, and only that one.
* **Loki.** Every accepted query is understood by the engine as exactly its matchers and a window
  wider by less than a second on each side, iff the limit in force is not negative.
* **Incidents.** Open incidents are an independent set of the dependency graph; confidence,
  severity, deploy, rules, signal counts and pages are those of the merged signals; severity never
  falls; under the default gate high and critical incidents are paged, and no others; noise never
  pages.
* **Writer.** Acknowledged means stored, nothing is stored that was not published, and exactly once
  under same-batch redelivery. Beyond those conditions: over all runs, a message can be lost iff two
  blocks of its table share a token and it is in one of them only, and can be stored twice iff its
  table can get another message that has an id.
* **Remap.** Whole programs survive printing and parsing; every statement does to the event, read
  path by path, what its kind promises; expressions and conditions against a relation of their own;
  fail-open runs.
  The parser can panic: exactly on a chain of conditions that ends in a comparison whose value is a
  literal cut off inside an escape, and on a program exactly when such a line is reached.
* **Graphs.** Blast radius is the sorted set of services that reach the focus; the closure is the
  least ref-closed set; split files are self-contained; split then merge keeps every path.
* **Forecast, limiter, cache, Luhn.** Least squares is optimal; acceptances per window are counted
  exactly, at most the limit per window and twice the limit per minute apart from requests made
  while the store was down; a cached authorisation is at most 30 seconds plus the completion delay
  old, and the bound is sharp, and what it carries is spelled out; all single-digit errors and all adjacent swaps but 0/9 are seen.

## Model

| member | source | states |
|---|---|---|
| `Lexer.LexString` | domains/query/lexer.go:96-113 | the loop returns the unescaped body and the length of a literal, or refuses an unterminated one |
| `Lexer.LexNumber` | domains/query/lexer.go:130-145 | digits with a unit letter make a duration, digits alone a number, with the length consumed |
| `Lexer.LexRound` | domains/query/lexer.go:36-92 | one round keeps the tokens so far plus the scan of the rest equal to the scan of the whole, and moves on |
| `Lexer.Lex` | domains/query/lexer.go:33-94 | the token loop computes the token list of the whole text, ending in EOF, or refuses the text |
| `Lexer.TokenOpen` | domains/query/lexer.go:33-145 | every well-formed token, printed, scans back to itself whatever non-continuing text follows |
| `Lexer.ScanSpaced` | domains/query/lexer.go:33-94 | tokens printed with spaces between them scan back to the same tokens |
| `ParserCursor.Parser.Next` | domains/query/parser.go:31-32 | advancing keeps the cursor inside the list |
| `ParserCursor.Parser.ParseStmt` | domains/query/parser.go:46-57 | statement dispatch: result and final position are those of the grammar, cursor valid |
| `ParserCursor.Parser.SearchStmt` | domains/query/parser.go:59-75 | SEARCH statements: same result and position as the grammar, which StatementRoundTrip and AcceptedIsSpelled tie to the statement written |
| `ParserCursor.Parser.TailStmt` | domains/query/parser.go:77-87 | TAIL statements: same result and position as the grammar |
| `ParserCursor.Parser.SelectStmt` | domains/query/parser.go:89-142 | SELECT statements: same result and position as the grammar |
| `ParserCursor.Parser.SelectList` | domains/query/parser.go:144-163 | the comma loop collects exactly the listed items |
| `ParserCursor.Parser.SelectOne` | domains/query/parser.go:165-199 | aggregates are told from plain fields with a one-token lookahead that stays inside the list |
| `ParserCursor.Parser.OptionalLimit` | domains/query/parser.go:234-247 | the limit is the 64-bit number read, or absent |
| `ParserCursor.Parser.OrExpr` | domains/query/parser.go:251-266 | the OR loop builds the left-associated tree of the grammar and ends behind it |
| `ParserCursor.Parser.AndExpr` | domains/query/parser.go:268-282 | the AND loop, which binds tighter |
| `ParserCursor.Parser.Primary` | domains/query/parser.go:284-298 | parentheses are kept as a node |
| `ParserCursor.Parser.CompareExpr` | domains/query/parser.go:300-314 | field, operator, value, or a refusal |
| `ParserCursor.Parser.FieldRef` | domains/query/parser.go:316-329 | the dotted path read so far and the position behind it |
| `ParserCursor.Parser.TimeLit` | domains/query/parser.go:348-372 | now() with an optional signed duration |
| `ParserCursor.ParseInput` | domains/query/parser.go:15-28 | parsing terminates on every text, never indexes outside the token list, and accepts only at EOF |
| `ParserLaws.OrForward` | domains/query/parser.go:250-345 | every left-associated tree, printed anywhere in a token list, parses back to that tree and stops right behind it |
| `ParserLaws.AcceptedPrintsBack` | domains/query/parser.go:250-372 | an accepted WHERE has the grammar's shape, and prints back to the tokens consumed iff none of them is a plus before a zero duration |
| `ParserLaws.PlusZeroIsLost` | domains/query/parser.go:348-372 | the spelling that does not print back |
| `ParserLaws.DurationExact` | domains/query/parser.go:374-393 | a duration is digits times 1, 60, 3600 or 86400 seconds iff the product stays below 2^63; longer digit runs are refused |
| `ParserLaws.ParsedWf` | domains/query/parser.go:46-372 | every accepted statement has identifier fields in all clauses, known aggregates, identifier aliases, digit numbers and listed operators |
| `ParserLaws.TextRoundTrip` | domains/query/parser.go:250-345 | a printed WHERE tree, as text, is tokenised and parsed to the same tree |
| `ParserStatements.StatementRoundTrip` | domains/query/parser.go:46-247 | every well-formed SEARCH, TAIL and SELECT (phrase, table, items with aggregate and alias, WHERE, GROUP BY, ORDER BY with and without a direction, LIMIT), printed as tokens, parses to exactly that statement |
| `ParserStatements.StatementTextRoundTrip` | domains/query/parser.go:15-247 | the same through the text: phrase, table, list, predicate, grouping, order and limit are those that were written |
| `ParserSpelling.AcceptedIsSpelled` | domains/query/parser.go:15-247 | every clause of an accepted statement stands in the text, in order, keywords in any letter case, and the text has nothing besides |
| `Compile.SearchTokens` | domains/query/compile.go:348-366 | the tokenising loop returns the maximal alphanumeric runs |
| `Compile.SearchPredicate` | domains/query/compile.go:348-373 | one probe per token, joined by AND |
| `Compile.WhereSQL` | domains/query/compile.go:172-187 | tenant guard first, the parenthesised predicate, the parenthesised probes |
| `CompileLoops.SelectLists` | domains/query/compile.go:96-111 | the projection loop, refusing at the first bad item |
| `CompileLoops.GroupList` | domains/query/compile.go:123-133 | the GROUP BY loop |
| `CompileLoops.CompileSelect` | domains/query/compile.go:95-147 | text before, WHERE text and text after it |
| `CompileLoops.CompileQuery` | domains/query/compile.go:60-93 | refusal, tail-only, or the compiled text, for every input |
| `CompileAccepts.CompilesExactly` | domains/query/compile.go:60-325 | a text compiles iff it parses to a statement on a known table that is no TAIL, no SEARCH off logs, and names only known fields; TAIL on a known table is refused as such |
| `CompileAccepts.StarHasColumns` | domains/query/compile.go:375-388 | a star stands for at least one column, all of them columns of the table, none twice |
| `CompileMeaning.FieldText` | domains/query/compile.go:244-325 | every accepted field's SQL reads back as a term with the field's value |
| `CompileMeaning.ValueText` | domains/query/compile.go:327-346 | every literal's SQL reads back as a term with the literal's value, whatever characters it holds |
| `CompileMeaning.ComparisonText` | domains/query/compile.go:214-240 | a comparison's SQL reads back as a condition true exactly when the comparison is, tenant fields and level ranks included |
| `CompileMeaning.ExprText` | domains/query/compile.go:189-240 | the text of every WHERE tree reads back as a condition with the tree's meaning |
| `CompileMeaning.WhereConjuncts` | domains/query/compile.go:172-187 | the whole clause reads back as guard, predicate and one token test for every maximal run of letters and digits in the phrase |
| `CompileClauses.ItemsText` | domains/query/compile.go:96-170 | every output list reads back as the items asked for, stars spelled out, in order, each with its aggregate, name and value |
| `CompileClauses.SelectSuffixClause` | domains/query/compile.go:123-147 | what follows the WHERE reads back as the grouping and order of the statement and a limit that is the asked one, or the default when none is asked, or the cap when that is exceeded, up to the end of the text |
| `CompileClauses.SearchSuffixClause` | domains/query/compile.go:81-93 | a SEARCH reads back as newest first under the same limit rule |
| `CompileTheorem.CompiledMeaning` | domains/query/compile.go:60-401 | for every accepted input and tenant the whole SQL text reads back as the user's statement over its table behind the tenant guard, with the limit in force never above the cap, and the output names are the reported columns |
| `CompileTheorem.CompiledWhereMeaning` | domains/query/compile.go:172-240 | the condition in that text chooses exactly the qualifying rows and ends exactly where the compiler ended it |
| `CompileTheorem.TenantIsolation` | domains/query/compile.go:172-187 | no row of another tenant is chosen by the emitted text, whatever the user wrote |
| `Matcher.ExtractJSON` | domains/query/matcher.go:123-143 | the walk finds the leaf the path names, or nothing |
| `Matcher.LevelRankLoop` | domains/query/matcher.go:165-173 | the rank of a level in any letter case, -1 otherwise |
| `MatcherLaws.Shown` | domains/query/matcher.go:18-191 | a record is shown for a comparison iff the field is the tenant or names a value whose printed form stands to the literal as the operator says |
| `MatcherLaws.NumberAtPath` | domains/query/matcher.go:74-87 | a digit literal on a JSON path: the leaf is compared by size if it reads as a number, and refused if not |
| `MatcherLaws.NumberLeaf` | domains/query/matcher.go:74-87 | over a number leaf x the record is shown iff x stands to the literal's value that way |
| `MatcherLaws.NothingShown` | domains/query/matcher.go:41-51 | a field that names nothing shows nothing, for any operator |
| `MatcherAgreement.EvalAgrees` | domains/query/matcher.go:25-121 | on the tenant's lines the matcher and the meaning of the tree agree, tree by tree |
| `MatcherAgreement.RanksAgree` | domains/query/matcher.go:165-173 | the 0-based rank and the 1-based index order a level and a plain literal alike |
| `MatcherAgreement.TailAgreesWithSql` | platform/api/handler/tail.go:29-79 | for every TAIL text the endpoint serves whose predicate compiles, the matcher accepts a record iff the SQL of the SELECT with that predicate, read back as a whole, chooses its row |
| `MatcherAgreement.TailAgreesWithSelect` | domains/query/matcher.go:18-121 | the same for a TAIL text and any accepted SELECT text on logs with the same predicate |
| `MatcherAgreement.DoubleEquals` | domains/query/matcher.go:175-191 | on `==` the two agree iff the values differ |
| `MatcherAgreement.MissingLeaf` | domains/query/matcher.go:123-143 | on a missing leaf the two agree iff the empty string fails the comparison |
| `MatcherAgreement.NonStringLeaf` | domains/query/matcher.go:123-156 | on a present leaf that is not a string the two agree iff its printed form and the empty string compare alike |
| `MatcherWitness.LawsAreMet` | domains/query/matcher.go:145-163 | some library meets the laws the agreement asks for |
| `MatcherWitness.MirrorIsMet` | domains/query/matcher.go:18-121 | for every tenant some record and row meet the relation the agreement asks for |
| `MatcherWitness.NumberLeafParts` | domains/query/matcher.go:123-156 | over the body {"n":1}, `body.n = '1'` is shown by live tail and not found by SQL |
| `MatcherWitness.DoubleEqualsParts` | domains/query/matcher.go:175-191 | over an info line, `level == 'info'` is found by SQL and not shown by live tail |
| `MatcherWitness.MissingLeafParts` | domains/query/matcher.go:123-143 | over the body {"n":1}, `body.m = ''` is found by SQL and not shown by live tail |
| `MatcherWitness.CapitalLevelParts` | domains/query/matcher.go:53-57 | over an info line, `level > 'INFO'` is found by SQL and not shown by live tail |
| `MatcherWitness.LongOffsetParts` | domains/query/matcher.go:60-72 | `timestamp > now() - 10000000000s` is found by SQL and not shown by live tail |
| `MatcherAgreement.LevelLiteral` | domains/query/matcher.go:53-57 | severity order agrees for every level and operator iff the literal is a lower-case level or no level in any case |
| `MatcherAgreement.OffsetFits` | domains/query/matcher.go:60-72 | the live-tail time bound is exact iff the offset fits 64-bit nanoseconds |
| `Loki.MatcherLoop` | domains/grafana/loki.go:144-160 | refuses exactly the lists with an unknown label or an operator other than = and != |
| `Loki.LabelsAre` | domains/grafana/loki.go:144-156 | the value of a label is that of its last equality matcher, and it has none without one |
| `Loki.Translate` | domains/grafana/loki.go:122-182 | the text, or a refusal for a reversed window |
| `Loki.WindowIsTight` | domains/grafana/loki.go:188-201 | rounding is directed: the printed window contains the asked one, by less than a second on each side |
| `LokiTheorem.TranslationParses` | domains/grafana/loki.go:166-182 | the printed text parses to the one statement asked for, or is refused iff the limit in force is negative |
| `LokiTheorem.TranslationIsUnderstood` | domains/grafana/loki.go:122-210 | an accepted query parses, and compiles for every tenant, iff the limit in force is not negative, and then to exactly the asked matchers with values restored through quoting |
| `LokiTheorem.TranslationWindow` | domains/grafana/loki.go:122-201 | the time bounds of an understood text contain [start, end] and exceed it by less than a second; the end defaults to now, the start to an hour before the end, for any times within 2^63 ns of now |
| `Topology.NeighborsSymmetric` | domains/topology/topology.go:192-206 | neighbourhood is symmetric |
| `Topology.Neighbors` | domains/topology/topology.go:192-206 | the loop returns exactly the one-hop neighbours |
| `Alerting.ConfidenceMeans` | domains/alerting/confidence.go:25-45 | over a baseline the score rises from 0 at the mean to 1 at six deviations, without one from 0 at the threshold to 1 at twice it; an anomaly brings its own, an absence has 0.7, the rest a half |
| `Alerting.CalibrationFactor` | domains/alerting/calibration.go:23-30 | neutral below five verdicts, from there a half plus 0.65 times the actionable share, so between 0.5 and 1.15 |
| `Alerting.CalibratedMeans` | domains/alerting/incident.go:48-51 | a signal's score is its confidence times that weight held between 0 and 1, and rules without a service are not weighed |
| `Alerting.StepKeepsTable` | domains/alerting/incident.go:33-76 | one correlate or resolve keeps one open incident per fingerprint and independence |
| `Alerting.OpenIncidentsIndependent` | domains/alerting/incident.go:33-183 | in every reachable state open incidents are an independent set and unique per fingerprint |
| `AlertingBooks.ScoreIsMax` | domains/alerting/incident.go:48-76 | the recorded score bounds all merged calibrated scores and is one of them |
| `AlertingBooks.RulesAreDistinct` | domains/alerting/incident.go:48-76 | the rule list holds each merged rule once |
| `AlertingBooks.BooksBalance` | domains/alerting/incident.go:48-124 | over any run: confidence, deploy, rules, count and pages of every incident are those of its signals; it is critical iff its confidence is at least 0.85, high from 0.6, medium from 0.3, low below; paged iff over the gate and once; the counts sum to the correlate calls |
| `AlertingBooks.SeverityNeverFalls` | domains/alerting/incident.go:48-96 | however a run goes on, the incidents it had stay, and their confidence and severity never fall |
| `AlertingBooks.PagedIffHigh` | domains/alerting/incident.go:81-116 | under the default gate an incident is paged iff it is high or critical, and once |
| `AlertingBooks.NoiseNeverPages` | domains/alerting/calibration.go:23-30 | a signal from a noise-only service lifts no incident over the default gate |
| `AlertingBooks.NoisyIncidentUnpaged` | domains/alerting/incident.go:98-116 | an incident fed by such signals only is never paged in any run |
| `AlertEngine.Engine.NeighborIncident` | domains/alerting/incident.go:158-183 | picks an open incident of a neighbour, or none exists |
| `AlertEngine.Engine.Upsert` | domains/alerting/incident.go:48-76 | merges into the open row of the fingerprint or appends one |
| `AlertEngine.Engine.Settle` | domains/alerting/incident.go:81-116 | severity is the label of the merged confidence by the four ranges; pages once and only over the gate |
| `AlertEngine.Engine.Correlate` | domains/alerting/incident.go:33-124 | the new table is that of the abstract step, and the history grows by it |
| `AlertEngine.Engine.ResolveOpenIncident` | domains/alerting/incident.go:127-140 | closes the service's own open incident and nothing else |
| `AlertEngine.Engine.EvalRule` | domains/alerting/engine.go:113-184 | correlates on every firing cycle, resolves on the falling edge only |
| `AlertEngine.Engine.AlwaysConsistent` | domains/alerting/engine.go:72-184 | after any evaluations the table is independent and the books balance |
| `BlastRadius.Visit` | domains/topology/topology.go:150-157 | each caller is pushed when first met, and everything seen reaches the focus |
| `BlastRadius.Search` | domains/topology/topology.go:146-158 | ends with exactly the other services that reach the focus by a chain of calls |
| `BlastRadius.SortedElements` | domains/topology/topology.go:159-164 | strictly ascending, same elements |
| `BlastRadius.Graph.FocusBlastRadius` | domains/topology/topology.go:139-188 | sorted duplicate-free blast radius; exactly the edges touching the focus, in order; the nodes on them |
| `BlastRadius.TouchingEdgesIs` | domains/topology/topology.go:174-180 | an edge is kept iff it is the graph's and touches the focus |
| `BlastRadius.KeptNodesIs` | domains/topology/topology.go:181-187 | a node is kept iff it is the graph's and its service is kept |
| `BlastRadius.EdgesKeptInOrder` | domains/topology/topology.go:174-180 | order and repetitions of the kept edges stay |
| `BlastRadius.NodesKeptInOrder` | domains/topology/topology.go:181-187 | and so for the nodes |
| `DedupToken.TokenIgnoresOrder` | ingest/writer/src/main.rs:200-209 | the token does not depend on the order of the ids |
| `DedupToken.TokenInjective` | ingest/writer/src/main.rs:200-209 | on comma-free ids, equal tokens iff equal id multisets |
| `DedupToken.CommaCollides` | ingest/writer/src/main.rs:200-209 | two ids and the one that joins them with a comma share a token |
| `DedupToken.TokenGrows` | ingest/writer/src/main.rs:200-209 | every id makes the token longer by its length and one, commas or not |
| `DedupToken.ComputeToken` | ingest/writer/src/main.rs:200-209 | the loop sorts and concatenates |
| `Writer.SubjectTable` | ingest/writer/src/main.rs:28-35 | a subject names a table iff it is that table's name or ends in a dot and that name |
| `Writer.IdIs` | ingest/writer/src/main.rs:112-121 | a message has an id iff its record is an object whose field "id" is a string |
| `Writer.GroupInOrder` | ingest/writer/src/main.rs:100-126 | a batch's messages of a table stay in order |
| `Writer.OnlyPublishedRows` | ingest/writer/src/main.rs:100-160 | in every run every stored row was published to that table's subject |
| `Writer.SeenMeansStored` | ingest/writer/src/main.rs:128-160 | a group passed over by its token has all its ids in the table |
| `Writer.AckedIsStored` | ingest/writer/src/main.rs:100-160 | in every run with comma-free ids, whatever fails or is redelivered, an acknowledged readable message has its id in its table |
| `Writer.AckedRowIsStored` | ingest/writer/src/main.rs:100-160 | with unique ids the stored row is the message itself |
| `Writer.SameBatchSameToken` | ingest/writer/src/main.rs:128-160 | the same records in another order make the same token, table by table |
| `Writer.StoredAtMostOnce` | ingest/writer/src/main.rs:128-160 | under same-batch redelivery no record is stored twice, in any run |
| `Writer.StoredExactlyOnce` | ingest/writer/src/main.rs:128-160 | and every acknowledged record with an id is stored exactly once |
| `WriterRuns.ScriptValid` | ingest/writer/src/main.rs:81-160 | when publishing some messages and delivering two batches is a run |
| `WriterRuns.IdlessIsLost` | ingest/writer/src/main.rs:112-121 | a valid run: of two id-less messages delivered in turn the second is acknowledged and not stored |
| `WriterRuns.IdlessBehindIsLost` | ingest/writer/src/main.rs:112-121 | a valid run: behind any message of its table whose acknowledgement got lost, an id-less message is acknowledged and not stored |
| `WriterRuns.JoinedIdIsLost` | ingest/writer/src/main.rs:200-209 | a valid run: a message whose id joins two stored ids with a comma is acknowledged and not stored |
| `WriterRuns.RegroupingDuplicates` | ingest/writer/src/main.rs:128-160 | a valid run: redelivered without another message that has an id, after an unheard insert of both, an acknowledged record is stored twice |
| `WriterExactly.RunBlocky` | ingest/writer/src/main.rs:81-160 | in every run each stored block is at most 100 distinct published messages of its table |
| `WriterExactly.NeverLost` | ingest/writer/src/main.rs:100-160 | in every run, a message no two colliding blocks tell apart is stored once acknowledged, id or not, commas or not |
| `WriterExactly.LostExactly` | ingest/writer/src/main.rs:100-209 | a readable message can be lost iff two possible blocks of its table make the same token and it is in one of them only |
| `WriterExactly.IdlessLostExactly` | ingest/writer/src/main.rs:100-160 | a readable message without id can be lost iff another message of its table can be published |
| `WriterExactly.NeverDoubled` | ingest/writer/src/main.rs:128-160 | in every run, while no other message of the table has an id, the message is stored at most once |
| `WriterExactly.DoubledExactly` | ingest/writer/src/main.rs:128-209 | a readable message can be stored more than once iff another message of its table that has an id can be published |
| `Writer.Consumer.Accumulate` | ingest/writer/src/main.rs:100-126 | each group holds exactly its table's readable messages, in order, with their ids |
| `Writer.Consumer.InsertBlock` | ingest/writer/src/main.rs:165-198 | a seen token or a lost insert changes nothing; otherwise the block is appended |
| `Writer.Consumer.Process` | ingest/writer/src/main.rs:81-160 | one loop turn is the abstract delivery: per-table inserts, all-or-nothing acknowledgement |
| `RemapSyntax.StripComment` | ingest/core/src/remap.rs:167-182 | the line up to the first # outside a literal |
| `RemapSyntax.SplitArgs` | ingest/core/src/remap.rs:324-345 | cuts at top-level commas only |
| `RemapSyntax.UnescapeLoop` | ingest/core/src/remap.rs:486-507 | known escapes replaced, unknown ones kept |
| `RemapSyntax.ScanLiteral` | ingest/core/src/remap.rs:233-247 | where the literal scan of a condition stops |
| `RemapSyntax.SplitShort` | ingest/core/src/remap.rs:294-304 | every argument is no longer than its list, so parsing terminates |
| `RemapSyntax.ParseLoop` | ingest/core/src/remap.rs:71-85 | all statements in order, the first failure, or the cap |
| `RemapPrinting.UnescapeInverts` | ingest/core/src/remap.rs:486-507 | unescaping the canonical escape of any string gives the string |
| `RemapPrinting.ExprPasses` | ingest/core/src/remap.rs:167-182 | canonical expression text survives comment stripping and is one argument to the splitter, at any depth |
| `RemapRoundTrip.SplitArgsText` | ingest/core/src/remap.rs:324-345 | an argument list is cut into exactly the arguments' texts |
| `RemapRoundTrip.ParsedPath` | ingest/core/src/remap.rs:271-281 | accepted paths have at least one segment, none empty |
| `RemapRoundTrip.ExprRoundTrip` | ingest/core/src/remap.rs:283-321 | every canonical expression's text parses to that expression |
| `RemapPrograms.CondBack` | ingest/core/src/remap.rs:220-262 | a condition and the statement text behind it are read back |
| `RemapPrograms.StmtRoundTrip` | ingest/core/src/remap.rs:184-216 | every canonical statement's text parses to that statement |
| `RemapPrograms.ProgramRoundTrip` | ingest/core/src/remap.rs:71-85 | a program's text parses to the program up to 200 statements and is refused beyond |
| `RemapPanics.CondValuePanics` | ingest/core/src/remap.rs:233-248 | reading a condition's value panics iff it is a literal cut off inside an escape |
| `RemapPanics.CondPanicsExactly` | ingest/core/src/remap.rs:220-262 | reading a condition panics iff its path parses, its operator takes a value, known or not, and the value is cut |
| `RemapPanics.StmtPanicsExactly` | ingest/core/src/remap.rs:184-262 | a statement makes the parser panic iff it is a chain of conditions that parse, ending in a cut one |
| `RemapPanics.ProgramPanicsExactly` | ingest/core/src/remap.rs:71-85 | loading a program panics iff some line within the cap is such a chain and all before it parse |
| `RemapPanics.PanicNeedsBackslash` | ingest/core/src/remap.rs:184-262 | a trimmed line that makes the parser panic ends in a backslash |
| `RemapPanics.DanglingPanics` | ingest/core/src/remap.rs:197-248 | every comparison with such a value does panic |
| `RemapJson.GetPut` | ingest/core/src/remap.rs:422-442 | reading at or below a written path reads the value written |
| `RemapJson.GetAbovePut` | ingest/core/src/remap.rs:430-442 | reading above it reads the old value with the write inside, intermediates created |
| `RemapJson.GetApartPut` | ingest/core/src/remap.rs:430-442 | incomparable paths read as before |
| `RemapJson.GetDrop` | ingest/core/src/remap.rs:444-455 | a deleted path and all below it are absent |
| `RemapJson.GetAboveDrop` | ingest/core/src/remap.rs:444-455 | reading above reads the old value with the path deleted in it |
| `RemapJson.GetApartDrop` | ingest/core/src/remap.rs:444-455 | incomparable paths read as before |
| `RemapJson.RedactHides` | ingest/core/src/remap.rs:148-153 | afterwards the path is absent or the mask, nothing is readable below, the rest is untouched |
| `RemapJson.RenameLands` | ingest/core/src/remap.rs:154-160 | the whole old value is at the destination, also when one path extends the other |
| `RemapJson.RenameSource` | ingest/core/src/remap.rs:154-160 | what the source path reads afterwards, in all four relations of the paths |
| `RemapJson.RenameFrame` | ingest/core/src/remap.rs:154-160 | paths apart from both are untouched |
| `RemapRun.Event.SetPath` | ingest/core/src/remap.rs:430-442 | the in-place descent and write equals the functional update |
| `RemapRun.Event.DelPath` | ingest/core/src/remap.rs:444-455 | the in-place delete equals the functional one, a missing path changes nothing |
| `RemapRun.Event.ExecTop` | ingest/core/src/remap.rs:114-164 | read by paths: del leaves nothing at or below its path, redact the mask iff the path was there, set the value, rename moves the old value whole; a false condition or an error changes nothing; paths apart from those touched read as before; and what the statement answers |
| `RemapRun.StatementDoes` | ingest/core/src/remap.rs:114-164 | the same of the abstract step, for every statement and event |
| `RemapLaws.EvalIs` | ingest/core/src/remap.rs:347-391 | an expression evaluates to a value iff it has that value in a relation of its own: concat joins all arguments' texts, coalesce takes the first neither null nor empty, conversions, and an error otherwise |
| `RemapLaws.HoldsIs` | ingest/core/src/remap.rs:393-418 | a condition holds iff it is met: presence, equality with the value or null, and the number order where both sides are numbers |
| `RemapRun.Event.Apply` | ingest/core/src/remap.rs:93-110 | applied plus errors is the statement count, errors counts the failing statements, the route is the last successful one |
| `RemapRun.Event.Transform` | ingest/gateway/src/main.rs:507-575 | a non-empty program text that parses is applied with the laws of a run; any other leaves the event alone |
| `RemapRun.FailOpen` | ingest/core/src/remap.rs:93-110 | a run with a failing statement is the run without it |
| `RemapRun.StaysObject` | ingest/core/src/remap.rs:93-110 | the event is an object after any prefix of any program |
| `RemapRun.ParsedStmtWf` | ingest/core/src/remap.rs:184-216 | parsed statements meet what execution needs of them |
| `RemapRun.ParsedProgramWf` | ingest/core/src/remap.rs:71-85 | parsed programs meet what execution needs and stay within 200 statements |
| `OpenApi.CollectRefs` | tools/openapi-split/main.go:587-611 | adds exactly the references standing in the tree |
| `OpenApi.MapGetLoop` | tools/openapi-split/main.go:512-522 | the first value under the key of a mapping, nothing elsewhere |
| `OpenApiRefs.FindIs` | tools/openapi-split/main.go:512-522 | a lookup finds the value of the first pair with the key, and nothing iff there is none |
| `OpenApiRefs.RefIs` | tools/openapi-split/main.go:593-603 | a pair is a reference iff its key is $ref and its scalar reads #/components/section/name, cut at the first slash |
| `OpenApiRefs.RefsAre` | tools/openapi-split/main.go:587-611 | the scan finds exactly the references some way down the tree leads to |
| `OpenApi.ResolveClosure` | tools/openapi-split/main.go:615-647 | terminates with the least ref-closed set around the start |
| `OpenApi.ClosureUnique` | tools/openapi-split/main.go:615-647 | there is only one such set |
| `OpenApi.BuildComponents` | tools/openapi-split/main.go:651-673 | the section and name loops keep wanted entries in order |
| `OpenApiRefs.NamesKeptInOrder` | tools/openapi-split/main.go:651-673 | kept entries stay in order |
| `OpenApiRefs.OneNameKept` | tools/openapi-split/main.go:658-668 | an entry is kept as it is iff it is a security scheme or in the closure |
| `OpenApi.LookupBuilt` | tools/openapi-split/main.go:651-673 | the built components resolve exactly the closure and the security schemes, each to the source's component |
| `OpenApi.SplitFileSelfContained` | tools/openapi-split/main.go:181-217 | a file cut from a source without dangling references is self-contained iff what its head and the security schemes refer to is carried |
| `OpenApiPaths.ClassifyPath` | tools/openapi-split/main.go:228-265 | the classification loop: the file and the tags, or an error |
| `OpenApiPaths.ClassifyMeans` | tools/openapi-split/main.go:228-265 | a path goes to a file iff it has operations, all tagged, all tags known and of that file |
| `OpenApiPaths.TagFamilies` | tools/openapi-split/main.go:43-71 | ingest and admin tags are exactly those named so, operations has the health tag, query the rest |
| `OpenApiPaths.SplitPaths` | tools/openapi-split/main.go:151-175 | every path in the one file it belongs to, in order; fails iff some path belongs to none |
| `OpenApiPaths.BucketInOrder` | tools/openapi-split/main.go:151-175 | the paths of a file stay in the source's order |
| `OpenApiPaths.EveryFileSelfContained` | tools/openapi-split/main.go:181-217 | every file of a split is self-contained when head and security schemes refer to nothing |
| `OpenApiPaths.SplitMergePaths` | tools/openapi-split/main.go:151-175 | after split and merge every path item is there as often as in the source, unchanged |
| `OpenApiPaths.MergePaths` | tools/openapi-split/main.go:308-317 | the merge loop keeps all paths in order and refuses iff a key repeats |
| `OpenApiPaths.MergeAccepts` | tools/openapi-split/main.go:308-317 | merging a split succeeds iff no path key repeats in the source |
| `Forecast.DenominatorClosed` | domains/forecast/forecast.go:45-49 | the denominator is n²(n²−1)/12, positive from two points on, so the zero guard is dead |
| `Forecast.FitIsOptimal` | domains/forecast/forecast.go:29-53 | no line has a smaller squared error than a solution of the normal equations |
| `Forecast.LineRecovered` | domains/forecast/forecast.go:29-53 | a series on a line is recovered exactly |
| `Forecast.LinearForecast` | domains/forecast/forecast.go:29-53 | for every series the returned line minimises the squared error |
| `Forecast.ThresholdIsFirstCrossing` | domains/forecast/forecast.go:74-84 | the answer is the first crossing; none is reported iff there is none |
| `Forecast.BreachExactly` | domains/forecast/forecast.go:66-84 | a breach is immediate iff the value is exactly at the threshold, and past it is reported iff the value moves back |
| `Forecast.PastCeilingUnreported` | domains/forecast/forecast.go:66-84 | 105 over a ceiling of 100 and rising is reported as never breaching |
| `Forecast.ProjectOnLine` | domains/forecast/forecast.go:58-64 | a series on a line is projected along that line |
| `Forecast.EWMA` | domains/forecast/forecast.go:91-106 | the loop computes the weighted sum of the points with the factor given, with 0.3 for one that is not positive, and returns the newest point for one above 1 |
| `Forecast.SmoothIsWeighted` | domains/forecast/forecast.go:91-106 | the smoothed level is the sum of the points, the newest weighed with a and each older one with 1 - a times its weight without the newest |
| `Forecast.WeightClosed` | domains/forecast/forecast.go:91-106 | the weights are a, a(1 - a), a(1 - a)^2, ... from the newest back, and (1 - a)^(n-1) for the first |
| `Forecast.SmoothStaysInRange` | domains/forecast/forecast.go:91-106 | the smoothed level stays within the range of the data |
| `Forecast.SeasonalBaseline` | domains/forecast/forecast.go:127-146 | the loop averages the values at the coming phase after the reset, if there are any |
| `Forecast.BaselineIsMean` | domains/forecast/forecast.go:127-146 | the baseline is the mean of the values one, two, ... periods before the coming point, as many as fit in the data after the reset; there is one iff one fits |
| `Forecast.BaselineWithinPhase` | domains/forecast/forecast.go:127-146 | the baseline lies within the values seen at that phase |
| `RateLimit.RetryLandsInFreshWindow` | ingest/gateway/src/harden.rs:113-121 | waiting Retry-After lands on the reset, the first second of the next window, and no shorter wait leaves the window |
| `RateLimit.KeyInjective` | ingest/gateway/src/harden.rs:98-101 | two checks share a counter iff same tenant and same window |
| `RateLimit.Limiter.RateLimit` | ingest/gateway/src/main.rs:540-564 | verdict, headers and new counter store of one check |
| `RateLimitRuns.StoreCounts` | ingest/gateway/src/main.rs:540-564 | over any run the stored counter is the number of checks in the window, on a key that outlives it |
| `RateLimitRuns.AcceptedExactly` | ingest/gateway/src/main.rs:540-564 | acceptances per window: the smaller of checks and limit, plus checks beyond the 32-bit count, plus every request made while the store was down |
| `RateLimitRuns.WindowLimit` | ingest/gateway/src/main.rs:540-564 | at most the limit per tenant and aligned window on top of outages; in a full window the limit holds iff there was no outage and the count fits 32 bits |
| `RateLimitRuns.SpanLimit` | ingest/gateway/src/main.rs:540-564 | at most twice the limit in any 60 seconds on top of outages |
| `AuthCache.GrantMeans` | ingest/gateway/src/main.rs:475-528 | each answer of the lookup: no key iff it is not live, no scope iff it is live without logs:ingest, and a grant carries the key's tenant, the tenant's retention or the general one held in 1..65535, its masking or {}, and its enabled program iff that parses to some statement |
| `AuthCache.CrashExactly` | ingest/gateway/src/main.rs:507-523 | a key that would be granted takes the request down iff its tenant's enabled program has a line the parser panics at |
| `AuthCache.AcceptedIsRecent` | ingest/gateway/src/main.rs:459-532 | in every interleaving, a request accepted at t carries what the lookup gave at a time in (t − 30 s − d, t], d the largest delay between query and insertion |
| `AuthCache.AcceptedKeyWasLive` | ingest/gateway/src/main.rs:459-532 | within that window the key was live, of that tenant, with the ingest scope |
| `AuthCache.RevocationTakesEffect` | ingest/gateway/src/main.rs:469-473 | a key no longer granted is refused once 30 s + d have passed |
| `AuthCache.LateCompletionStretches` | ingest/gateway/src/main.rs:529-531 | the bound is sharp: for every late insertion a run accepts a revoked key outside the plain 30-second window |
| `AuthCache.RevokedKeyLetIn` | ingest/gateway/src/main.rs:475-532 | for the gateway's own query: every granted key is let in once more after revocation, outside the plain window when the insertion is late |
| `AuthCache.Gateway.Begin` | ingest/gateway/src/main.rs:459-473 | empty key refused, fresh entry accepted, otherwise a miss |
| `AuthCache.Gateway.Ask` | ingest/gateway/src/main.rs:475-528 | the query's answer decides refusal or a pending grant |
| `AuthCache.Gateway.Complete` | ingest/gateway/src/main.rs:524-532 | the grant is cached at the current time and returned |
| `Luhn.LuhnOk` | ingest/core/src/pii.rs:134-151 | the reversed loop decides the Luhn sum, counted from the right, over 13 to 19 digits |
| `Luhn.SumFromRight` | ingest/core/src/pii.rs:139-150 | the sum over the digits as written is the one from the right: the last digit once, the one before it twice, less nine |
| `Luhn.DigitsSplit` | ingest/core/src/pii.rs:135 | the digits of a text are those of its parts, in order |
| `Luhn.OneCharacter` | ingest/core/src/pii.rs:135 | a character 0 to 9 is its digit, any other is none |
| `Luhn.KnownNumber` | ingest/core/src/pii.rs:134-151 | 4111 1111 1111 1111 is valid |
| `Luhn.SingleErrorDetected` | ingest/core/src/pii.rs:134-151 | changing one digit of an accepted number is always rejected |
| `Luhn.AdjacentSwap` | ingest/core/src/pii.rs:134-151 | swapping unequal neighbours is accepted iff they are 0 and 9 |

## Left out

- Error messages: the model keeps which inputs are refused, not the wording.
- ClickHouse beyond the reading of the emitted text: grouping and aggregation themselves, type coercions, alias resolution, the granularity of now(), expiry of the dedup window; columns are read by name.
- Letter case outside ASCII: identifiers, keywords and HTTP methods are ASCII, where the folding is exact.
- Library routines of the matcher and of remap (time, float and JSON decoding, JSON printing, Unicode case mapping) are parameters, with the laws that matter stated where they are used.
- MatcherAgreement.TailAgreesWithSql: predicates that compile, with literals of the column's own type and present string JSON leaves. For string literals on JSON paths MatcherAgreement.MissingLeaf and MatcherAgreement.NonStringLeaf settle the remaining cases; MatcherLaws.Shown says what live tail does with a literal of another type than the column or leaf; what ClickHouse does with it, and with the array column pii_detected, depends on its coercions, so the agreement on those is covered by no lemma.
- ParserStatements.StatementRoundTrip: table and aggregate names in lower case, the form the parser keeps them in; ParserSpelling.AcceptedIsSpelled covers the other letter cases.
- ParserLaws.AcceptedPrintsBack: tokens are compared up to the letter case of keywords and the unit a duration is written in.
- Loki selector syntax: the model starts from the parsed matchers; the regular expressions behind it and promql.go are not part of this model.
- Incident correlation: one sequential evaluator, no store errors, a topology fixed during a run without self-edges, fingerprints injective; the signal's score, deploy lookup and verdict counts enter each step as inputs, webhooks and notification texts are dropped.
- Forecast.ThresholdIsFirstCrossing: follows the code; the comment in the source promises a breach at once for a value already past the threshold, which Forecast.PastCeilingUnreported refutes and Forecast.BreachExactly replaces by the exact condition.
- Writer: publication for live tail and HTTP details of the insert are dropped; the hash of the token is taken as injective; the dedup window never expires.
- Writer.AckedIsStored: ids without commas, messages with an id; WriterExactly.LostExactly says exactly which of the others can be lost.
- Writer.StoredExactlyOnce: redelivery of the same records; WriterExactly.DoubledExactly says exactly what another grouping can double.
- AuthCache.AcceptedIsRecent: masking actions stay unparsed text and database and gateway share one clock; the plain 30-second window is the case of no delay between query and insertion.
- Remap numbers: reals, so no rounding, negative zero or overflow to infinity; the nesting depth of the argument splitter is unbounded, not 32 bits.
- RemapRun.Event.SetPath: the walk down and the rebuilding on the way up are explicit, since values here have no interior references.
- RemapPrograms.ProgramRoundTrip: a condition's value is a string literal or has no white space, because the condition grammar cuts any other value at its first blank.
- OpenAPI documents: alias-free trees; the rewriting of info, servers and tags is an arbitrary head, and merging of components and tags is not modelled.
- Forecast: exact reals; AfterReset and Deviation are single expressions.
- RateLimitRuns.WindowLimit: the store fails open, so requests made while it is down come on top of the limit, and so do checks past the 32-bit count; RateLimitRuns.AcceptedExactly counts both.
- HTTP handlers, CLI, WebSocket, OTLP and other decoders, regular-expression PII detectors, billing, retention cost, war room, console, configuration and migrations: plumbing or single-branch code.
